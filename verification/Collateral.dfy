/** The collateral floor: risk-weighted valuation, the withdrawal guards and the
    exact slack they leave. */
module Collateral {
  import opened Prelude
  import opened Arith
  import opened Sums

  type Token = nat

  datatype Config = Config(
    collateralToken: Option<Token>,
    allowlist: seq<Token>,
    weights: map<Token, u32>,
    minRatioBps: u32)

  /** Legacy single-token balances with their global total, and the per-token
      balances of the multi-collateral entrypoints. */
  datatype Pool = Pool(
    legacy: map<Address, int>,
    tokens: map<(Address, Token), int>,
    total: int)

  function Legacy(p: Pool, b: Address): int {
    if b in p.legacy then p.legacy[b] else 0
  }

  function Held(p: Pool, b: Address, t: Token): int {
    if (b, t) in p.tokens then p.tokens[(b, t)] else 0
  }

  function WeightOf(cfg: Config, t: Token): u32 {
    if t in cfg.weights then cfg.weights[t] else 10_000
  }

  function LegacyWeight(cfg: Config): u32 {
    if cfg.collateralToken.Some? then WeightOf(cfg, cfg.collateralToken.value) else 10_000
  }

  // ---- Valuation ----------------------------------------------------------

  /** `floor(amount * weight)`, the value the contract credits. */
  function Value(amount: int, w: u32): int {
    if amount <= 0 then 0 else amount * Min(w, 10_000) / 10_000
  }

  /** The true risk-weighted value, in units of 1/10_000. */
  function Exact(amount: int, w: u32): int {
    if amount <= 0 then 0 else amount * Min(w, 10_000)
  }

  /** `weighted_collateral_value`; the product is checked in `u128`. */
  function Weigh(amount: int, w: u32): (r: Result<int>)
    ensures r.Ok? ==> r.value == Value(amount, w)
  {
    if amount <= 0 then Ok(0)
    else if w >= 10_000 then
      DivUnique(amount * 10_000, 10_000, amount);
      Ok(amount)
    else if amount * w > U128_MAX then Err(Panic)
    else CheckedI128(amount * w / 10_000)
  }

  lemma ValueIsFloor(amount: int, w: u32)
    ensures 10_000 * Value(amount, w) <= Exact(amount, w) < 10_000 * Value(amount, w) + 10_000
    ensures 0 <= Value(amount, w)
    ensures w >= 10_000 ==> Exact(amount, w) == 10_000 * Value(amount, w)
  {
    if amount > 0 {
      var x := amount * Min(w, 10_000);
      DivMod(x, 10_000);
      MulNonNeg(amount, Min(w, 10_000));
      DivNonNeg(x, 10_000);
      if w >= 10_000 {
        DivUnique(x, 10_000, amount);
      }
    }
  }

  /** Does the flooring of the released part and of the remainder lose a unit
      that flooring the whole did not? */
  predicate Carries(released: int, kept: int, w: u32) {
    0 < released && 0 < kept
    && released * Min(w, 10_000) % 10_000 + kept * Min(w, 10_000) % 10_000 >= 10_000
  }

  lemma SplitValue(released: int, kept: int, w: u32)
    requires 0 <= released && 0 <= kept
    ensures Value(released + kept, w)
         == Value(released, w) + Value(kept, w) + (if Carries(released, kept, w) then 1 else 0)
    ensures Exact(released + kept, w) == Exact(released, w) + Exact(kept, w)
  {
    var m := Min(w, 10_000);
    assert (released + kept) * m == released * m + kept * m;
    DivAdd(released * m, kept * m, 10_000);
  }

  function TokenValue(cfg: Config, p: Pool, b: Address): Token -> int {
    (t: Token) => Value(Held(p, b, t), WeightOf(cfg, t))
  }

  function TokenExact(cfg: Config, p: Pool, b: Address): Token -> int {
    (t: Token) => Exact(Held(p, b, t), WeightOf(cfg, t))
  }

  /** A token without a configured weight, or with one of at least 100 %, counts in
      full; any other at the floor of its share.  The legacy balance counts as the
      configured collateral token. */
  lemma WeightsMeaning(cfg: Config, p: Pool, b: Address, t: Token)
    requires 0 <= Held(p, b, t) && 0 <= Legacy(p, b)
    ensures t !in cfg.weights || 10_000 <= cfg.weights[t] ==> TokenValue(cfg, p, b)(t) == Held(p, b, t)
    ensures t in cfg.weights && cfg.weights[t] < 10_000 ==>
      var v := TokenValue(cfg, p, b)(t); 10_000 * v <= Held(p, b, t) * cfg.weights[t] < 10_000 * v + 10_000
    ensures cfg.collateralToken == Some(t) ==> LegacyWeight(cfg) == WeightOf(cfg, t)
    ensures cfg.collateralToken.None? ==> Value(Legacy(p, b), LegacyWeight(cfg)) == Legacy(p, b)
  {
    ValueIsFloor(Held(p, b, t), WeightOf(cfg, t));
    ValueIsFloor(Legacy(p, b), LegacyWeight(cfg));
  }

  /** The sum of the floors over the legacy balance and every allowlisted token. */
  function Effective(cfg: Config, p: Pool, b: Address): int {
    Value(Legacy(p, b), LegacyWeight(cfg)) + SumOf(TokenValue(cfg, p, b), cfg.allowlist)
  }

  /** The true risk-weighted collateral, in units of 1/10_000. */
  function Backing(cfg: Config, p: Pool, b: Address): int {
    Exact(Legacy(p, b), LegacyWeight(cfg)) + SumOf(TokenExact(cfg, p, b), cfg.allowlist)
  }

  /** `effective_collateral_value` after `n` tokens, with its overflow checks. */
  function EffectiveChecked(cfg: Config, p: Pool, b: Address, n: nat): (r: Result<int>)
    requires n <= |cfg.allowlist|
    ensures r.Ok? ==> r.value == Value(Legacy(p, b), LegacyWeight(cfg))
                                 + SumOf(TokenValue(cfg, p, b), cfg.allowlist[..n])
  {
    if n == 0 then Weigh(Legacy(p, b), LegacyWeight(cfg))
    else
      assert cfg.allowlist[..n] == cfg.allowlist[..n - 1] + [cfg.allowlist[n - 1]];
      SumOfAppend(TokenValue(cfg, p, b), cfg.allowlist[..n - 1], cfg.allowlist[n - 1]);
      var t := cfg.allowlist[n - 1];
      var total :- EffectiveChecked(cfg, p, b, n - 1);
      if Held(p, b, t) <= 0 then Ok(total)
      else
        var v :- Weigh(Held(p, b, t), WeightOf(cfg, t));
        CheckedI128(total + v)
  }

  function EffectiveValue(cfg: Config, p: Pool, b: Address): (r: Result<int>)
    ensures r.Ok? ==> r.value == Effective(cfg, p, b)
  {
    assert cfg.allowlist[..|cfg.allowlist|] == cfg.allowlist;
    EffectiveChecked(cfg, p, b, |cfg.allowlist|)
  }

  /** `ceil(utilized * ratio / 10_000)`, zero without debt. */
  function Required(debt: int, ratio: u32): int {
    if debt <= 0 then 0
    else debt * ratio / 10_000 + if debt * ratio % 10_000 == 0 then 0 else 1
  }

  function RequiredChecked(debt: int, ratio: u32): Result<int> {
    if debt <= 0 then Ok(0)
    else if !InI128(debt * ratio) then Err(Overflow)
    else Ok(Required(debt, ratio))
  }

  lemma RequiredIsCeiling(debt: int, ratio: u32)
    requires 0 < debt
    ensures 10_000 * (Required(debt, ratio) - 1) < debt * ratio <= 10_000 * Required(debt, ratio)
  {
    DivMod(debt * ratio, 10_000);
  }

  // ---- Steps --------------------------------------------------------------

  function SumLegacy(p: Pool): Address -> int {
    (b: Address) => Legacy(p, b)
  }

  /** `assert_total_collateral_conserved`, over the indexed borrowers. */
  predicate TotalConserved(p: Pool, ids: seq<Address>) {
    && p.total == SumOf(SumLegacy(p), ids)
    && forall k :: 0 <= k <= |ids| ==> InI128(SumOf(SumLegacy(p), ids[..k]))
  }

  /** `set_collateral_balance`: store, adjust the total, re-check it. */
  function SetLegacy(p: Pool, ids: seq<Address>, b: Address, balance: int): Result<Pool> {
    var delta :- CheckedI128(balance - Legacy(p, b));
    var stored := p.(legacy := p.legacy[b := balance]);
    if delta == 0 then Ok(stored)
    else
      var total :- CheckedI128(p.total + delta);
      var updated := stored.(total := total);
      if TotalConserved(updated, ids) then Ok(updated) else Err(Panic)
  }

  datatype Op =
    | Deposit(b: Address, amount: int)
    | Withdraw(b: Address, amount: int)
    | PartialRelease(b: Address, amount: int)
    | DepositToken(b: Address, token: Token, amount: int)
    | WithdrawToken(b: Address, token: Token, amount: int)

  /** The ratio guard shared by the releasing entrypoints. */
  function Guard(cfg: Config, p: Pool, b: Address, debt: int, amount: int, w: u32): Result<()> {
    var effective :- EffectiveValue(cfg, p, b);
    var released :- Weigh(amount, w);
    var required :- RequiredChecked(debt, cfg.minRatioBps);
    :- Need(effective - released >= required, CollateralRatioBelowMinimum);
    Ok(())
  }

  function Step(cfg: Config, ids: seq<Address>, debts: map<Address, int>, p: Pool, op: Op): Result<Pool> {
    var debt := if op.b in debts then debts[op.b] else 0;
    :- Need(op.amount > 0, InvalidAmount);
    match op
    case Deposit(b, amount) =>
      :- Need(cfg.collateralToken.Some?, MissingLiquidityToken);
      var balance :- CheckedI128(Legacy(p, b) + amount);
      SetLegacy(p, ids, b, balance)
    case Withdraw(b, amount) =>
      :- Need(amount <= Legacy(p, b), InsufficientCollateralBalance);
      var _ :- if debt > 0 then Guard(cfg, p, b, debt, amount, LegacyWeight(cfg)) else Ok(());
      :- Need(cfg.collateralToken.Some?, MissingLiquidityToken);
      SetLegacy(p, ids, b, Legacy(p, b) - amount)
    case PartialRelease(b, amount) =>
      :- Need(amount <= Legacy(p, b), InsufficientCollateralBalance);
      var effective :- EffectiveValue(cfg, p, b);
      var released :- Weigh(amount, LegacyWeight(cfg));
      var _ :- if debt > 0 then Guard(cfg, p, b, debt, amount, LegacyWeight(cfg)) else Ok(());
      :- Need(cfg.collateralToken.Some?, MissingLiquidityToken);
      SetLegacy(p, ids, b, Legacy(p, b) - amount)
    case DepositToken(b, t, amount) =>
      :- Need(t in cfg.allowlist, MissingLiquidityToken);
      var balance :- CheckedI128(Held(p, b, t) + amount);
      Ok(p.(tokens := p.tokens[(b, t) := balance]))
    case WithdrawToken(b, t, amount) =>
      :- Need(t in cfg.allowlist, MissingLiquidityToken);
      :- Need(amount <= Held(p, b, t), InsufficientCollateralBalance);
      var _ :- if debt > 0 then Guard(cfg, p, b, debt, amount, WeightOf(cfg, t)) else Ok(());
      Ok(p.(tokens := p.tokens[(b, t) := Held(p, b, t) - amount]))
  }

  /** A reverted call leaves the pool as it was. */
  function Run(cfg: Config, ids: seq<Address>, debts: map<Address, int>, p: Pool, ops: seq<Op>): Pool {
    if |ops| == 0 then p
    else
      var before := Run(cfg, ids, debts, p, ops[..|ops| - 1]);
      var r := Step(cfg, ids, debts, before, ops[|ops| - 1]);
      if r.Ok? then r.value else before
  }

  // ---- The slack ----------------------------------------------------------

  lemma SumIsFloor(cfg: Config, p: Pool, b: Address, s: seq<Token>)
    ensures 10_000 * SumOf(TokenValue(cfg, p, b), s) <= SumOf(TokenExact(cfg, p, b), s)
    ensures (forall t :: t in s ==> WeightOf(cfg, t) >= 10_000)
              ==> 10_000 * SumOf(TokenValue(cfg, p, b), s) == SumOf(TokenExact(cfg, p, b), s)
  {
    if |s| > 0 {
      var t := s[|s| - 1];
      SumIsFloor(cfg, p, b, s[..|s| - 1]);
      ValueIsFloor(Held(p, b, t), WeightOf(cfg, t));
    }
  }

  ghost predicate FullWeight(cfg: Config) {
    LegacyWeight(cfg) >= 10_000 && forall t :: t in cfg.allowlist ==> WeightOf(cfg, t) >= 10_000
  }

  lemma EffectiveIsFloor(cfg: Config, p: Pool, b: Address)
    ensures 10_000 * Effective(cfg, p, b) <= Backing(cfg, p, b)
    ensures FullWeight(cfg) ==> 10_000 * Effective(cfg, p, b) == Backing(cfg, p, b)
  {
    ValueIsFloor(Legacy(p, b), LegacyWeight(cfg));
    SumIsFloor(cfg, p, b, cfg.allowlist);
  }

  /** Balances never go negative and the total is the sum over the indexed
      borrowers, who own every legacy balance there is. */
  ghost predicate PoolSound(p: Pool, ids: seq<Address>) {
    && Distinct(ids)
    && p.total == SumOf(SumLegacy(p), ids)
    && (forall b :: 0 <= Legacy(p, b) && (b !in ids ==> Legacy(p, b) == 0))
    && (forall k :: k in p.tokens ==> 0 <= p.tokens[k])
  }

  /** The effect of a step on one borrower: `key` is the slot it touches. */
  datatype Slot = LegacySlot | TokenSlot(t: Token)

  function SlotOf(op: Op): Slot {
    if op.DepositToken? || op.WithdrawToken? then TokenSlot(op.token) else LegacySlot
  }

  function Balance(p: Pool, b: Address, slot: Slot): int {
    if slot.LegacySlot? then Legacy(p, b) else Held(p, b, slot.t)
  }

  function SlotWeight(cfg: Config, slot: Slot): u32 {
    if slot.LegacySlot? then LegacyWeight(cfg) else WeightOf(cfg, slot.t)
  }

  function Signed(op: Op): int {
    if op.Deposit? || op.DepositToken? then op.amount else -op.amount
  }

  /** A successful step changes the acting borrower's slot by the amount, and
      nothing else. */
  lemma StepMovesOneBalance(cfg: Config, ids: seq<Address>, debts: map<Address, int>, p: Pool, op: Op)
    requires Step(cfg, ids, debts, p, op).Ok?
    ensures var q := Step(cfg, ids, debts, p, op).value;
      && Balance(q, op.b, SlotOf(op)) == Balance(p, op.b, SlotOf(op)) + Signed(op)
      && (forall b, slot :: (b != op.b || slot != SlotOf(op)) ==> Balance(q, b, slot) == Balance(p, b, slot))
      && op.amount > 0 && (SlotOf(op).TokenSlot? ==> SlotOf(op).t in cfg.allowlist)
      && (Signed(op) < 0 ==> op.amount <= Balance(p, op.b, SlotOf(op)))
  {
  }

  lemma StepKeepsPool(cfg: Config, ids: seq<Address>, debts: map<Address, int>, p: Pool, op: Op)
    requires PoolSound(p, ids) && Step(cfg, ids, debts, p, op).Ok?
    ensures PoolSound(Step(cfg, ids, debts, p, op).value, ids)
    ensures op.Deposit? ==> op.b in ids
  {
    var q := Step(cfg, ids, debts, p, op).value;
    StepMovesOneBalance(cfg, ids, debts, p, op);
    SumOfOneChange(SumLegacy(p), SumLegacy(q), ids, op.b);
    forall b
      ensures 0 <= Legacy(q, b) && (b !in ids ==> Legacy(q, b) == 0)
    {
      assert Balance(q, b, LegacySlot) == Legacy(q, b) && Balance(p, b, LegacySlot) == Legacy(p, b);
    }
    forall k | k in q.tokens
      ensures 0 <= q.tokens[k]
    {
      assert Balance(q, k.0, TokenSlot(k.1)) == q.tokens[k] && Balance(p, k.0, TokenSlot(k.1)) == Held(p, k.0, k.1);
    }
  }

  function SlotValue(cfg: Config, p: Pool, b: Address, slot: Slot): int {
    Value(Balance(p, b, slot), SlotWeight(cfg, slot))
  }

  function SlotExact(cfg: Config, p: Pool, b: Address, slot: Slot): int {
    Exact(Balance(p, b, slot), SlotWeight(cfg, slot))
  }

  lemma TokensUnchanged(cfg: Config, p: Pool, q: Pool, b: Address, s: seq<Token>)
    requires forall t :: t in s ==> Held(p, b, t) == Held(q, b, t)
    ensures SumOf(TokenValue(cfg, p, b), s) == SumOf(TokenValue(cfg, q, b), s)
    ensures SumOf(TokenExact(cfg, p, b), s) == SumOf(TokenExact(cfg, q, b), s)
  {
    SumOfMono(TokenValue(cfg, p, b), TokenValue(cfg, q, b), s);
    SumOfMono(TokenValue(cfg, q, b), TokenValue(cfg, p, b), s);
    SumOfMono(TokenExact(cfg, p, b), TokenExact(cfg, q, b), s);
    SumOfMono(TokenExact(cfg, q, b), TokenExact(cfg, p, b), s);
  }

  /** When one slot of a borrower changes, both valuations change by that slot. */
  lemma SlotChange(cfg: Config, p: Pool, q: Pool, b: Address, slot: Slot)
    requires Distinct(cfg.allowlist) && (slot.TokenSlot? ==> slot.t in cfg.allowlist)
    requires forall other :: other != slot ==> Balance(q, b, other) == Balance(p, b, other)
    ensures Effective(cfg, q, b) - Effective(cfg, p, b) == SlotValue(cfg, q, b, slot) - SlotValue(cfg, p, b, slot)
    ensures Backing(cfg, q, b) - Backing(cfg, p, b) == SlotExact(cfg, q, b, slot) - SlotExact(cfg, p, b, slot)
  {
    forall t | slot != TokenSlot(t)
      ensures Held(p, b, t) == Held(q, b, t)
    {
      assert Balance(q, b, TokenSlot(t)) == Balance(p, b, TokenSlot(t));
    }
    if slot.LegacySlot? {
      TokensUnchanged(cfg, p, q, b, cfg.allowlist);
    } else {
      assert Balance(q, b, LegacySlot) == Balance(p, b, LegacySlot);
      SumOfOneChange(TokenValue(cfg, p, b), TokenValue(cfg, q, b), cfg.allowlist, slot.t);
      SumOfOneChange(TokenExact(cfg, p, b), TokenExact(cfg, q, b), cfg.allowlist, slot.t);
    }
  }

  predicate Releases(op: Op) {
    op.Withdraw? || op.PartialRelease? || op.WithdrawToken?
  }

  function DebtOf(debts: map<Address, int>, b: Address): int {
    if b in debts then debts[b] else 0
  }

  lemma GuardHeld(cfg: Config, ids: seq<Address>, debts: map<Address, int>, p: Pool, op: Op)
    requires Releases(op) && DebtOf(debts, op.b) > 0 && Step(cfg, ids, debts, p, op).Ok?
    ensures Required(DebtOf(debts, op.b), cfg.minRatioBps)
         <= Effective(cfg, p, op.b) - Value(op.amount, SlotWeight(cfg, SlotOf(op)))
  {
  }

  /** A release that the guard admits: the credited value afterwards is what the
      guard saw, less the carry; so the position is still covered exactly when
      the guard had a margin of at least the carry.  The true value never falls
      to `required - 1`, and with full weights it never falls below `required`. */
  lemma ReleaseSlack(cfg: Config, ids: seq<Address>, debts: map<Address, int>, p: Pool, op: Op)
    requires PoolSound(p, ids) && Distinct(cfg.allowlist)
    requires Releases(op) && DebtOf(debts, op.b) > 0 && Step(cfg, ids, debts, p, op).Ok?
    ensures var q, w := Step(cfg, ids, debts, p, op).value, SlotWeight(cfg, SlotOf(op));
      var required := Required(DebtOf(debts, op.b), cfg.minRatioBps);
      var seen := Effective(cfg, p, op.b) - Value(op.amount, w);
      var carry := if Carries(op.amount, Balance(p, op.b, SlotOf(op)) - op.amount, w) then 1 else 0;
      && Effective(cfg, q, op.b) == seen - carry
      && (Effective(cfg, q, op.b) >= required <==> seen >= required + carry)
      && 10_000 * (required - 1) < Backing(cfg, q, op.b)
      && (FullWeight(cfg) ==> 10_000 * required <= Backing(cfg, q, op.b))
  {
    var q, slot := Step(cfg, ids, debts, p, op).value, SlotOf(op);
    var w := SlotWeight(cfg, slot);
    StepMovesOneBalance(cfg, ids, debts, p, op);
    GuardHeld(cfg, ids, debts, p, op);
    SlotChange(cfg, p, q, op.b, slot);
    SplitValue(op.amount, Balance(q, op.b, slot), w);
    ValueIsFloor(op.amount, w);
    EffectiveIsFloor(cfg, p, op.b);
  }

  predicate IsCovered(cfg: Config, p: Pool, b: Address, owed: int) {
    Required(owed, cfg.minRatioBps) <= Effective(cfg, p, b)
  }

  /** The guard of a release has the margin for `owed`, and a unit for the carry. */
  predicate HasMargin(cfg: Config, p: Pool, op: Op, owed: int) {
    var weight := SlotWeight(cfg, SlotOf(op));
    var carry := if Carries(op.amount, Balance(p, op.b, SlotOf(op)) - op.amount, weight) then 1 else 0;
    Required(owed, cfg.minRatioBps) + carry <= Effective(cfg, p, op.b) - Value(op.amount, weight)
  }

  /** What a release leaves is what its guard saw, less the carry. */
  predicate LeavesSeen(cfg: Config, p: Pool, op: Op, q: Pool) {
    var weight := SlotWeight(cfg, SlotOf(op));
    var carry := if Carries(op.amount, Balance(p, op.b, SlotOf(op)) - op.amount, weight) then 1 else 0;
    Effective(cfg, q, op.b) == Effective(cfg, p, op.b) - Value(op.amount, weight) - carry
  }

  lemma ReleaseLeavesSeen(cfg: Config, ids: seq<Address>, debts: map<Address, int>, p: Pool, op: Op, q: Pool)
    requires PoolSound(p, ids) && Distinct(cfg.allowlist) && Releases(op) && Step(cfg, ids, debts, p, op) == Ok(q)
    requires 0 < DebtOf(debts, op.b)
    ensures LeavesSeen(cfg, p, op, q)
    ensures Required(DebtOf(debts, op.b), cfg.minRatioBps) - 1 <= Effective(cfg, q, op.b)
  {
    ReleaseSlack(cfg, ids, debts, p, op);
    GuardHeld(cfg, ids, debts, p, op);
  }

  /** A release judged by a debt that has grown since it was stored: the position is
      covered for it if and only if the guard had the margin; for the stored debt it
      is never more than a unit short. */
  lemma ReleaseCoversIff(cfg: Config, ids: seq<Address>, debts: map<Address, int>, p: Pool, op: Op, q: Pool, owed: int)
    requires PoolSound(p, ids) && Distinct(cfg.allowlist) && Releases(op) && Step(cfg, ids, debts, p, op) == Ok(q)
    requires 0 < DebtOf(debts, op.b) <= owed
    ensures IsCovered(cfg, q, op.b, owed) <==> HasMargin(cfg, p, op, owed)
    ensures Required(DebtOf(debts, op.b), cfg.minRatioBps) - 1 <= Effective(cfg, q, op.b)
  {
    ReleaseLeavesSeen(cfg, ids, debts, p, op, q);
  }

  lemma HalfValue(x: int)
    requires 0 < x
    ensures Value(x, 5_000) == x / 2
  {
    DivMod(x, 2);
    DivUnique(x * 5_000, 10_000, x / 2);
  }

  lemma OneLegacy(cfg: Config, p: Pool)
    requires cfg.allowlist == []
    ensures Effective(cfg, p, 1) == Value(Legacy(p, 1), LegacyWeight(cfg))
  {
  }

  lemma ParityRequired(n: int)
    requires 0 < n
    ensures Required(n, 10_000) == n
  {
    DivUnique(n * 10_000, 10_000, n);
  }

  /** `withdraw_collateral` can leave a position one unit short of its floor,
      whatever its size: at weight 50 % and a debt of `n`, `2 * n` units cover it
      exactly, and giving one of them up passes the guard. */
  lemma WithdrawalCanUndercut(n: int)
    requires 0 < n && InI128(n * 10_000)
    ensures var cfg := Config(Some(7), [], map[7 := 5_000], 10_000);
      var p := Pool(map[1 := 2 * n], map[], 2 * n);
      var r := Step(cfg, [1], map[1 := n], p, Withdraw(1, 1));
      && PoolSound(p, [1]) && Effective(cfg, p, 1) == Required(n, 10_000)
      && r.Ok? && Effective(cfg, r.value, 1) == Required(n, 10_000) - 1
  {
    var cfg := Config(Some(7), [], map[7 := 5_000], 10_000);
    var p := Pool(map[1 := 2 * n], map[], 2 * n);
    var q := Pool(map[1 := 2 * n - 1], map[], 2 * n - 1);
    LoneBorrower(p);
    LoneBorrower(q);
    assert p.legacy[1 := 2 * n - 1] == q.legacy;
    assert SetLegacy(p, [1], 1, 2 * n - 1) == Ok(q);
    OneLegacy(cfg, p);
    OneLegacy(cfg, q);
    HalfValue(2 * n);
    HalfValue(2 * n - 1);
    HalfValue(1);
    ParityRequired(n);
    assert Guard(cfg, p, 1, n, 1, 5_000) == Ok(());
  }

  lemma LoneBorrower(p: Pool)
    requires InI128(Legacy(p, 1)) && p.total == Legacy(p, 1)
    ensures SumOf(SumLegacy(p), [1]) == Legacy(p, 1) && TotalConserved(p, [1])
  {
    assert [1][..0] == [] && [1][..1] == [1];
    SumOfAppend(SumLegacy(p), [], 1);
  }

  /** Over any run of deposits, withdrawals and releases with fixed debts and
      configuration, the one-unit slack never accumulates, and without risk
      discounts there is none. */
  lemma {:induction false} SlackNeverAccumulates(
      cfg: Config, ids: seq<Address>, debts: map<Address, int>, p: Pool, ops: seq<Op>, b: Address)
    requires PoolSound(p, ids) && Distinct(cfg.allowlist) && DebtOf(debts, b) > 0
    requires 10_000 * (Required(DebtOf(debts, b), cfg.minRatioBps) - 1) < Backing(cfg, p, b)
    ensures PoolSound(Run(cfg, ids, debts, p, ops), ids)
    ensures 10_000 * (Required(DebtOf(debts, b), cfg.minRatioBps) - 1) < Backing(cfg, Run(cfg, ids, debts, p, ops), b)
    ensures FullWeight(cfg) && 10_000 * Required(DebtOf(debts, b), cfg.minRatioBps) <= Backing(cfg, p, b)
      ==> 10_000 * Required(DebtOf(debts, b), cfg.minRatioBps) <= Backing(cfg, Run(cfg, ids, debts, p, ops), b)
  {
    if |ops| > 0 {
      var prefix, op := ops[..|ops| - 1], ops[|ops| - 1];
      SlackNeverAccumulates(cfg, ids, debts, p, prefix, b);
      var before := Run(cfg, ids, debts, p, prefix);
      if Step(cfg, ids, debts, before, op).Ok? {
        StepKeepsPool(cfg, ids, debts, before, op);
        StepKeepsFloor(cfg, ids, debts, before, op, b);
      }
    }
  }

  lemma StepKeepsFloor(cfg: Config, ids: seq<Address>, debts: map<Address, int>, p: Pool, op: Op, b: Address)
    requires PoolSound(p, ids) && Distinct(cfg.allowlist) && DebtOf(debts, b) > 0
    requires Step(cfg, ids, debts, p, op).Ok?
    ensures var q, required := Step(cfg, ids, debts, p, op).value, Required(DebtOf(debts, b), cfg.minRatioBps);
      || Backing(cfg, p, b) <= Backing(cfg, q, b)
      || (10_000 * (required - 1) < Backing(cfg, q, b)
          && (FullWeight(cfg) ==> 10_000 * required <= Backing(cfg, q, b)))
  {
    var q, slot := Step(cfg, ids, debts, p, op).value, SlotOf(op);
    StepMovesOneBalance(cfg, ids, debts, p, op);
    if b == op.b && Releases(op) {
      ReleaseSlack(cfg, ids, debts, p, op);
    } else if b == op.b {
      SlotChange(cfg, p, q, b, slot);
      SplitValue(op.amount, Balance(p, b, slot), SlotWeight(cfg, slot));
      ValueIsFloor(op.amount, SlotWeight(cfg, slot));
    } else {
      SlotChange(cfg, p, q, b, LegacySlot);
    }
  }

  // ---- Health factors -----------------------------------------------------

  /** `checked_mul(10_000).unwrap_or(u128::MAX) / required`, clamped to `u32`. */
  function ScaledRatio(collateral: int, required: int): int
    requires 0 < required
  {
    Min((if collateral * 10_000 > U128_MAX then U128_MAX else collateral * 10_000) / required, U32_MAX)
  }

  /** `get_health_factor`, for the borrower's debt and effective collateral. */
  function HealthFactor(debt: int, ratio: u32, collateral: int): Result<int> {
    if debt <= 0 || ratio == 0 then Ok(U32_MAX)
    else
      var required :- RequiredChecked(debt, ratio);
      Ok(if required <= 0 then U32_MAX else ScaledRatio(Max(collateral, 0), required))
  }

  /** Where a scaled ratio lies, for every requirement that can be computed: the
      saturating branch is only reached far above it. */
  lemma ScaledRatioMeaning(collateral: nat, required: int)
    requires 0 < required && 10_000 * (required - 1) < I128_MAX
    ensures ScaledRatio(collateral, required) < 10_000 <==> collateral < required
    ensures ScaledRatio(collateral, required) > 10_000 <==> (collateral - required) * 10_000 >= required
  {
    var x := if collateral * 10_000 > U128_MAX then U128_MAX else collateral * 10_000;
    DivMod(x, required);
    if x / required >= 10_000 {
      MulMono(10_000, x / required, required);
    } else {
      MulMono(x / required + 1, 10_000, required);
    }
    if x / required >= 10_001 {
      MulMono(10_001, x / required, required);
    } else {
      MulMono(x / required + 1, 10_001, required);
    }
  }

  /** The documentation reads the factor as an exact comparison of collateral and
      requirement.  It is one for `< 10_000`; but equality and `> 10_000` only tell
      the surplus up to one ten-thousandth of the requirement.  Without an overflow
      of the requirement this holds of every debt, ratio and collateral. */
  lemma HealthFactorMeaning(debt: int, ratio: u32, collateral: nat)
    requires 0 < debt && 0 < ratio
    ensures HealthFactor(debt, ratio, collateral).Ok? <==> InI128(debt * ratio)
    ensures HealthFactor(debt, ratio, collateral).Ok? ==>
      var factor, required := HealthFactor(debt, ratio, collateral).value, Required(debt, ratio);
      && (factor < 10_000 <==> collateral < required)
      && (factor == 10_000 <==> collateral >= required && (collateral - required) * 10_000 < required)
      && (factor > 10_000 <==> (collateral - required) * 10_000 >= required)
  {
    var required := Required(debt, ratio);
    RequiredIsCeiling(debt, ratio);
    MulMono(1, debt, ratio);
    if InI128(debt * ratio) {
      ScaledRatioMeaning(collateral, required);
    }
  }

  /** The reported factor is exactly 10_000 although there is a surplus. */
  lemma HealthFactorHidesSurplus()
    ensures HealthFactor(20_000, 10_000, 20_001) == Ok(10_000) && Required(20_000, 10_000) == 20_000
  {
  }

  // ---- The stored pool ----------------------------------------------------

  class CollateralStore {
    var legacy: map<Address, int>
    var tokens: map<(Address, Token), int>
    var total: int

    function Snapshot(): Pool
      reads this
    {
      Pool(legacy, tokens, total)
    }

    constructor ()
      ensures Snapshot() == Pool(map[], map[], 0)
    {
      legacy, tokens, total := map[], map[], 0;
    }

    /** The accumulation loop of `effective_collateral_value`. */
    method EffectiveCollateralValue(cfg: Config, b: Address) returns (r: Result<int>)
      ensures r == EffectiveValue(cfg, Snapshot(), b)
    {
      r := Weigh(Legacy(Snapshot(), b), LegacyWeight(cfg));
      for i := 0 to |cfg.allowlist|
        invariant r == EffectiveChecked(cfg, Snapshot(), b, i)
      {
        if r.Ok? {
          var t := cfg.allowlist[i];
          var balance := Held(Snapshot(), b, t);
          if balance > 0 {
            var v := Weigh(balance, WeightOf(cfg, t));
            r := if v.Err? then v else CheckedI128(r.value + v.value);
          }
        }
      }
    }

    /** The ratio guard of the releasing entrypoints; no debt, no floor. */
    method RequireFloor(cfg: Config, b: Address, debt: int, amount: int, w: u32) returns (r: Result<()>)
      ensures r == if debt > 0 then Guard(cfg, Snapshot(), b, debt, amount, w) else Ok(())
    {
      if debt <= 0 {
        return Ok(());
      }
      var effective := EffectiveCollateralValue(cfg, b);
      if effective.Err? {
        return Err(effective.error);
      }
      var released := Weigh(amount, w);
      if released.Err? {
        return Err(released.error);
      }
      var required := RequiredChecked(debt, cfg.minRatioBps);
      if required.Err? {
        return Err(required.error);
      }
      if effective.value - released.value < required.value {
        return Err(CollateralRatioBelowMinimum);
      }
      r := Ok(());
    }

    /** `assert_total_collateral_conserved`. */
    method RecheckTotal(ids: seq<Address>) returns (ok: bool)
      ensures ok == TotalConserved(Snapshot(), ids)
    {
      var recomputed := 0;
      for i := 0 to |ids|
        invariant recomputed == SumOf(SumLegacy(Snapshot()), ids[..i])
        invariant forall k :: 0 <= k <= i ==> InI128(SumOf(SumLegacy(Snapshot()), ids[..k]))
      {
        assert ids[..i + 1] == ids[..i] + [ids[i]];
        SumOfAppend(SumLegacy(Snapshot()), ids[..i], ids[i]);
        recomputed := recomputed + Legacy(Snapshot(), ids[i]);
        if !InI128(recomputed) {
          return false;
        }
      }
      assert ids[..|ids|] == ids;
      ok := recomputed == total;
    }

    /** `set_collateral_balance`; the host rolls storage back when it reverts. */
    method SetLegacyBalance(ids: seq<Address>, b: Address, balance: int) returns (r: Result<()>)
      modifies this
      ensures match SetLegacy(old(Snapshot()), ids, b, balance)
        case Ok(p) => r.Ok? && Snapshot() == p
        case Err(e) => r == Err(e) && Snapshot() == old(Snapshot())
    {
      var savedLegacy, savedTotal := legacy, total;
      var delta := balance - (if b in legacy then legacy[b] else 0);
      if !InI128(delta) {
        return Err(Overflow);
      }
      legacy := legacy[b := balance];
      if delta == 0 {
        return Ok(());
      }
      if !InI128(total + delta) {
        legacy := savedLegacy;
        return Err(Overflow);
      }
      total := total + delta;
      var ok := RecheckTotal(ids);
      if !ok {
        legacy, total := savedLegacy, savedTotal;
        return Err(Panic);
      }
      r := Ok(());
    }

    method DepositCollateral(cfg: Config, ids: seq<Address>, debts: map<Address, int>, b: Address, amount: int)
      returns (r: Result<()>)
      modifies this
      ensures match Step(cfg, ids, debts, old(Snapshot()), Deposit(b, amount))
        case Ok(p) => r.Ok? && Snapshot() == p
        case Err(e) => r == Err(e) && Snapshot() == old(Snapshot())
    {
      if amount <= 0 {
        return Err(InvalidAmount);
      }
      if cfg.collateralToken.None? {
        return Err(MissingLiquidityToken);
      }
      var balance := (if b in legacy then legacy[b] else 0) + amount;
      if !InI128(balance) {
        return Err(Overflow);
      }
      r := SetLegacyBalance(ids, b, balance);
    }

    method WithdrawCollateral(cfg: Config, ids: seq<Address>, debts: map<Address, int>, b: Address, amount: int)
      returns (r: Result<()>)
      modifies this
      ensures match Step(cfg, ids, debts, old(Snapshot()), Withdraw(b, amount))
        case Ok(p) => r.Ok? && Snapshot() == p
        case Err(e) => r == Err(e) && Snapshot() == old(Snapshot())
    {
      if amount <= 0 {
        return Err(InvalidAmount);
      }
      var current := if b in legacy then legacy[b] else 0;
      if amount > current {
        return Err(InsufficientCollateralBalance);
      }
      r := RequireFloor(cfg, b, if b in debts then debts[b] else 0, amount, LegacyWeight(cfg));
      if r.Err? {
        return;
      }
      if cfg.collateralToken.None? {
        return Err(MissingLiquidityToken);
      }
      r := SetLegacyBalance(ids, b, current - amount);
    }

    method PartialReleaseCollateral(cfg: Config, ids: seq<Address>, debts: map<Address, int>, b: Address, amount: int)
      returns (r: Result<()>)
      modifies this
      ensures match Step(cfg, ids, debts, old(Snapshot()), PartialRelease(b, amount))
        case Ok(p) => r.Ok? && Snapshot() == p
        case Err(e) => r == Err(e) && Snapshot() == old(Snapshot())
    {
      if amount <= 0 {
        return Err(InvalidAmount);
      }
      var current := if b in legacy then legacy[b] else 0;
      if amount > current {
        return Err(InsufficientCollateralBalance);
      }
      var effective := EffectiveCollateralValue(cfg, b);
      if effective.Err? {
        return Err(effective.error);
      }
      var released := Weigh(amount, LegacyWeight(cfg));
      if released.Err? {
        return Err(released.error);
      }
      r := RequireFloor(cfg, b, if b in debts then debts[b] else 0, amount, LegacyWeight(cfg));
      if r.Err? {
        return;
      }
      if cfg.collateralToken.None? {
        return Err(MissingLiquidityToken);
      }
      r := SetLegacyBalance(ids, b, current - amount);
    }

    method DepositCollateralToken(cfg: Config, ids: seq<Address>, debts: map<Address, int>, b: Address, t: Token, amount: int)
      returns (r: Result<()>)
      modifies this
      ensures match Step(cfg, ids, debts, old(Snapshot()), DepositToken(b, t, amount))
        case Ok(p) => r.Ok? && Snapshot() == p
        case Err(e) => r == Err(e) && Snapshot() == old(Snapshot())
    {
      if amount <= 0 {
        return Err(InvalidAmount);
      }
      if t !in cfg.allowlist {
        return Err(MissingLiquidityToken);
      }
      var balance := Held(Snapshot(), b, t) + amount;
      if !InI128(balance) {
        return Err(Overflow);
      }
      tokens := tokens[(b, t) := balance];
      r := Ok(());
    }

    method WithdrawCollateralToken(cfg: Config, ids: seq<Address>, debts: map<Address, int>, b: Address, t: Token, amount: int)
      returns (r: Result<()>)
      modifies this
      ensures match Step(cfg, ids, debts, old(Snapshot()), WithdrawToken(b, t, amount))
        case Ok(p) => r.Ok? && Snapshot() == p
        case Err(e) => r == Err(e) && Snapshot() == old(Snapshot())
    {
      if amount <= 0 {
        return Err(InvalidAmount);
      }
      if t !in cfg.allowlist {
        return Err(MissingLiquidityToken);
      }
      var current := Held(Snapshot(), b, t);
      if amount > current {
        return Err(InsufficientCollateralBalance);
      }
      r := RequireFloor(cfg, b, if b in debts then debts[b] else 0, amount, WeightOf(cfg, t));
      if r.Err? {
        return;
      }
      tokens := tokens[(b, t) := current - amount];
      r := Ok(());
    }
  }
}
