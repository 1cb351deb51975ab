/** The contract's own token balance against everything it holds for others: fees,
    collateral, and by default also the liquidity draws are paid from. */
module Custody {
  import opened Prelude
  import opened Sums
  import opened Accrual
  import opened Fees
  import opened Ledger
  import opened LedgerInvariants
  import opened LedgerFunds
  import LedgerLoops
  import C = Collateral

  /** The whole contract: the ledger with its token balances, and the collateral. */
  datatype World = World(ledger: State, pool: C.Pool)

  /** A ledger call, with the collateral configuration a draw reads, or a
      collateral call. */
  datatype Move = Credit(call: Call, pledge: C.Config) | Pledge(op: C.Op, pledge: C.Config)

  /** The debts the collateral entrypoints read. */
  function StoredDebts(s: State): map<Address, int> {
    map b | b in s.book.lines :: s.book.lines[b].utilized
  }

  /** A draw sees the borrower's effective collateral, no other value. */
  function Priced(w: World, call: Call, pledge: C.Config): Result<Call> {
    if call.op.DrawCredit? then
      var value :- C.EffectiveValue(pledge, w.pool, call.op.b);
      Ok(call.(op := call.op.(collateral := value)))
    else Ok(call)
  }

  /** The liquidity tokens a collateral call moves into custody; a per-token call
      on another token moves none. */
  function TokensIn(token: C.Token, op: C.Op): int {
    if C.SlotOf(op).TokenSlot? && op.token != token then 0 else C.Signed(op)
  }

  /** One call; `token` is the liquidity token, which is also the collateral token. */
  function WorldStep(token: C.Token, w: World, move: Move): Result<World> {
    match move
    case Credit(call, pledge) =>
      var priced :- Priced(w, call, pledge);
      var ledger :- Step(w.ledger, priced);
      Ok(World(ledger, w.pool))
    case Pledge(op, pledge) =>
      var pool :- C.Step(pledge, w.ledger.book.ids, StoredDebts(w.ledger), w.pool, op);
      var balance := w.ledger.custody + TokensIn(token, op);
      :- Need(TokensIn(token, op) >= 0 || balance >= 0, TokenTransferFailed);
      Ok(World(w.ledger.(custody := balance), pool))
  }

  function WorldApply(token: C.Token, w: World, move: Move): World {
    var r := WorldStep(token, w, move);
    if r.Ok? then r.value else w
  }

  function WorldRun(token: C.Token, w: World, moves: seq<Move>): World {
    if |moves| == 0 then w
    else WorldApply(token, WorldRun(token, w, moves[..|moves| - 1]), moves[|moves| - 1])
  }

  /** A contract just deployed: no lines, no fees, no collateral. */
  ghost predicate Launched(w: World, custody: int) {
    Accounting(w.ledger) && Untouched(w.ledger, w.pool, custody)
  }

  predicate Untouched(s: State, p: C.Pool, custody: int) {
    && s.book.ids == [] && s.custody == custody
    && s.vault.collected == 0 && Spent(s.vault) == 0
    && p.legacy == map[] && p.tokens == map[] && p.total == 0
  }

  lemma GenesisIsUntouched(reserve: int, custody: int)
    ensures Untouched(Genesis(reserve, custody), C.Pool(map[], map[], 0), custody)
  {
  }

  lemma GenesisIsLaunched(reserve: int, custody: int, w: World)
    requires w.ledger == Genesis(reserve, custody) && w.pool == C.Pool(map[], map[], 0)
    ensures Launched(w, custody)
  {
    GenesisIsSound(reserve, custody);
    GenesisIsUntouched(reserve, custody);
  }

  // ---- Collateral kept in the liquidity token -----------------------------

  function TokensOf(token: C.Token, tokens: map<(Address, C.Token), int>): map<(Address, C.Token), int> {
    map k | k in tokens && k.1 == token :: tokens[k]
  }

  /** What the per-token entrypoints hold of the liquidity token. */
  ghost function HeldIn(token: C.Token, p: C.Pool): int {
    MapSum(TokensOf(token, p.tokens))
  }

  lemma HeldInMoves(token: C.Token, p: C.Pool, q: C.Pool, b: Address, t: C.Token, balance: int)
    requires q.tokens == p.tokens[(b, t) := balance]
    ensures HeldIn(token, q) == HeldIn(token, p) + if t == token then balance - C.Held(p, b, t) else 0
  {
    if t == token {
      MapSumUpdate(TokensOf(token, p.tokens), (b, t), balance);
      assert TokensOf(token, q.tokens) == TokensOf(token, p.tokens)[(b, t) := balance];
    } else {
      assert TokensOf(token, q.tokens) == TokensOf(token, p.tokens);
    }
  }

  // ---- The custody equation -----------------------------------------------

  /** The documented equation, for an external liquidity source. */
  predicate CustodyEquation(w: World) {
    w.ledger.custody >= w.ledger.vault.treasury + w.ledger.vault.bounty + w.pool.total
  }

  /** Custody beyond the fee accumulators and all collateral in the same token. */
  ghost function Surplus(token: C.Token, w: World): int {
    Unpledged(w.ledger) - w.pool.total - HeldIn(token, w.pool)
  }

  /** The aggregates of both halves are exact, over the same index. */
  ghost predicate WorldSound(w: World) {
    Accounting(w.ledger) && C.PoolSound(w.pool, w.ledger.book.ids) && 0 <= w.ledger.custody
  }

  lemma PoolStepMoves(token: C.Token, pledge: C.Config, ids: seq<Address>, debts: map<Address, int>, p: C.Pool, op: C.Op)
    requires C.Step(pledge, ids, debts, p, op).Ok?
    ensures var q := C.Step(pledge, ids, debts, p, op).value;
      q.total + HeldIn(token, q) == p.total + HeldIn(token, p) + TokensIn(token, op)
  {
    var q := C.Step(pledge, ids, debts, p, op).value;
    if C.SlotOf(op).TokenSlot? {
      HeldInMoves(token, p, q, op.b, op.token, C.Held(p, op.b, op.token) + C.Signed(op));
    }
  }

  predicate DrawsFromCustody(move: Move) {
    move.Credit? && move.call.op.DrawCredit? && move.call.cfg.selfSourced
  }

  /** What one call does to the surplus: nothing, except that a self-sourced draw
      takes its amount from it and a self-sourced repayment adds to it. */
  lemma WorldStepMovesSurplus(token: C.Token, w: World, move: Move)
    ensures WorldStep(token, w, move).Ok? ==>
      var q := WorldStep(token, w, move).value;
      && (move.Pledge? || !move.call.cfg.selfSourced ==> Surplus(token, q) == Surplus(token, w))
      && (DrawsFromCustody(move) ==> Surplus(token, q) == Surplus(token, w) - move.call.op.amount)
      && (move.Credit? && !move.call.op.DrawCredit? ==> Surplus(token, w) <= Surplus(token, q))
      && (0 <= w.ledger.custody ==> 0 <= q.ledger.custody)
  {
    if WorldStep(token, w, move).Ok? {
      match move
      case Credit(call, pledge) =>
        var flow := StepMovesFunds(w.ledger, Priced(w, call, pledge).value);
      case Pledge(op, pledge) =>
        PoolStepMoves(token, pledge, w.ledger.book.ids, StoredDebts(w.ledger), w.pool, op);
    }
  }

  // ---- Soundness of the whole ---------------------------------------------

  lemma WrittenIndex(k: Book, b: Address, line: Line, previousUtilized: int, previousStatus: Option<Status>)
    requires Persist(k, b, line, previousUtilized, previousStatus).Ok?
    ensures Persist(k, b, line, previousUtilized, previousStatus).value.ids == if b in k.ids then k.ids else k.ids + [b]
  {
  }

  lemma LineOpKeepsIndex(s: State, call: Call, read: Result<Line>)
    requires Indexed(s.book) && IsLineOp(call.op) && IsCurrent(s, call.op.b, read) && LineStep(s, call, read).Ok?
    ensures LineStep(s, call, read).value.book.ids == s.book.ids
  {
    var b, line := call.op.b, read.value;
    LineStepShape(s, call, read);
    WrittenIndex(s.book.(pendingAuctions := Auctions(s.book.pendingAuctions, call, line.status, Next(call, line).status)),
                 b, Next(call, line), s.book.lines[b].utilized, Some(line.status));
  }

  lemma RepayKeepsIndex(s: State, cfg: Config, b: Address, cur: Result<Line>, amount: int, now: u64)
    requires Indexed(s.book) && IsCurrent(s, b, cur) && Repay(s, cfg, b, cur, amount, now).Ok?
    ensures Repay(s, cfg, b, cur, amount, now).value.book.ids == s.book.ids
  {
    var fee, late := RepayShape(s, cfg, b, cur, amount, now);
    WrittenIndex(s.book, b, RepaidLine(cur.value, RepaymentOf(cur.value, amount)), s.book.lines[b].utilized,
                 Some(cur.value.status));
  }

  lemma OpenGrowsIndex(s: State, cfg: Config, b: Address, limit: int, rate: u32, score: u32, now: u64)
    requires Indexed(s.book) && Open(s, cfg, b, limit, rate, score, now).Ok?
    ensures Open(s, cfg, b, limit, rate, score, now).value.book.ids == if b in s.book.ids then s.book.ids else s.book.ids + [b]
  {
    if b in s.book.lines {
      var was := s.book.lines[b];
      WrittenIndex(s.book.(pendingAuctions := AuctionsWithout(s.book, was.status)), b, Reopened(was, limit, rate, score, now),
                   was.utilized, Some(was.status));
    } else {
      WrittenIndex(s.book, b, NewLine(limit, rate, score, now), 0, None);
    }
  }

  /** Only opening a first line adds to the index. */
  lemma IndexGrows(s: State, call: Call)
    requires Accounting(s) && Step(s, call).Ok?
    ensures var ids := Step(s, call).value.book.ids;
      ids == s.book.ids || (call.op.OpenLine? && call.op.b !in s.book.ids && ids == s.book.ids + [call.op.b])
  {
    var Call(op, now, cfg) := call;
    if IsLineOp(op) {
      ReadIsCurrent(s, call);
      LineOpKeepsIndex(s, call, Read(s, call));
    } else if IsSideOp(op) {
      assert SideStep(s, call).value.book == s.book;
    } else {
      match op
      case OpenLine(b, limit, rate, score) => OpenGrowsIndex(s, cfg, b, limit, rate, score, now);
      case DrawCredit(b, amount, collateral) =>
        CurrentIsCurrent(s, cfg, b, now);
        DrawKeepsIndex(s, cfg, b, Current(s, cfg, b, now), amount, collateral, now);
      case RepayCredit(b, amount) =>
        CurrentIsCurrent(s, cfg, b, now);
        RepayKeepsIndex(s, cfg, b, Current(s, cfg, b, now), amount, now);
      case AccrueBatch(bs) => LedgerLoops.AccrueEachFrame(s, cfg, ActiveOnly, bs, now);
    }
  }

  lemma CappedKeepsIndex(s: State, cfg: Config, b: Address, line: Line, amount: int, now: u64)
    requires Indexed(s.book) && b in s.book.lines && Capped(s, cfg, b, line, amount, now).Ok?
    ensures Capped(s, cfg, b, line, amount, now).value.book.ids == s.book.ids
  {
    UnderCapShape(Billed(s, b, line), cfg, b, line.utilized - s.book.lines[b].utilized, amount, now);
    if cfg.exposureCap.Some? {
      LedgerLoops.AccrueEachFrame(Billed(s, b, line), cfg, Except(b), s.book.ids, now);
    }
  }

  lemma DrawKeepsIndex(s: State, cfg: Config, b: Address, cur: Result<Line>, amount: int, collateral: int, now: u64)
    requires Indexed(s.book) && IsCurrent(s, b, cur) && Draw(s, cfg, b, cur, amount, collateral, now).Ok?
    ensures Draw(s, cfg, b, cur, amount, collateral, now).value.book.ids == s.book.ids
  {
    DrawShape(s, cfg, b, cur, amount, collateral, now);
    CappedKeepsIndex(s, cfg, b, cur.value, amount, now);
    var s1 := Capped(s, cfg, b, cur.value, amount, now).value;
    FinishDrawShape(s1, cfg, b, cur.value, s.book.lines[b].utilized, amount, now);
    WrittenIndex(s1.book, b, cur.value.(utilized := cur.value.utilized + amount), s.book.lines[b].utilized,
                 Some(cur.value.status));
  }

  lemma PoolOverLongerIndex(p: C.Pool, ids: seq<Address>, b: Address)
    requires C.PoolSound(p, ids) && b !in ids
    ensures C.PoolSound(p, ids + [b])
  {
    SumOfAppend(C.SumLegacy(p), ids, b);
    assert (ids + [b])[..|ids|] == ids;
  }

  lemma CreditKeepsSound(w: World, call: Call, q: State)
    requires WorldSound(w) && Step(w.ledger, call) == Ok(q)
    ensures WorldSound(World(q, w.pool))
  {
    var flow := StepMovesFunds(w.ledger, call);
    StepKeepsAccounting(w.ledger, call);
    IndexGrows(w.ledger, call);
    if q.book.ids != w.ledger.book.ids {
      PoolOverLongerIndex(w.pool, w.ledger.book.ids, call.op.b);
    }
  }

  lemma PledgeKeepsSound(w: World, op: C.Op, pledge: C.Config, custody: nat, p: C.Pool)
    requires WorldSound(w) && C.Step(pledge, w.ledger.book.ids, StoredDebts(w.ledger), w.pool, op) == Ok(p)
    ensures WorldSound(World(w.ledger.(custody := custody), p))
  {
    C.StepKeepsPool(pledge, w.ledger.book.ids, StoredDebts(w.ledger), w.pool, op);
  }

  /** The entrypoint a move runs, and what it leaves. */
  lemma WorldStepShape(token: C.Token, w: World, move: Move)
    requires WorldStep(token, w, move).Ok?
    ensures var q := WorldStep(token, w, move).value;
      match move
      case Credit(call, pledge) =>
        Priced(w, call, pledge).Ok? && q.pool == w.pool && Step(w.ledger, Priced(w, call, pledge).value) == Ok(q.ledger)
      case Pledge(op, pledge) =>
        && C.Step(pledge, w.ledger.book.ids, StoredDebts(w.ledger), w.pool, op) == Ok(q.pool)
        && q.ledger == w.ledger.(custody := w.ledger.custody + TokensIn(token, op))
        && (0 <= w.ledger.custody ==> 0 <= q.ledger.custody)
  {
  }

  lemma WorldStepKeepsSound(token: C.Token, w: World, move: Move)
    requires WorldSound(w)
    ensures WorldStep(token, w, move).Ok? ==> WorldSound(WorldStep(token, w, move).value)
  {
    if WorldStep(token, w, move).Ok? {
      WorldStepShape(token, w, move);
      var q := WorldStep(token, w, move).value;
      match move
      case Credit(call, pledge) => CreditKeepsSound(w, Priced(w, call, pledge).value, q.ledger);
      case Pledge(op, pledge) => PledgeKeepsSound(w, op, pledge, q.ledger.custody, q.pool);
    }
  }

  lemma EmptyPool(token: C.Token, p: C.Pool, ids: seq<Address>)
    requires p.legacy == map[] && p.tokens == map[] && p.total == 0 && ids == []
    ensures C.PoolSound(p, ids) && HeldIn(token, p) == 0
  {
    assert TokensOf(token, p.tokens) == map[];
  }

  lemma LaunchedIsSound(token: C.Token, w: World, custody: nat)
    requires Launched(w, custody)
    ensures WorldSound(w) && Surplus(token, w) == custody
  {
    EmptyPool(token, w.pool, w.ledger.book.ids);
  }

  // ---- What a release leaves of a position --------------------------------

  lemma PledgeShape(token: C.Token, w: World, op: C.Op, pledge: C.Config, q: World)
    requires WorldSound(w) && WorldStep(token, w, Pledge(op, pledge)) == Ok(q)
    ensures C.Step(pledge, w.ledger.book.ids, StoredDebts(w.ledger), w.pool, op) == Ok(q.pool)
  {
  }

  lemma CurrentOwesMore(s: State, cfg: Config, b: Address, now: u64)
    requires Current(s, cfg, b, now).Ok?
    ensures C.DebtOf(StoredDebts(s), b) <= Current(s, cfg, b, now).value.utilized
  {
    CurrentIsCurrent(s, cfg, b, now);
  }

  lemma ReleaseCoversOwedIff(token: C.Token, w: World, op: C.Op, pledge: C.Config, owed: int, q: World)
    requires WorldSound(w) && Distinct(pledge.allowlist) && C.Releases(op) && WorldStep(token, w, Pledge(op, pledge)) == Ok(q)
    requires 0 < C.DebtOf(StoredDebts(w.ledger), op.b) <= owed
    ensures C.IsCovered(pledge, q.pool, op.b, owed) <==> C.HasMargin(pledge, w.pool, op, owed)
  {
    PledgeShape(token, w, op, pledge, q);
    C.ReleaseCoversIff(pledge, w.ledger.book.ids, StoredDebts(w.ledger), w.pool, op, q.pool, owed);
  }

  /** A release checks the debt as stored, without the interest pending on it.  It
      leaves the position covered for what is owed at that moment if and only if its
      guard had the margin for that debt. */
  lemma ReleaseCoversAccruedIff(
      token: C.Token, w: World, op: C.Op, pledge: C.Config, cfg: Config, now: u64, line: Line, q: World)
    requires WorldSound(w) && Distinct(pledge.allowlist) && C.Releases(op) && WorldStep(token, w, Pledge(op, pledge)) == Ok(q)
    requires Current(w.ledger, cfg, op.b, now) == Ok(line) && 0 < w.ledger.book.lines[op.b].utilized
    ensures C.IsCovered(pledge, q.pool, op.b, line.utilized) <==> C.HasMargin(pledge, w.pool, op, line.utilized)
  {
    CurrentOwesMore(w.ledger, cfg, op.b, now);
    ReleaseCoversOwedIff(token, w, op, pledge, line.utilized, q);
  }

  // ---- What an external source guarantees ---------------------------------

  lemma HeldInIsNonNeg(token: C.Token, p: C.Pool)
    requires forall k :: k in p.tokens ==> 0 <= p.tokens[k]
    ensures 0 <= HeldIn(token, p) && forall b: Address :: C.Held(p, b, token) <= HeldIn(token, p)
  {
    var m := TokensOf(token, p.tokens);
    MapSumNonNeg(m);
    forall b: Address
      ensures C.Held(p, b, token) <= HeldIn(token, p)
    {
      assert (b, token) in p.tokens ==> m[(b, token)] == C.Held(p, b, token);
    }
  }

  lemma LegacyBelowTotal(p: C.Pool, ids: seq<Address>, b: Address)
    requires C.PoolSound(p, ids)
    ensures 0 <= p.total && C.Legacy(p, b) <= p.total
  {
    SumOfAtLeastZero(C.SumLegacy(p), ids);
    if b in ids {
      TermBelowSum(C.SumLegacy(p), ids, b);
    }
  }

  /** Without a deficit the documented equation holds. */
  lemma SurplusCoversEquation(token: C.Token, w: World)
    requires WorldSound(w) && 0 <= Surplus(token, w)
    ensures CustodyEquation(w)
  {
    UnpledgedMeaning(w.ledger);
    HeldInIsNonNeg(token, w.pool);
  }

  lemma ReleaseWithinHoldings(token: C.Token, pledge: C.Config, ids: seq<Address>, debts: map<Address, int>, p: C.Pool, op: C.Op)
    requires C.PoolSound(p, ids) && C.Step(pledge, ids, debts, p, op).Ok?
    ensures 0 <= p.total + HeldIn(token, p) + TokensIn(token, op)
  {
    HeldInIsNonNeg(token, p);
    LegacyBelowTotal(p, ids, op.b);
  }

  lemma PledgePaysIff(token: C.Token, w: World, op: C.Op, pledge: C.Config)
    ensures WorldStep(token, w, Pledge(op, pledge)).Ok?
      <==> C.Step(pledge, w.ledger.book.ids, StoredDebts(w.ledger), w.pool, op).Ok?
           && (0 <= TokensIn(token, op) || 0 <= w.ledger.custody + TokensIn(token, op))
  {
  }

  /** A collateral transfer that the contract's own accounting admits never fails. */
  lemma SurplusPaysCollateral(token: C.Token, w: World, op: C.Op, pledge: C.Config)
    requires WorldSound(w) && 0 <= Surplus(token, w)
    ensures WorldStep(token, w, Pledge(op, pledge)).Ok?
      <==> C.Step(pledge, w.ledger.book.ids, StoredDebts(w.ledger), w.pool, op).Ok?
  {
    PledgePaysIff(token, w, op, pledge);
    UnpledgedMeaning(w.ledger);
    if C.Step(pledge, w.ledger.book.ids, StoredDebts(w.ledger), w.pool, op).Ok? {
      ReleaseWithinHoldings(token, pledge, w.ledger.book.ids, StoredDebts(w.ledger), w.pool, op);
    }
  }

  /** A mature treasury withdrawal and a bounty sweep can then only be refused for
      want of a configured token or address. */
  lemma SurplusPaysFees(token: C.Token, w: World, now: u64)
    requires WorldSound(w) && 0 <= Surplus(token, w)
    ensures var v := w.ledger.vault;
      v.pending.Some? && v.pending.value.executeAfter <= now ==> Execute(v, now, true, w.ledger.custody).Ok?
    ensures WithdrawBounty(w.ledger.vault, true, true, w.ledger.custody).Ok?
  {
    SurplusCoversEquation(token, w);
    LegacyBelowTotal(w.pool, w.ledger.book.ids, 0);
  }

  ghost predicate ExternalSource(moves: seq<Move>) {
    forall m :: m in moves && m.Credit? ==> !m.call.cfg.selfSourced
  }

  lemma {:induction false} ExternalRun(token: C.Token, w: World, moves: seq<Move>)
    requires WorldSound(w) && ExternalSource(moves)
    ensures WorldSound(WorldRun(token, w, moves)) && Surplus(token, WorldRun(token, w, moves)) == Surplus(token, w)
  {
    if |moves| > 0 {
      var init, move := moves[..|moves| - 1], moves[|moves| - 1];
      ExternalRun(token, w, init);
      assert move in moves;
      WorldStepMovesSurplus(token, WorldRun(token, w, init), move);
      WorldStepKeepsSound(token, WorldRun(token, w, init), move);
    }
  }

  /** With an external source, over every joint run of ledger and collateral calls,
      the surplus is what custody started with: fees and collateral are backed one
      to one, and the documented equation always holds. */
  lemma ExternalSourceKeepsCustody(token: C.Token, w: World, custody: nat, moves: seq<Move>)
    requires Launched(w, custody) && ExternalSource(moves)
    ensures var q := WorldRun(token, w, moves);
      WorldSound(q) && Surplus(token, q) == custody && CustodyEquation(q)
  {
    LaunchedIsSound(token, w, custody);
    ExternalRun(token, w, moves);
    SurplusCoversEquation(token, WorldRun(token, w, moves));
  }

  // ---- What the default source does not -----------------------------------

  lemma EquationMeaning(w: World)
    requires VaultSound(w.ledger.vault)
    ensures CustodyEquation(w) <==> w.pool.total <= Unpledged(w.ledger)
  {
    UnpledgedMeaning(w.ledger);
  }

  /** A self-sourced draw keeps the equation if and only if its amount leaves the
      accumulators and the collateral covered, which it does not check. */
  lemma SelfSourcedDrawKeepsCustodyIff(token: C.Token, w: World, call: Call, pledge: C.Config)
    requires WorldSound(w) && DrawsFromCustody(Credit(call, pledge))
    ensures WorldStep(token, w, Credit(call, pledge)).Ok? ==>
      (CustodyEquation(WorldStep(token, w, Credit(call, pledge)).value)
       <==> call.op.amount <= w.ledger.custody - w.ledger.vault.treasury - w.ledger.vault.bounty - w.pool.total)
  {
    if WorldStep(token, w, Credit(call, pledge)).Ok? {
      var priced := Priced(w, call, pledge).value;
      var q := Step(w.ledger, priced).value;
      var flow := StepMovesFunds(w.ledger, priced);
      StepKeepsAccounting(w.ledger, priced);
      UnpledgedMeaning(w.ledger);
      EquationMeaning(World(q, w.pool));
    }
  }

  /** No self-sourced draw of the run takes more than the surplus it finds. */
  ghost predicate ModestDraws(token: C.Token, w: World, moves: seq<Move>) {
    |moves| == 0
    || (ModestDraws(token, w, moves[..|moves| - 1])
        && IsModest(token, WorldRun(token, w, moves[..|moves| - 1]), moves[|moves| - 1]))
  }

  ghost predicate IsModest(token: C.Token, w: World, move: Move) {
    DrawsFromCustody(move) ==> move.call.op.amount <= Surplus(token, w)
  }

  /** Whatever the source and however it changes, overdrawing the surplus is the
      only way to lose it. */
  lemma {:induction false} ModestDrawsKeepSurplus(token: C.Token, w: World, moves: seq<Move>)
    requires WorldSound(w) && 0 <= Surplus(token, w) && ModestDraws(token, w, moves)
    ensures WorldSound(WorldRun(token, w, moves)) && 0 <= Surplus(token, WorldRun(token, w, moves))
  {
    if |moves| > 0 {
      var init, move := moves[..|moves| - 1], moves[|moves| - 1];
      ModestDrawsKeepSurplus(token, w, init);
      WorldStepMovesSurplus(token, WorldRun(token, w, init), move);
      WorldStepKeepsSound(token, WorldRun(token, w, init), move);
    }
  }
}
