/** Exactly when a collateral can be priced, and when a collateral entrypoint
    succeeds. */
module CollateralAdmission {
  import opened Prelude
  import opened Arith
  import opened Sums
  import opened Collateral

  // ---- Valuation ----------------------------------------------------------

  /** The product with a weight below 100 % fits in `u128`. */
  predicate Priceable(amount: int, w: u32) {
    amount <= 0 || 10_000 <= w || amount * w <= U128_MAX
  }

  lemma WeighSucceedsIff(amount: int, w: u32)
    requires amount <= I128_MAX
    ensures Weigh(amount, w).Ok? <==> Priceable(amount, w)
  {
    if 0 < amount && w < 10_000 {
      MulMono(w, 10_000, amount);
      MulNonNeg(amount, w);
      DivNonNeg(amount * w, 10_000);
      DivBound(amount * w, 10_000, amount);
    }
  }

  /** Every balance is a representable amount, and the legacy ones add up to one. */
  ghost predicate Representable(p: Pool) {
    p.total <= I128_MAX && forall k :: k in p.tokens ==> 0 <= p.tokens[k] <= I128_MAX
  }

  ghost predicate AllPriceable(cfg: Config, p: Pool, b: Address, tokens: seq<Token>) {
    Priceable(Legacy(p, b), LegacyWeight(cfg)) && forall t :: t in tokens ==> Priceable(Held(p, b, t), WeightOf(cfg, t))
  }

  lemma {:induction false} PrefixPricedIff(cfg: Config, p: Pool, b: Address, n: nat)
    requires Representable(p) && Legacy(p, b) <= I128_MAX && n <= |cfg.allowlist|
    ensures EffectiveChecked(cfg, p, b, n).Ok? <==>
      && AllPriceable(cfg, p, b, cfg.allowlist[..n])
      && Value(Legacy(p, b), LegacyWeight(cfg)) + SumOf(TokenValue(cfg, p, b), cfg.allowlist[..n]) <= I128_MAX
  {
    ValueIsFloor(Legacy(p, b), LegacyWeight(cfg));
    WeighSucceedsIff(Legacy(p, b), LegacyWeight(cfg));
    if n == 0 {
      ValueBelowAmount(Legacy(p, b), LegacyWeight(cfg));
    } else {
      var t, before := cfg.allowlist[n - 1], cfg.allowlist[..n - 1];
      assert cfg.allowlist[..n] == before + [t];
      PrefixPricedIff(cfg, p, b, n - 1);
      SumOfAppend(TokenValue(cfg, p, b), before, t);
      WeighSucceedsIff(Held(p, b, t), WeightOf(cfg, t));
      ValueIsFloor(Held(p, b, t), WeightOf(cfg, t));
      TokenValuesAreNonNegative(cfg, p, b, before);
    }
  }

  lemma ValueBelowAmount(amount: int, w: u32)
    requires amount <= I128_MAX
    ensures Value(amount, w) <= I128_MAX
  {
    if 0 < amount {
      MulMono(Min(w, 10_000), 10_000, amount);
      DivBound(amount * Min(w, 10_000), 10_000, amount);
    }
  }

  lemma TokenValuesAreNonNegative(cfg: Config, p: Pool, b: Address, tokens: seq<Token>)
    ensures 0 <= SumOf(TokenValue(cfg, p, b), tokens)
  {
    forall t | t in tokens
      ensures 0 <= TokenValue(cfg, p, b)(t)
    {
      ValueIsFloor(Held(p, b, t), WeightOf(cfg, t));
    }
    SumOfAtLeastZero(TokenValue(cfg, p, b), tokens);
  }

  /** A borrower's collateral has a value if and only if every product and the sum
      fit. */
  ghost predicate HasValue(cfg: Config, p: Pool, b: Address) {
    AllPriceable(cfg, p, b, cfg.allowlist) && Effective(cfg, p, b) <= I128_MAX
  }

  lemma EffectiveSucceedsIff(cfg: Config, p: Pool, b: Address)
    requires Representable(p) && Legacy(p, b) <= I128_MAX
    ensures EffectiveValue(cfg, p, b).Ok? <==> HasValue(cfg, p, b)
  {
    PrefixPricedIff(cfg, p, b, |cfg.allowlist|);
    assert cfg.allowlist[..|cfg.allowlist|] == cfg.allowlist;
  }

  // ---- Entrypoints --------------------------------------------------------

  /** The release leaves the requirement for the stored debt, as the guard sees it. */
  ghost predicate GuardPasses(cfg: Config, p: Pool, b: Address, debt: int, amount: int, w: u32) {
    && HasValue(cfg, p, b) && Priceable(amount, w) && debt * cfg.minRatioBps <= I128_MAX
    && Required(debt, cfg.minRatioBps) <= Effective(cfg, p, b) - Value(amount, w)
  }

  lemma GuardSucceedsIff(cfg: Config, p: Pool, b: Address, debt: int, amount: int, w: u32)
    requires Representable(p) && Legacy(p, b) <= I128_MAX && 0 < debt && amount <= I128_MAX
    ensures Guard(cfg, p, b, debt, amount, w).Ok? <==> GuardPasses(cfg, p, b, debt, amount, w)
  {
    EffectiveSucceedsIff(cfg, p, b);
    WeighSucceedsIff(amount, w);
    MulNonNeg(debt, cfg.minRatioBps);
  }

  lemma {:induction false} PrefixBelowSum(f: Address -> int, ids: seq<Address>, k: nat)
    requires k <= |ids| && forall x :: x in ids ==> 0 <= f(x)
    ensures 0 <= SumOf(f, ids[..k]) <= SumOf(f, ids)
  {
    if k < |ids| {
      var init := ids[..|ids| - 1];
      assert init[..k] == ids[..k];
      PrefixBelowSum(f, init, k);
    } else {
      assert ids[..k] == ids;
      SumOfAtLeastZero(f, ids);
    }
  }

  /** A legacy balance can be stored if and only if it is unchanged, or its owner is
      indexed and the total has room. */
  lemma SetLegacySucceedsIff(p: Pool, ids: seq<Address>, b: Address, balance: nat)
    requires PoolSound(p, ids) && Representable(p) && balance <= I128_MAX && Legacy(p, b) <= I128_MAX
    ensures SetLegacy(p, ids, b, balance).Ok?
       <==> balance == Legacy(p, b) || (b in ids && p.total + balance - Legacy(p, b) <= I128_MAX)
  {
    var updated := p.(legacy := p.legacy[b := balance], total := p.total + balance - Legacy(p, b));
    SumOfOneChange(SumLegacy(p), SumLegacy(updated), ids, b);
    forall k | 0 <= k <= |ids|
      ensures 0 <= SumOf(SumLegacy(updated), ids[..k]) <= SumOf(SumLegacy(updated), ids)
    {
      PrefixBelowSum(SumLegacy(updated), ids, k);
    }
    SumOfAtLeastZero(SumLegacy(p), ids);
    if b in ids {
      TermBelowSum(SumLegacy(p), ids, b);
    }
  }

  /** Each entrypoint's own conditions. */
  ghost predicate Allowed(cfg: Config, ids: seq<Address>, debts: map<Address, int>, p: Pool, op: Op) {
    var debt := DebtOf(debts, op.b);
    0 < op.amount <= I128_MAX
    && match op
       case Deposit(b, amount) => cfg.collateralToken.Some? && b in ids && p.total + amount <= I128_MAX
       case Withdraw(b, amount) =>
         && amount <= Legacy(p, b) && cfg.collateralToken.Some?
         && (0 < debt ==> GuardPasses(cfg, p, b, debt, amount, LegacyWeight(cfg)))
       case PartialRelease(b, amount) =>
         && amount <= Legacy(p, b) && cfg.collateralToken.Some?
         && HasValue(cfg, p, b) && Priceable(amount, LegacyWeight(cfg))
         && (0 < debt ==> GuardPasses(cfg, p, b, debt, amount, LegacyWeight(cfg)))
       case DepositToken(b, t, amount) => t in cfg.allowlist && Held(p, b, t) + amount <= I128_MAX
       case WithdrawToken(b, t, amount) =>
         && t in cfg.allowlist && amount <= Held(p, b, t)
         && (0 < debt ==> GuardPasses(cfg, p, b, debt, amount, WeightOf(cfg, t)))
  }

  lemma LegacyIsSmall(p: Pool, ids: seq<Address>, b: Address)
    requires PoolSound(p, ids) && Representable(p)
    ensures 0 <= Legacy(p, b) <= p.total && (0 < Legacy(p, b) ==> b in ids)
  {
    SumOfAtLeastZero(SumLegacy(p), ids);
    if b in ids {
      TermBelowSum(SumLegacy(p), ids, b);
    }
  }

  /** A collateral entrypoint succeeds if and only if its conditions hold: no other
      deposit, withdrawal or release is ever refused, and no other is let through. */
  lemma StepSucceedsIff(cfg: Config, ids: seq<Address>, debts: map<Address, int>, p: Pool, op: Op)
    requires PoolSound(p, ids) && Representable(p) && op.amount <= I128_MAX
    ensures Step(cfg, ids, debts, p, op).Ok? <==> Allowed(cfg, ids, debts, p, op)
  {
    var b, debt := op.b, DebtOf(debts, op.b);
    LegacyIsSmall(p, ids, b);
    EffectiveSucceedsIff(cfg, p, b);
    if 0 < op.amount {
      match op
      case Deposit(_, amount) =>
        if Legacy(p, b) + amount <= I128_MAX {
          SetLegacySucceedsIff(p, ids, b, Legacy(p, b) + amount);
        }
      case Withdraw(_, amount) => LegacyReleaseSucceeds(cfg, ids, p, b, debt, amount);
      case PartialRelease(_, amount) =>
        WeighSucceedsIff(amount, LegacyWeight(cfg));
        LegacyReleaseSucceeds(cfg, ids, p, b, debt, amount);
      case DepositToken(_, t, amount) =>
      case WithdrawToken(_, t, amount) =>
        if 0 < debt {
          GuardSucceedsIff(cfg, p, b, debt, amount, WeightOf(cfg, t));
        }
    }
  }

  lemma LegacyReleaseSucceeds(cfg: Config, ids: seq<Address>, p: Pool, b: Address, debt: int, amount: int)
    requires PoolSound(p, ids) && Representable(p) && 0 < amount <= I128_MAX
    ensures 0 < debt ==>
      (Guard(cfg, p, b, debt, amount, LegacyWeight(cfg)).Ok? <==> GuardPasses(cfg, p, b, debt, amount, LegacyWeight(cfg)))
    ensures amount <= Legacy(p, b) ==> SetLegacy(p, ids, b, Legacy(p, b) - amount).Ok?
  {
    LegacyIsSmall(p, ids, b);
    if 0 < debt {
      GuardSucceedsIff(cfg, p, b, debt, amount, LegacyWeight(cfg));
    }
    if amount <= Legacy(p, b) {
      SetLegacySucceedsIff(p, ids, b, Legacy(p, b) - amount);
    }
  }
}
