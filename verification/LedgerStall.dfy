/** What a negative debt, which only an uncovered reversal leaves, does to later
    calls: cast to `u128` it prices as an enormous one and the accrual overflows. */
module LedgerStall {
  import opened Prelude
  import opened Arith
  import opened Accrual
  import opened Ledger
  import opened LedgerInvariants
  import opened LedgerLoops

  /** Two basis-point seconds or more are priced in one of the spans the accrual
      of this moment is made of. */
  predicate Blocked(line: Line, env: Env)
    requires line.lastAccrual < env.now
  {
    var eff := EffectiveRate(line.rate, env);
    if HasGraceWindow(line, env) && line.lastAccrual < GraceEnd(line, env) then
      var end := GraceEnd(line, env);
      if env.now <= end then 2 <= GraceRate(env) * (env.now - line.lastAccrual)
      else
        || 2 <= GraceRate(env) * (end - line.lastAccrual)
        || 2 <= eff * (end - line.lastAccrual)
        || 2 <= eff * (env.now - end)
    else 2 <= eff * (env.now - line.lastAccrual)
  }

  /** A principal in the upper half of `u128` can be priced for one basis-point
      second, and for no more. */
  lemma HugePrincipal(p: int, rate: Bps, secs: u64)
    requires I128_MAX < p <= U128_MAX
    ensures Prorate(p, rate, secs).Err? <==> 2 <= rate * secs
    ensures Prorate(p, rate, secs).Ok? ==> 0 <= Prorate(p, rate, secs).value <= U128_MAX / BPS_YEAR
  {
    if rate == 0 || secs == 0 {
      assert rate * secs == 0;
    } else if 2 <= rate {
      MulMono(2, rate, p);
      MulMono(1, secs, rate);
    } else {
      assert rate * secs == secs && p * rate == p;
      if 2 <= secs {
        MulMono(2, secs, p);
      } else {
        DivMono(p, U128_MAX, BPS_YEAR);
      }
    }
  }

  /** A negative debt can be priced if and only if it is not blocked. */
  lemma NegativeDebtBlocksIff(line: Line, env: Env)
    requires InI128(line.utilized) && line.utilized < 0 && line.lastAccrual < env.now
    ensures Interest(line, env).Err? <==> Blocked(line, env)
    ensures Blocked(line, env) ==> Accrue(line, env).Err?
  {
    var p, eff := AsU128(line.utilized), EffectiveRate(line.rate, env);
    HugePrincipal(p, eff, env.now - line.lastAccrual);
    if HasGraceWindow(line, env) {
      var end := GraceEnd(line, env);
      HugePrincipal(p, GraceRate(env), env.now - line.lastAccrual);
      if line.lastAccrual < end < env.now {
        HugePrincipal(p, GraceRate(env), end - line.lastAccrual);
        HugePrincipal(p, eff, end - line.lastAccrual);
        HugePrincipal(p, eff, env.now - end);
      }
    }
  }

  /** The other side: at exactly one basis-point second the price is not refused but
      charged, and lies above 2^127 divided by a year, whatever is owed. */
  lemma OneSecondIsCharged(line: Line, env: Env)
    requires InI128(line.utilized) && line.utilized < 0 && line.lastAccrual < env.now && !HasGraceWindow(line, env)
    requires EffectiveRate(line.rate, env) * (env.now - line.lastAccrual) == 1
    ensures var charge := (U128_MAX + 1 + line.utilized) / BPS_YEAR;
      Interest(line, env) == Ok(charge) && Accrue(line, env) == Capitalize(line, charge, env.now) && I128_MAX / BPS_YEAR <= charge
  {
    var p, eff, secs := AsU128(line.utilized), EffectiveRate(line.rate, env), env.now - line.lastAccrual;
    if 1 < eff {
      MulMono(1, secs, eff);
    }
    assert eff == 1 && secs == 1;
    DivMono(I128_MAX, p, BPS_YEAR);
  }

  /** Waiting does not help: the checkpoint stays, and the spans only grow. */
  lemma BlockedForGood(line: Line, env: Env, later: Env)
    requires line.lastAccrual < env.now <= later.now && later == env.(now := later.now)
    requires Blocked(line, env)
    ensures Blocked(line, later)
  {
    var eff := EffectiveRate(line.rate, env);
    MulMono(env.now - line.lastAccrual, later.now - line.lastAccrual, eff);
    if HasGraceWindow(line, env) && line.lastAccrual < GraceEnd(line, env) {
      var end := GraceEnd(line, env);
      MulMono(Min(env.now, end) - line.lastAccrual, Min(later.now, end) - line.lastAccrual, GraceRate(env));
      MulMono(env.now - end, later.now - end, eff);
    }
  }

  /** The line of `x` owes less than nothing and cannot be accrued now. */
  predicate Stalled(s: State, cfg: Config, x: Address, now: u64) {
    && x in s.book.lines && InI128(s.book.lines[x].utilized) && s.book.lines[x].utilized < 0
    && s.book.lines[x].lastAccrual < now && Blocked(s.book.lines[x], EnvFor(s, cfg, x, now))
  }

  /** The calls that accrue the line of `x` first: all of its borrower's but
      opening, scheduling and closing. */
  predicate AccruesFirst(op: Op, x: Address) {
    || (op.DrawCredit? && op.b == x)
    || (op.RepayCredit? && op.b == x)
    || (IsLineOp(op) && !op.CloseLine? && op.b == x)
  }

  lemma StalledIsNotCurrent(s: State, cfg: Config, x: Address, now: u64)
    requires Stalled(s, cfg, x, now)
    ensures Current(s, cfg, x, now).Err?
  {
    NegativeDebtBlocksIff(s.book.lines[x], EnvFor(s, cfg, x, now));
  }

  /** While one line is stalled no repayment, forgiveness, suspension or other call
      that accrues it succeeds, and under an exposure cap no borrower at all can
      draw. */
  lemma OneStalledLineStopsDraws(s: State, call: Call, x: Address)
    requires Accounting(s) && Stalled(s, call.cfg, x, call.now)
    ensures Step(s, call).Ok? ==>
      !AccruesFirst(call.op, x) && !(call.op.DrawCredit? && call.cfg.exposureCap.Some?)
  {
    StalledIsNotCurrent(s, call.cfg, x, call.now);
    if call.op.DrawCredit? && call.op.b != x && call.cfg.exposureCap.Some? {
      StalledStopsDraw(s, call.cfg, call.op.b, call.op.amount, call.op.collateral, call.now, x);
    }
  }

  lemma StalledStopsDraw(s: State, cfg: Config, b: Address, amount: i128, collateral: int, now: u64, x: Address)
    requires Accounting(s) && cfg.exposureCap.Some? && x != b && x in s.book.lines && Current(s, cfg, x, now).Err?
    ensures Step(s, Call(DrawCredit(b, amount, collateral), now, cfg)).Err?
  {
    if Step(s, Call(DrawCredit(b, amount, collateral), now, cfg)).Ok? {
      CappedDrawIsExact(s, cfg, b, amount, collateral, now, Step(s, Call(DrawCredit(b, amount, collateral), now, cfg)).value, x);
    }
  }
}
