/** When changed terms start to count.  The documents promise that a new rate does
    not reach back over time already elapsed.  The rate of a second also depends on
    the suspension, so every call that changes rate or suspension is covered. */
module RateChange {
  import opened Prelude
  import opened Accrual
  import opened Ledger
  import opened LedgerInvariants
  import opened LedgerLoops
  import LedgerSettlement
  import LedgerSoundness

  /** Nothing the rate of a second depends on has changed. */
  predicate SameTerms(was: Line, line: Line) {
    && was.rate == line.rate
    && IsSuspended(was) == IsSuspended(line)
    && (IsSuspended(was) ==> was.suspendedAt == line.suspendedAt)
  }

  /** Only the debt and its checkpoint differ. */
  predicate SameSettings(was: Line, line: Line) {
    line == was.(utilized := line.utilized, accrued := line.accrued, lastAccrual := line.lastAccrual)
  }

  lemma SameTermsSameRate(was: Line, line: Line, env: Env, t: int)
    requires SameTerms(was, line)
    ensures RateAt(was, env, t) == RateAt(line, env, t)
  {
  }

  /** The pending interest reaches a whole unit. */
  predicate CreditsSomething(line: Line, env: Env) {
    line.lastAccrual < env.now && Interest(line, env).Ok? && 0 < Interest(line, env).value
  }

  /** The terms of `line`, set at `now`, cannot price any time before `now`. */
  predicate Prospective(line: Line, now: u64) {
    line.utilized == 0 || now <= line.lastAccrual
  }

  predicate ChangesTerms(call: Call, b: Address) {
    match call.op
    case OpenLine(x, _, _, _) => x == b
    case SuspendLine(x) => x == b
    case SelfSuspendLine(x) => x == b
    case UnsuspendLine(x) => x == b
    case SelfUnsuspendLine(x) => x == b
    case CloseLine(x, _) => x == b
    case DefaultLine(x) => x == b
    case UpdateRiskParameters(x, _, _, _) => x == b
    case _ => false
  }

  /** When the code keeps the promise: no debt, no time elapsed, or the time is
      settled first.  Opening settles only a closed line, closing none, and the
      others only when the old terms credit at least a unit. */
  predicate SettlesElapsedTime(s: State, call: Call, b: Address)
    requires b in s.book.lines
  {
    var was := s.book.lines[b];
    || was.utilized == 0
    || call.now <= was.lastAccrual
    || (if call.op.OpenLine? then was.status == Closed
        else if call.op.CloseLine? then false
        else CreditsSomething(was, EnvFor(s, call.cfg, b, call.now)))
  }

  /** Accruing a debt moves the checkpoint exactly when it credits something. */
  lemma AccrualMovesCheckpoint(line: Line, env: Env)
    requires Accrue(line, env).Ok? && line.lastAccrual < env.now && line.utilized != 0
    ensures CreditsSomething(line, env) ==> Accrue(line, env).value.lastAccrual == env.now
    ensures !CreditsSomething(line, env) ==> Accrue(line, env).value == line
  {
  }

  lemma LineOpTerms(s: State, call: Call, b: Address)
    requires IsLineOp(call.op) && call.op.b == b && b in s.book.lines && Step(s, call).Ok?
    ensures var was, line := s.book.lines[b], Step(s, call).value.book.lines[b];
      !SameTerms(was, line) ==>
        ChangesTerms(call, b) && (Prospective(line, call.now) <==> SettlesElapsedTime(s, call, b))
  {
    var was := s.book.lines[b];
    ReadIsCurrent(s, call);
    LineStepShape(s, call, Read(s, call));
    var read := Read(s, call).value;
    assert Step(s, call).value.book.lines[b] == Next(call, read);
    if !call.op.CloseLine? && was.lastAccrual < call.now && was.utilized != 0 {
      AccrualMovesCheckpoint(was, EnvFor(s, call.cfg, b, call.now));
    }
  }

  lemma OpenTerms(s: State, cfg: Config, b: Address, limit: int, rate: u32, score: u32, now: u64)
    requires b in s.book.lines && Open(s, cfg, b, limit, rate, score, now).Ok?
    ensures var was, line := s.book.lines[b], Open(s, cfg, b, limit, rate, score, now).value.book.lines[b];
      Prospective(line, now) <==> was.utilized == 0 || now <= was.lastAccrual || was.status == Closed
  {
    assert Open(s, cfg, b, limit, rate, score, now).value.book.lines[b] == Reopened(s.book.lines[b], limit, rate, score, now);
  }

  lemma LoopKeepsSettings(s: State, cfg: Config, scope: Scope, bs: seq<Address>, now: u64, b: Address)
    requires b in s.book.lines && AccrueEach(s, cfg, scope, bs, now).Ok?
    ensures b in AccrueEach(s, cfg, scope, bs, now).value.book.lines
    ensures SameSettings(s.book.lines[b], AccrueEach(s, cfg, scope, bs, now).value.book.lines[b])
  {
    AccrueEachAt(s, cfg, scope, bs, now, b);
    CurrentIsCurrent(s, cfg, b, now);
  }

  lemma LoopAddsNoLine(s: State, cfg: Config, scope: Scope, bs: seq<Address>, now: u64, b: Address)
    requires b !in s.book.lines && AccrueEach(s, cfg, scope, bs, now).Ok?
    ensures b !in AccrueEach(s, cfg, scope, bs, now).value.book.lines
  {
    AccrueEachAt(s, cfg, scope, bs, now, b);
  }

  lemma CappedKeepsSettings(s: State, cfg: Config, x: Address, line: Line, amount: int, now: u64, b: Address)
    requires b in s.book.lines && x in s.book.lines && Capped(s, cfg, x, line, amount, now).Ok?
    ensures b in Capped(s, cfg, x, line, amount, now).value.book.lines
    ensures SameSettings(s.book.lines[b], Capped(s, cfg, x, line, amount, now).value.book.lines[b])
  {
    UnderCapShape(Billed(s, x, line), cfg, x, line.utilized - s.book.lines[x].utilized, amount, now);
    if cfg.exposureCap.Some? {
      LoopKeepsSettings(Billed(s, x, line), cfg, Except(x), s.book.ids, now, b);
    }
  }

  lemma DrawKeepsSettings(s: State, cfg: Config, x: Address, cur: Result<Line>, amount: int, collateral: int, now: u64, b: Address)
    requires b in s.book.lines && IsCurrent(s, x, cur) && Draw(s, cfg, x, cur, amount, collateral, now).Ok?
    ensures b in Draw(s, cfg, x, cur, amount, collateral, now).value.book.lines
    ensures SameSettings(s.book.lines[b], Draw(s, cfg, x, cur, amount, collateral, now).value.book.lines[b])
  {
    DrawShape(s, cfg, x, cur, amount, collateral, now);
    CappedKeepsSettings(s, cfg, x, cur.value, amount, now, b);
    FinishDrawAt(Capped(s, cfg, x, cur.value, amount, now).value, cfg, x, cur.value, s.book.lines[x].utilized, amount, now);
  }

  /** Over every call: only these eight change the terms of a line, and the new
      terms leave elapsed time alone if and only if that time was settled first. */
  lemma TermsAreProspectiveIff(s: State, call: Call, b: Address)
    requires b in s.book.lines
    ensures Step(s, call).Ok? ==>
      && b in Step(s, call).value.book.lines
      && (!SameTerms(s.book.lines[b], Step(s, call).value.book.lines[b]) ==>
            && ChangesTerms(call, b)
            && (Prospective(Step(s, call).value.book.lines[b], call.now) <==> SettlesElapsedTime(s, call, b)))
  {
    var Call(op, now, cfg) := call;
    if Step(s, call).Err? {
    } else if IsSideOp(op) {
      assert SideStep(s, call).value.book == s.book;
    } else if op.DrawCredit? {
      CurrentIsCurrent(s, cfg, op.b, now);
      DrawKeepsSettings(s, cfg, op.b, Current(s, cfg, op.b, now), op.amount, op.collateral, now, b);
    } else if op.AccrueBatch? {
      LoopKeepsSettings(s, cfg, ActiveOnly, op.bs, now, b);
    } else if op.b != b {
      LedgerSettlement.OthersKeepLine(s, call, b);
    } else if op.RepayCredit? {
      CurrentIsCurrent(s, cfg, b, now);
      LedgerSoundness.RepayStores(s, cfg, b, Current(s, cfg, b, now), op.amount, now);
    } else if IsLineOp(op) {
      LineOpTerms(s, call, b);
      ReadIsCurrent(s, call);
      LineStepShape(s, call, Read(s, call));
    } else {
      OpenTerms(s, cfg, b, op.limit, op.rate, op.score, now);
    }
  }

  /** Every other call leaves the rate of every second as it was. */
  lemma RateIsKept(s: State, call: Call, b: Address, env: Env, t: int)
    requires b in s.book.lines && Step(s, call).Ok? && !ChangesTerms(call, b)
    ensures b in Step(s, call).value.book.lines
    ensures RateAt(Step(s, call).value.book.lines[b], env, t) == RateAt(s.book.lines[b], env, t)
  {
    TermsAreProspectiveIff(s, call, b);
    SameTermsSameRate(s.book.lines[b], Step(s, call).value.book.lines[b], env, t);
  }

  lemma RateSumSplit(line: Line, env: Env, from: int, mid: int, upTo: int)
    requires from <= mid <= upTo
    ensures RateSum(line, env, from, upTo) == RateSum(line, env, from, mid) + RateSum(line, env, mid, upTo)
    decreases upTo - mid
  {
    if mid < upTo {
      RateSumSplit(line, env, from, mid, upTo - 1);
    }
  }

  /** What reaching back costs: the next charge on terms set at `now` integrates
      them over the time before `now` as well, back to the old checkpoint. */
  lemma BackdatedCharge(line: Line, now: u64, later: Env)
    requires 0 < line.utilized && !Prospective(line, now) && now < later.now
    ensures Interest(line, later).Ok? ==>
      var before, since := RateSum(line, later, line.lastAccrual, now), RateSum(line, later, now, later.now);
      var exact := line.utilized * (before + since);
      exact / BPS_YEAR - 1 <= Interest(line, later).value <= exact / BPS_YEAR
  {
    RateSumSplit(line, later, line.lastAccrual, now, later.now);
    GraceRefinesRate(line, later);
  }
}
