/** How fast a rate can rise under the rate-change limits.  The documents promise at
    most `maxChange` per `minInterval`; that holds until the line is re-opened. */
module RateGuard {
  import opened Prelude
  import opened Arith
  import opened Accrual
  import opened Ledger
  import opened LedgerInvariants
  import opened RateChange
  import LedgerSettlement
  import LedgerSoundness

  function Distance(a: int, b: int): nat {
    if a <= b then b - a else a - b
  }

  predicate SameRate(was: Line, line: Line) {
    was.rate == line.rate && was.lastRateUpdate == line.lastRateUpdate
  }

  /** A change the limits let through, and the stamp it leaves. */
  predicate LimitedChange(limits: RateLimits, was: Line, line: Line, now: u64) {
    && Distance(was.rate, line.rate) <= limits.maxChange
    && (0 < limits.minInterval && 0 < was.lastRateUpdate ==> limits.minInterval <= now - was.lastRateUpdate)
    && line.lastRateUpdate == now
  }

  predicate Reopens(call: Call, b: Address) {
    call.op.OpenLine? && call.op.b == b
  }

  lemma LineOpRate(s: State, call: Call, b: Address, limits: RateLimits)
    requires IsLineOp(call.op) && b in s.book.lines && call.op.b == b && Step(s, call).Ok?
    requires call.cfg.rateLimits == Some(limits)
    ensures b in Step(s, call).value.book.lines
    ensures var was, line := s.book.lines[b], Step(s, call).value.book.lines[b];
      SameRate(was, line) || LimitedChange(limits, was, line, call.now)
  {
    ReadIsCurrent(s, call);
    LineStepShape(s, call, Read(s, call));
    assert Step(s, call).value.book.lines[b] == Next(call, Read(s, call).value);
  }

  /** Every call but a re-opening keeps the rate and its stamp, or changes the rate
      within the limits. */
  lemma RateFollowsLimits(s: State, call: Call, b: Address, limits: RateLimits)
    requires b in s.book.lines && Step(s, call).Ok? && !Reopens(call, b) && call.cfg.rateLimits == Some(limits)
    ensures b in Step(s, call).value.book.lines
    ensures var was, line := s.book.lines[b], Step(s, call).value.book.lines[b];
      SameRate(was, line) || LimitedChange(limits, was, line, call.now)
  {
    var Call(op, now, cfg) := call;
    if IsSideOp(op) {
      assert SideStep(s, call).value.book == s.book;
    } else if op.DrawCredit? {
      CurrentIsCurrent(s, cfg, op.b, now);
      DrawKeepsSettings(s, cfg, op.b, Current(s, cfg, op.b, now), op.amount, op.collateral, now, b);
    } else if op.AccrueBatch? {
      LoopKeepsSettings(s, cfg, ActiveOnly, op.bs, now, b);
    } else if op.b != b {
      LedgerSettlement.OthersKeepLine(s, call, b);
    } else if op.RepayCredit? {
      CurrentIsCurrent(s, cfg, b, now);
      LedgerSoundness.RepayStores(s, cfg, b, Current(s, cfg, b, now), op.amount, now);
    } else {
      LineOpRate(s, call, b, limits);
    }
  }

  /** Re-opening writes any rate whatever the limits, and clears the stamp. */
  lemma ReopeningIgnoresLimits(s: State, call: Call, b: Address)
    requires Reopens(call, b) && Step(s, call).Ok?
    ensures b in Step(s, call).value.book.lines
    ensures var line := Step(s, call).value.book.lines[b]; line.rate == call.op.rate && line.lastRateUpdate == 0
  {
  }

  // ---- Runs ---------------------------------------------------------------

  /** The limits stay, the clock starts at `from` and never runs back. */
  ghost predicate Guarded(calls: seq<Call>, limits: RateLimits, from: u64, upTo: u64) {
    if |calls| == 0 then from <= upTo
    else
      var call := calls[|calls| - 1];
      && Guarded(calls[..|calls| - 1], limits, from, call.now)
      && call.cfg.rateLimits == Some(limits) && from <= call.now <= upTo
  }

  /** No call re-opens the line of `b`. */
  ghost predicate NeverReopened(s: State, calls: seq<Call>, b: Address) {
    |calls| == 0
    || (NeverReopened(s, calls[..|calls| - 1], b) && !ReopenedBy(Exec(s, calls[..|calls| - 1]), calls[|calls| - 1], b))
  }

  predicate ReopenedBy(s: State, call: Call, b: Address) {
    Reopens(call, b) && Step(s, call).Ok?
  }

  /** `n` limited changes since `from`, the last of them stamped. */
  predicate Paced(limits: RateLimits, first: Line, line: Line, from: u64, upTo: u64, n: nat) {
    && Distance(first.rate, line.rate) <= limits.maxChange * n
    && (0 < n ==> from <= line.lastRateUpdate <= upTo && limits.minInterval * (n - 1) <= line.lastRateUpdate - from)
  }

  lemma OneChangeMore(limits: RateLimits, first: Line, was: Line, line: Line, from: u64, upTo: u64, now: u64, n: nat)
    returns (m: nat)
    requires 0 < limits.minInterval && 0 < from && upTo <= now && from <= now && Paced(limits, first, was, from, upTo, n)
    requires SameRate(was, line) || LimitedChange(limits, was, line, now)
    ensures Paced(limits, first, line, from, now, m)
  {
    if SameRate(was, line) {
      m := n;
    } else {
      m := n + 1;
      assert limits.maxChange * m == limits.maxChange * n + limits.maxChange;
      assert 0 < n ==> limits.minInterval * n == limits.minInterval * (n - 1) + limits.minInterval;
    }
  }

  lemma ApplyPaced(limits: RateLimits, first: Line, s: State, call: Call, b: Address, from: u64, upTo: u64, n: nat, q: State)
    returns (m: nat)
    requires b in s.book.lines && !ReopenedBy(s, call, b) && call.cfg.rateLimits == Some(limits) && q == Apply(s, call)
    requires 0 < limits.minInterval && 0 < from && upTo <= call.now && from <= call.now
    requires Paced(limits, first, s.book.lines[b], from, upTo, n)
    ensures b in q.book.lines && Paced(limits, first, q.book.lines[b], from, call.now, m)
  {
    if Step(s, call).Ok? {
      RateFollowsLimits(s, call, b, limits);
    }
    m := OneChangeMore(limits, first, s.book.lines[b], q.book.lines[b], from, upTo, call.now, n);
  }

  lemma {:induction false} RunPaced(s: State, calls: seq<Call>, b: Address, limits: RateLimits, from: u64, upTo: u64, q: State)
    returns (n: nat)
    requires b in s.book.lines && 0 < limits.minInterval && 0 < from && q == Exec(s, calls)
    requires Guarded(calls, limits, from, upTo) && NeverReopened(s, calls, b)
    ensures b in q.book.lines && Paced(limits, s.book.lines[b], q.book.lines[b], from, upTo, n)
  {
    n := 0;
    if |calls| > 0 {
      var init, call := calls[..|calls| - 1], calls[|calls| - 1];
      var before := Exec(s, init);
      var m := RunPaced(s, init, b, limits, from, call.now, before);
      n := ApplyPaced(limits, s.book.lines[b], before, call, b, from, call.now, m, q);
    }
  }

  /** Over any run that does not re-open the line, under constant limits and with
      the clock in order, the rate moves by at most one `maxChange` at once and one
      more per full interval.  (A change at time zero would leave no stamp.) */
  lemma RateMovesWithinLimits(s: State, calls: seq<Call>, b: Address, limits: RateLimits, from: u64, upTo: u64)
    requires b in s.book.lines && 0 < limits.minInterval && 0 < from
    requires Guarded(calls, limits, from, upTo) && NeverReopened(s, calls, b)
    ensures b in Exec(s, calls).book.lines
    ensures Distance(s.book.lines[b].rate, Exec(s, calls).book.lines[b].rate)
         <= limits.maxChange * (1 + (upTo - from) / limits.minInterval)
  {
    var q := Exec(s, calls);
    var n := RunPaced(s, calls, b, limits, from, upTo, q);
    var windows := (upTo - from) / limits.minInterval;
    DivNonNeg(upTo - from, limits.minInterval);
    if 0 < n {
      DivLower(upTo - from, limits.minInterval, n - 1);
    }
    MulMono(n, 1 + windows, limits.maxChange);
  }
}
