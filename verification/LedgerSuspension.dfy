/** Since when a line is suspended, and how long that protects it from default. */
module LedgerSuspension {
  import opened Prelude
  import opened Accrual
  import opened Ledger
  import opened LedgerInvariants
  import opened LedgerLoops
  import LedgerSettlement
  import LedgerSoundness
  import RateChange

  predicate IsHeld(line: Line) {
    line.status == Suspended || line.status == SelfSuspended
  }

  /** A line that can be drawn on carries no stamp. */
  predicate Unstamped(line: Line) {
    line.status == Active || line.status == Restricted ==> line.suspendedAt == 0
  }

  predicate Suspends(call: Call, b: Address) {
    (call.op.SuspendLine? || call.op.SelfSuspendLine?) && call.op.b == b
  }

  /** A suspension is stamped with its moment and keeps that stamp while it lasts. */
  predicate StampMoves(was: Line, line: Line, call: Call, b: Address) {
    && (Suspends(call, b) ==> was.status == Active && IsHeld(line) && line.suspendedAt == call.now)
    && (IsHeld(line) && !Suspends(call, b) ==> IsHeld(was) && line.suspendedAt == was.suspendedAt)
    && (Unstamped(was) ==> Unstamped(line))
  }

  lemma LineOpStamps(s: State, call: Call, b: Address)
    requires IsLineOp(call.op) && call.op.b == b && b in s.book.lines && Step(s, call).Ok?
    ensures b in Step(s, call).value.book.lines
    ensures StampMoves(s.book.lines[b], Step(s, call).value.book.lines[b], call, b)
  {
    ReadIsCurrent(s, call);
    LineStepShape(s, call, Read(s, call));
    assert Step(s, call).value.book.lines[b] == Next(call, Read(s, call).value);
  }

  lemma StepStamps(s: State, call: Call, b: Address, q: State)
    requires b in s.book.lines && Step(s, call) == Ok(q)
    ensures b in q.book.lines && StampMoves(s.book.lines[b], q.book.lines[b], call, b)
  {
    var Call(op, now, cfg) := call;
    if IsSideOp(op) {
      SideKeepsBook(s, call);
    } else if op.DrawCredit? {
      CurrentIsCurrent(s, cfg, op.b, now);
      RateChange.DrawKeepsSettings(s, cfg, op.b, Current(s, cfg, op.b, now), op.amount, op.collateral, now, b);
    } else if op.AccrueBatch? {
      RateChange.LoopKeepsSettings(s, cfg, ActiveOnly, op.bs, now, b);
    } else if op.b != b {
      LedgerSettlement.OthersKeepLine(s, call, b);
    } else if op.RepayCredit? {
      CurrentIsCurrent(s, cfg, b, now);
      LedgerSoundness.RepayStores(s, cfg, b, Current(s, cfg, b, now), op.amount, now);
    } else if IsLineOp(op) {
      LineOpStamps(s, call, b);
    } else {
      assert q.book.lines[b] == Reopened(s.book.lines[b], op.limit, op.rate, op.score, now);
    }
  }

  lemma CappedAddsNoLine(s: State, cfg: Config, x: Address, line: Line, amount: int, now: u64, b: Address)
    requires x in s.book.lines && b !in s.book.lines && Capped(s, cfg, x, line, amount, now).Ok?
    ensures b !in Capped(s, cfg, x, line, amount, now).value.book.lines
  {
    UnderCapShape(Billed(s, x, line), cfg, x, line.utilized - s.book.lines[x].utilized, amount, now);
    if cfg.exposureCap.Some? {
      RateChange.LoopAddsNoLine(Billed(s, x, line), cfg, Except(x), s.book.ids, now, b);
    }
  }

  lemma DrawAddsNoLine(s: State, cfg: Config, x: Address, cur: Result<Line>, amount: int, collateral: int, now: u64, b: Address)
    requires IsCurrent(s, x, cur) && Draw(s, cfg, x, cur, amount, collateral, now).Ok? && b !in s.book.lines
    ensures b !in Draw(s, cfg, x, cur, amount, collateral, now).value.book.lines
  {
    DrawShape(s, cfg, x, cur, amount, collateral, now);
    CappedAddsNoLine(s, cfg, x, cur.value, amount, now, b);
    FinishDrawAt(Capped(s, cfg, x, cur.value, amount, now).value, cfg, x, cur.value, s.book.lines[x].utilized, amount, now);
  }

  lemma SideKeepsBook(s: State, call: Call)
    requires IsSideOp(call.op) && SideStep(s, call).Ok?
    ensures SideStep(s, call).value.book == s.book
  {
  }

  /** A first opening gives an active line without a stamp; no other call adds one. */
  lemma NewLineIsUnstamped(s: State, call: Call, b: Address, q: State)
    requires b !in s.book.lines && Step(s, call) == Ok(q) && b in q.book.lines
    ensures q.book.lines[b].status == Active && q.book.lines[b].suspendedAt == 0 && !Suspends(call, b)
  {
    var Call(op, now, cfg) := call;
    if IsLineOp(op) {
      ReadIsCurrent(s, call);
      LineStepShape(s, call, Read(s, call));
    } else if IsSideOp(op) {
      SideKeepsBook(s, call);
    } else if op.DrawCredit? {
      CurrentIsCurrent(s, cfg, op.b, now);
      DrawAddsNoLine(s, cfg, op.b, Current(s, cfg, op.b, now), op.amount, op.collateral, now, b);
    } else if op.RepayCredit? {
      CurrentIsCurrent(s, cfg, op.b, now);
      LedgerSoundness.RepayStores(s, cfg, op.b, Current(s, cfg, op.b, now), op.amount, now);
    } else if op.AccrueBatch? {
      RateChange.LoopAddsNoLine(s, cfg, ActiveOnly, op.bs, now, b);
    }
  }

  // ---- Runs ---------------------------------------------------------------

  /** When `b` was last suspended. */
  function LastSuspension(s: State, calls: seq<Call>, b: Address): Option<u64> {
    if |calls| == 0 then None
    else
      var call := calls[|calls| - 1];
      if Suspends(call, b) && Step(Exec(s, calls[..|calls| - 1]), call).Ok? then Some(call.now)
      else LastSuspension(s, calls[..|calls| - 1], b)
  }

  predicate Dated(s: State, b: Address, since: Option<u64>) {
    b in s.book.lines ==>
      Unstamped(s.book.lines[b]) && (IsHeld(s.book.lines[b]) ==> since == Some(s.book.lines[b].suspendedAt))
  }

  lemma ApplyDates(s: State, call: Call, b: Address, since: Option<u64>, q: State)
    requires Dated(s, b, since) && q == Apply(s, call)
    ensures Dated(q, b, if Suspends(call, b) && Step(s, call).Ok? then Some(call.now) else since)
  {
    if Step(s, call).Ok? && b in q.book.lines {
      if b in s.book.lines {
        StepStamps(s, call, b, q);
      } else {
        NewLineIsUnstamped(s, call, b, q);
      }
    }
  }

  lemma {:induction false} RunDates(s: State, calls: seq<Call>, b: Address, q: State)
    requires b !in s.book.lines && q == Exec(s, calls)
    ensures Dated(q, b, LastSuspension(s, calls, b))
  {
    if |calls| > 0 {
      var before := Exec(s, calls[..|calls| - 1]);
      RunDates(s, calls[..|calls| - 1], b, before);
      ApplyDates(before, calls[|calls| - 1], b, LastSuspension(s, calls[..|calls| - 1], b), q);
    }
  }

  /** In every reachable state a suspended line carries the moment of its last
      suspension, and a line that can be drawn on carries none. */
  lemma SuspensionIsDated(reserve: int, custody: int, calls: seq<Call>, b: Address)
    ensures Dated(Exec(Genesis(reserve, custody), calls), b, LastSuspension(Genesis(reserve, custody), calls, b))
  {
    RunDates(Genesis(reserve, custody), calls, b, Exec(Genesis(reserve, custody), calls));
  }

  /** A default waits for the liquidation grace: counted from the suspension if the
      line carries one, else from the next due date, else from the last rate
      change, else from the last accrual. */
  lemma DefaultAwaitsGrace(s: State, call: Call, b: Address)
    requires call.op.DefaultLine? && call.op.b == b && Step(s, call).Ok? && 0 < call.cfg.liquidationGrace
    ensures Current(s, call.cfg, b, call.now).Ok?
    ensures var line, deadline := Current(s, call.cfg, b, call.now).value, call.now - call.cfg.liquidationGrace;
      || call.now == U64_MAX
      || (0 < line.suspendedAt <= deadline)
      || (line.suspendedAt == 0 && b in s.schedules && s.schedules[b].nextDue <= deadline)
      || (line.suspendedAt == 0 && b !in s.schedules && 0 < line.lastRateUpdate <= deadline)
      || (line.suspendedAt == 0 && b !in s.schedules && line.lastRateUpdate == 0 && line.lastAccrual <= deadline)
  {
    ReadIsCurrent(s, call);
    LineStepShape(s, call, Read(s, call));
  }

  /** So a suspended borrower cannot be defaulted before the grace has passed since
      the suspension. */
  lemma SuspensionDefersDefault(reserve: int, custody: int, calls: seq<Call>, call: Call, b: Address, s: State)
    requires s == Exec(Genesis(reserve, custody), calls) && b in s.book.lines && IsHeld(s.book.lines[b])
    requires call.op.DefaultLine? && call.op.b == b && 0 < call.cfg.liquidationGrace
    ensures var since := LastSuspension(Genesis(reserve, custody), calls, b);
      since.Some? && (0 < since.value && call.now < since.value + call.cfg.liquidationGrace && call.now < U64_MAX
                      ==> Step(s, call).Err?)
  {
    SuspensionIsDated(reserve, custody, calls, b);
    if Step(s, call).Ok? {
      DefaultAwaitsGrace(s, call, b);
      CurrentIsCurrent(s, call.cfg, b, call.now);
    }
  }
}
