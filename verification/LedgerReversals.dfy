/** The audit trail of draws: what the reversals of one (borrower, timestamp) take
    back together, against what was drawn there. */
module LedgerReversals {
  import opened Prelude
  import opened Accrual
  import opened Ledger
  import opened LedgerInvariants

  type Key = (Address, u64)

  /** What is on record as reversed. */
  function OnRecord(s: State, key: Key): int {
    if key in s.audit.reversed then s.audit.reversed[key] else 0
  }

  function DrawnAt(s: State, key: Key): int {
    if key in s.audit.drawn then s.audit.drawn[key] else 0
  }

  predicate Reverses(call: Call, key: Key) {
    call.op.ReverseDrawn? && (call.op.b, call.op.originalTs) == key
  }

  predicate DrawsAt(call: Call, key: Key) {
    call.op.DrawCredit? && (call.op.b, call.now) == key
  }

  /** A successful reversal takes a positive amount, at most an hour after the draw,
      and no more than is left of the recorded draw. */
  predicate Admissible(s: State, call: Call, key: Key) {
    && Reverses(call, key) && 0 < call.op.amount && call.now <= key.1 + 3_600
    && key in s.audit.drawn && OnRecord(s, key) + call.op.amount <= s.audit.drawn[key]
  }

  /** What a call does to one entry of the trail. */
  predicate Audits(s: State, q: State, call: Call, key: Key) {
    && OnRecord(q, key) == OnRecord(s, key) + (if Reverses(call, key) then call.op.amount else 0)
    && DrawnAt(q, key) == (if DrawsAt(call, key) then call.op.amount else DrawnAt(s, key))
    && (key in q.audit.drawn <==> key in s.audit.drawn || DrawsAt(call, key))
    && (Reverses(call, key) ==> Admissible(s, call, key))
    && (DrawsAt(call, key) ==> 0 < call.op.amount)
  }

  lemma {:induction false} LoopKeepsAudit(s: State, cfg: Config, scope: Scope, bs: seq<Address>, now: u64)
    requires AccrueEach(s, cfg, scope, bs, now).Ok?
    ensures AccrueEach(s, cfg, scope, bs, now).value.audit == s.audit
  {
    if |bs| > 0 {
      LoopKeepsAudit(s, cfg, scope, bs[..|bs| - 1], now);
    }
  }

  lemma CappedKeepsAudit(s: State, cfg: Config, b: Address, line: Line, amount: int, now: u64)
    requires b in s.book.lines && Capped(s, cfg, b, line, amount, now).Ok?
    ensures Capped(s, cfg, b, line, amount, now).value.audit == s.audit
  {
    UnderCapShape(Billed(s, b, line), cfg, b, line.utilized - s.book.lines[b].utilized, amount, now);
    if cfg.exposureCap.Some? {
      LoopKeepsAudit(Billed(s, b, line), cfg, Except(b), s.book.ids, now);
    }
  }

  lemma DrawAudit(s: State, cfg: Config, b: Address, cur: Result<Line>, amount: int, collateral: int, now: u64)
    requires IsCurrent(s, b, cur) && Draw(s, cfg, b, cur, amount, collateral, now).Ok?
    ensures Draw(s, cfg, b, cur, amount, collateral, now).value.audit
         == s.audit.(drawn := RecordDraw(s.audit.drawn, (b, now), amount)) && 0 < amount
  {
    DrawShape(s, cfg, b, cur, amount, collateral, now);
    CappedKeepsAudit(s, cfg, b, cur.value, amount, now);
  }

  lemma ReversalAudit(s: State, call: Call, line: Line, q: State)
    requires call.op.ReverseDrawn? && Precheck(s, call).Pass? && Admit(s, call, line).Pass?
    requires q.audit == s.audit.(reversed := AddReversal(s.audit.reversed, (call.op.b, call.op.originalTs), call.op.amount))
    ensures forall key: Key :: Audits(s, q, call, key)
  {
  }

  lemma LineOpAudit(s: State, call: Call, read: Result<Line>, key: Key)
    requires IsLineOp(call.op) && IsCurrent(s, call.op.b, read) && LineStep(s, call, read).Ok?
    ensures Audits(s, LineStep(s, call, read).value, call, key)
  {
    var q := LineStep(s, call, read).value;
    LineStepShape(s, call, read);
    assert q.audit == Record(s, call, Next(call, read.value)).audit;
    if call.op.ReverseDrawn? {
      ReversalAudit(s, call, read.value, q);
    }
  }

  lemma RepayKeepsAudit(s: State, cfg: Config, b: Address, cur: Result<Line>, amount: int, now: u64)
    requires IsCurrent(s, b, cur) && Repay(s, cfg, b, cur, amount, now).Ok?
    ensures Repay(s, cfg, b, cur, amount, now).value.audit == s.audit
  {
  }

  /** Every call leaves the trail alone, but for a draw, which replaces the entry of
      its moment, and a reversal, which adds to what is on record. */
  lemma StepAudits(s: State, call: Call, key: Key, q: State)
    requires Step(s, call) == Ok(q)
    ensures Audits(s, q, call, key)
  {
    var Call(op, now, cfg) := call;
    if IsLineOp(op) {
      ReadIsCurrent(s, call);
      LineOpAudit(s, call, Read(s, call), key);
    } else if IsSideOp(op) {
      assert q.audit == s.audit;
    } else if op.OpenLine? {
      assert q.audit == s.audit;
    } else if op.DrawCredit? {
      CurrentIsCurrent(s, cfg, op.b, now);
      DrawAudit(s, cfg, op.b, Current(s, cfg, op.b, now), op.amount, op.collateral, now);
    } else if op.RepayCredit? {
      CurrentIsCurrent(s, cfg, op.b, now);
      RepayKeepsAudit(s, cfg, op.b, Current(s, cfg, op.b, now), op.amount, now);
    } else {
      LoopKeepsAudit(s, cfg, ActiveOnly, op.bs, now);
    }
  }

  // ---- Runs ---------------------------------------------------------------

  /** What a call, if it succeeds, reverses of `key`, and draws there. */
  function ReversedBy(s: State, call: Call, key: Key): int {
    if Reverses(call, key) && Step(s, call).Ok? then call.op.amount else 0
  }

  function DrawnBy(s: State, call: Call, key: Key): int {
    if DrawsAt(call, key) && Step(s, call).Ok? then call.op.amount else 0
  }

  /** All successful reversals of `key` together. */
  function ReversedIn(s: State, calls: seq<Call>, key: Key): int {
    if |calls| == 0 then 0
    else ReversedIn(s, calls[..|calls| - 1], key) + ReversedBy(Exec(s, calls[..|calls| - 1]), calls[|calls| - 1], key)
  }

  /** The largest single draw at `key`. */
  function LargestDraw(s: State, calls: seq<Call>, key: Key): int {
    if |calls| == 0 then 0
    else Max(LargestDraw(s, calls[..|calls| - 1], key), DrawnBy(Exec(s, calls[..|calls| - 1]), calls[|calls| - 1], key))
  }

  /** A call, successful or not, by its amounts alone. */
  predicate Moves(s: State, q: State, key: Key, reversed: int, drawn: int) {
    && OnRecord(q, key) == OnRecord(s, key) + reversed
    && (reversed == 0 || OnRecord(s, key) + reversed <= DrawnAt(s, key))
    && DrawnAt(q, key) == (if drawn > 0 then drawn else DrawnAt(s, key))
    && 0 <= reversed && 0 <= drawn
  }

  lemma ApplyMoves(s: State, call: Call, key: Key, q: State)
    requires q == Apply(s, call)
    ensures Moves(s, q, key, ReversedBy(s, call, key), DrawnBy(s, call, key))
  {
    if Step(s, call).Ok? {
      StepAudits(s, call, key, q);
    }
  }

  /** What is on record is the sum of the successful reversals, and never exceeds the
      largest single draw ever made at that moment. */
  lemma {:induction false} RunMoves(s: State, calls: seq<Call>, key: Key, q: State)
    requires OnRecord(s, key) == 0 == DrawnAt(s, key) && q == Exec(s, calls)
    ensures OnRecord(q, key) == ReversedIn(s, calls, key) <= LargestDraw(s, calls, key)
    ensures 0 <= DrawnAt(q, key) <= LargestDraw(s, calls, key)
  {
    if |calls| > 0 {
      var before := Exec(s, calls[..|calls| - 1]);
      RunMoves(s, calls[..|calls| - 1], key, before);
      ApplyMoves(before, calls[|calls| - 1], key, q);
    }
  }

  /** Over every run, however the reversals of a draw are split, together they take
      back no more than was drawn at that moment in one draw. */
  lemma ReversalsStayWithinDraw(reserve: int, custody: int, calls: seq<Call>, key: Key)
    ensures OnRecord(Exec(Genesis(reserve, custody), calls), key) == ReversedIn(Genesis(reserve, custody), calls, key)
    ensures ReversedIn(Genesis(reserve, custody), calls, key) <= LargestDraw(Genesis(reserve, custody), calls, key)
  {
    RunMoves(Genesis(reserve, custody), calls, key, Exec(Genesis(reserve, custody), calls));
  }

  /** What is on record stays within the draw on record, but for a second draw at the
      same moment that is smaller than what was already reversed: it replaces the
      draw and not the reversals. */
  lemma BoundIsKeptIff(s: State, call: Call, key: Key, q: State)
    requires Step(s, call) == Ok(q) && OnRecord(s, key) <= DrawnAt(s, key)
    ensures OnRecord(q, key) <= DrawnAt(q, key) <==> !(DrawsAt(call, key) && call.op.amount < OnRecord(s, key))
  {
    StepAudits(s, call, key, q);
  }

  /** No successful draw of the run at `key` is below what was reversed there. */
  ghost predicate NoSmallRedraw(s: State, calls: seq<Call>, key: Key) {
    |calls| == 0
    || (NoSmallRedraw(s, calls[..|calls| - 1], key) && !RedrawsLess(Exec(s, calls[..|calls| - 1]), calls[|calls| - 1], key))
  }

  predicate RedrawsLess(s: State, call: Call, key: Key) {
    DrawsAt(call, key) && Step(s, call).Ok? && call.op.amount < OnRecord(s, key)
  }

  lemma {:induction false} RunKeepsBound(s: State, calls: seq<Call>, key: Key)
    requires OnRecord(s, key) <= DrawnAt(s, key) && NoSmallRedraw(s, calls, key)
    ensures OnRecord(Exec(s, calls), key) <= DrawnAt(Exec(s, calls), key)
  {
    if |calls| > 0 {
      var before, call := Exec(s, calls[..|calls| - 1]), calls[|calls| - 1];
      RunKeepsBound(s, calls[..|calls| - 1], key);
      if Step(before, call).Ok? {
        BoundIsKeptIff(before, call, key, Step(before, call).value);
      }
    }
  }
}
