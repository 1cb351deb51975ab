/** The late fees of a borrower over whole runs of the ledger: what the repayment
    entrypoint charges, against the installments that were paid late. */
module LedgerInstallments {
  import opened Prelude
  import opened Accrual
  import opened Installments
  import opened Ledger
  import opened LedgerInvariants
  import LedgerPenalties

  /** Late fees charged to `b`. */
  function LateFees(events: seq<Event>, b: Address): int {
    if |events| == 0 then 0 else LateFees(events[..|events| - 1], b) + LateFeeIn(events[|events| - 1], b)
  }

  function LateFeeIn(e: Event, b: Address): int {
    if e.LateFeeCharged? && e.b == b then e.amount else 0
  }

  lemma LateFeesOne(events: seq<Event>, e: Event, b: Address)
    ensures LateFees(events + [e], b) == LateFees(events, b) + LateFeeIn(e, b)
  {
    assert (events + [e])[..|events|] == events;
  }

  lemma LateFeesTail(log: seq<Event>, more: seq<Event>, b: Address)
    ensures LateFees(log + more, b) == LateFees(log, b) + LateFees(more, b)
  {
    if |more| == 0 {
      assert log + more == log;
    } else {
      var init := more[..|more| - 1];
      LateFeesTail(log, init, b);
      assert log + more == log + init + [more[|more| - 1]];
      LateFeesOne(log + init, more[|more| - 1], b);
    }
  }

  predicate Charges(s: State, q: State, b: Address, late: int) {
    LateFees(q.events, b) == LateFees(s.events, b) + late
  }

  predicate Unaffected(s: State, q: State, b: Address) {
    Charges(s, q, b, 0) && ScheduleOf(q, b) == ScheduleOf(s, b)
  }

  lemma MaterializeUnaffected(s: State, x: Address, cur: Result<Line>, b: Address)
    requires x in s.book.lines && Materialize(s, x, cur).Ok?
    ensures Unaffected(s, Materialize(s, x, cur).value, b)
  {
    LateFeesTail(s.events, InterestEvents(x, s.book.lines[x], cur.value), b);
  }

  lemma UnaffectedTwice(s: State, t: State, q: State, b: Address)
    requires Unaffected(s, t, b) && Unaffected(t, q, b)
    ensures Unaffected(s, q, b)
  {
  }

  lemma {:induction false} AccrueEachUnaffected(s: State, cfg: Config, scope: Scope, bs: seq<Address>, now: u64, b: Address)
    requires AccrueEach(s, cfg, scope, bs, now).Ok?
    ensures Unaffected(s, AccrueEach(s, cfg, scope, bs, now).value, b)
  {
    if |bs| > 0 {
      var x := bs[|bs| - 1];
      AccrueEachUnaffected(s, cfg, scope, bs[..|bs| - 1], now, b);
      var before := AccrueEach(s, cfg, scope, bs[..|bs| - 1], now).value;
      if InScope(before, scope, x) {
        MaterializeUnaffected(before, x, Current(before, cfg, x, now), b);
        UnaffectedTwice(s, before, AccrueEach(s, cfg, scope, bs, now).value, b);
      }
    }
  }

  lemma BilledUnaffected(s: State, x: Address, line: Line, b: Address)
    requires x in s.book.lines
    ensures Unaffected(s, Billed(s, x, line), b)
  {
    LateFeesTail(s.events, InterestEvents(x, s.book.lines[x], line), b);
  }

  lemma CappedUnaffected(s: State, cfg: Config, x: Address, line: Line, amount: int, now: u64, b: Address)
    requires x in s.book.lines && Capped(s, cfg, x, line, amount, now).Ok?
    ensures Unaffected(s, Capped(s, cfg, x, line, amount, now).value, b)
  {
    var billed := Billed(s, x, line);
    BilledUnaffected(s, x, line, b);
    UnderCapShape(billed, cfg, x, line.utilized - s.book.lines[x].utilized, amount, now);
    if cfg.exposureCap.Some? {
      AccrueEachUnaffected(billed, cfg, Except(x), s.book.ids, now, b);
      UnaffectedTwice(s, billed, Capped(s, cfg, x, line, amount, now).value, b);
    }
  }

  lemma FinishDrawUnaffected(s1: State, cfg: Config, x: Address, line: Line, was: int, amount: int, now: u64, b: Address)
    requires FinishDraw(s1, cfg, x, line, was, amount, now).Ok?
    ensures Unaffected(s1, FinishDraw(s1, cfg, x, line, was, amount, now).value, b)
  {
    LateFeesOne(s1.events, Drawn(x, amount), b);
  }

  lemma DrawUnaffected(s: State, cfg: Config, x: Address, cur: Result<Line>, amount: int, collateral: int, now: u64, b: Address)
    requires (cur.Ok? ==> x in s.book.lines) && Draw(s, cfg, x, cur, amount, collateral, now).Ok?
    ensures Unaffected(s, Draw(s, cfg, x, cur, amount, collateral, now).value, b)
  {
    DrawShape(s, cfg, x, cur, amount, collateral, now);
    CappedUnaffected(s, cfg, x, cur.value, amount, now, b);
    var s1 := Capped(s, cfg, x, cur.value, amount, now).value;
    FinishDrawUnaffected(s1, cfg, x, cur.value, s.book.lines[x].utilized, amount, now, b);
  }

  /** A repayment passes its principal part through the schedule and publishes the
      late fee that comes out. */
  lemma RepayAdvances(s: State, cfg: Config, x: Address, cur: Result<Line>, amount: int, now: u64) returns (late: int)
    requires (cur.Ok? ==> x in s.book.lines) && Repay(s, cfg, x, cur, amount, now).Ok?
    ensures cur.Ok?
    ensures var q, principal := Repay(s, cfg, x, cur, amount, now).value, RepaymentOf(cur.value, amount).principal;
      && q.schedules.Keys == s.schedules.Keys
      && AdvanceSchedule(ScheduleOf(s, x), principal, FeePerInstallment(cfg), now) == Ok((ScheduleOf(q, x), late))
      && (forall b :: b in s.schedules && b != x ==> q.schedules[b] == s.schedules[b])
      && 0 <= late
      && q.events == s.events + InterestEvents(x, s.book.lines[x], cur.value) + LateFeeEvents(x, late)
                     + [Repaid(x, RepaymentOf(cur.value, amount).paid)]
  {
    var a := RepaymentOf(cur.value, amount);
    var s1 := TakePayment(Billed(s, x, cur.value), cfg, a).value;
    late := AdvanceSchedule(ScheduleOf(s1, x), a.principal, FeePerInstallment(cfg), now).value.1;
    AdvanceScheduleFee(ScheduleOf(s1, x), a.principal, FeePerInstallment(cfg), now);
  }

  lemma RepaymentEvents(log: seq<Event>, x: Address, was: Line, line: Line, late: nat, paid: int, b: Address)
    ensures LateFees(log + InterestEvents(x, was, line) + LateFeeEvents(x, late) + [Repaid(x, paid)], b)
         == LateFees(log, b) + if x == b then late else 0
  {
    LateFeesTail(log, InterestEvents(x, was, line), b);
    LateFeesTail(log + InterestEvents(x, was, line), LateFeeEvents(x, late), b);
    LateFeesOne(log + InterestEvents(x, was, line) + LateFeeEvents(x, late), Repaid(x, paid), b);
  }

  lemma RepayCharges(s: State, cfg: Config, x: Address, cur: Result<Line>, amount: int, now: u64, b: Address) returns (late: int)
    requires (cur.Ok? ==> x in s.book.lines) && Repay(s, cfg, x, cur, amount, now).Ok?
    ensures var q := Repay(s, cfg, x, cur, amount, now).value;
      if x != b then Unaffected(s, q, b)
      else
        && cur.Ok? && Charges(s, q, b, late)
        && AdvanceSchedule(ScheduleOf(s, b), RepaymentOf(cur.value, amount).principal, FeePerInstallment(cfg), now)
           == Ok((ScheduleOf(q, b), late))
  {
    late := RepayAdvances(s, cfg, x, cur, amount, now);
    RepaymentEvents(s.events, x, s.book.lines[x], cur.value, late, RepaymentOf(cur.value, amount).paid, b);
  }

  /** The calls that replace or drop the schedule of `b`. */
  predicate Resets(s: State, call: Call, b: Address) {
    match call.op
    case OpenLine(x, _, _, _) => x == b
    case CloseLine(x, _) => x == b
    case SetRepaymentSchedule(x, _, _, _) => x == b
    case SettleLiquidation(x, _, _, _) => x == b && IsClosed(Apply(s, call), b)
    case _ => false
  }

  predicate IsClosed(s: State, b: Address) {
    b in s.book.lines && s.book.lines[b].status == Closed
  }

  lemma NoLateFees(more: seq<Event>, b: Address)
    requires forall e :: e in more ==> !e.LateFeeCharged?
    ensures LateFees(more, b) == 0
  {
    if |more| > 0 {
      NoLateFees(more[..|more| - 1], b);
    }
  }

  lemma PublishedIsFree(call: Call, line: Line, b: Address)
    requires IsLineOp(call.op)
    ensures LateFees(Published(call, line), b) == 0
  {
    NoLateFees(Published(call, line), b);
  }

  lemma LineOpSchedules(s: State, call: Call, read: Result<Line>, b: Address)
    requires IsLineOp(call.op) && (read.Ok? ==> call.op.b in s.book.lines) && LineStep(s, call, read).Ok?
    requires call.op.b == b ==> !call.op.CloseLine?
    requires call.op.b == b && call.op.SettleLiquidation? ==> Next(call, read.value).status != Closed
    ensures ScheduleOf(LineStep(s, call, read).value, b) == ScheduleOf(s, b)
  {
    assert LineStep(s, call, read).value.schedules == Record(s, call, Next(call, read.value)).schedules;
  }

  lemma LineOpIsFree(log: seq<Event>, call: Call, was: Line, line: Line, b: Address)
    requires IsLineOp(call.op)
    ensures LateFees(log + InterestEvents(call.op.b, was, line) + Published(call, line), b) == LateFees(log, b)
  {
    LateFeesTail(log, InterestEvents(call.op.b, was, line), b);
    LateFeesTail(log + InterestEvents(call.op.b, was, line), Published(call, line), b);
    PublishedIsFree(call, line, b);
  }

  lemma LineOpUnaffected(s: State, call: Call, read: Result<Line>, b: Address)
    requires IsLineOp(call.op) && (read.Ok? ==> call.op.b in s.book.lines) && LineStep(s, call, read).Ok?
    requires call.op.b == b ==> !call.op.CloseLine?
    requires call.op.b == b && call.op.SettleLiquidation? ==> !IsClosed(LineStep(s, call, read).value, b)
    ensures Unaffected(s, LineStep(s, call, read).value, b)
  {
    var x, line := call.op.b, read.value;
    LineStepShape(s, call, read);
    LineOpIsFree(s.events, call, s.book.lines[x], line, b);
    StoredLine(s, call, line);
    LineOpSchedules(s, call, read, b);
  }

  lemma StoredLine(s: State, call: Call, line: Line)
    requires IsLineOp(call.op) && call.op.b in s.book.lines && Stored(s, call, line).Ok?
    ensures call.op.b in Stored(s, call, line).value.lines && Stored(s, call, line).value.lines[call.op.b] == Next(call, line)
  {
  }

  /** The principal part of a repayment call. */
  function PrincipalPaid(s: State, b: Address, amount: int, cur: Result<Line>): int {
    if cur.Ok? then RepaymentOf(cur.value, amount).principal else 0
  }

  /** What a successful call adds to the receipts of `b`. */
  function ReceiptOf(s: State, call: Call, b: Address): seq<Receipt> {
    if call.op.RepayCredit? && call.op.b == b && Step(s, call).Ok?
    then [Receipt(call.now, PrincipalPaid(s, b, call.op.amount, Current(s, call.cfg, b, call.now)))]
    else []
  }

  predicate RepaysFor(call: Call, b: Address) {
    call.op.RepayCredit? && call.op.b == b
  }

  /** A successful call that is no repayment of `b` and does not reset its schedule
      leaves schedule and late fees alone; a repayment runs its principal part
      through the schedule and charges what comes out. */
  lemma StepCharges(s: State, call: Call, b: Address) returns (late: int)
    requires Step(s, call).Ok? && !Resets(s, call, b)
    ensures var q, cur := Step(s, call).value, Current(s, call.cfg, b, call.now);
      if !RepaysFor(call, b) then Unaffected(s, q, b)
      else
        && Charges(s, q, b, late)
        && AdvanceSchedule(ScheduleOf(s, b), PrincipalPaid(s, b, call.op.amount, cur), FeePerInstallment(call.cfg), call.now)
           == Ok((ScheduleOf(q, b), late))
  {
    var Call(op, now, cfg) := call;
    late := 0;
    if IsLineOp(op) {
      ReadIsCurrent(s, call);
      LineOpUnaffected(s, call, Read(s, call), b);
    } else if IsSideOp(op) {
    } else {
      match op
      case OpenLine(x, _, _, _) => LateFeesOne(s.events, LineOpened(x), b);
      case DrawCredit(x, amount, collateral) =>
        CurrentIsCurrent(s, cfg, x, now);
        DrawUnaffected(s, cfg, x, Current(s, cfg, x, now), amount, collateral, now, b);
      case RepayCredit(x, amount) =>
        CurrentIsCurrent(s, cfg, x, now);
        late := RepayCharges(s, cfg, x, Current(s, cfg, x, now), amount, now, b);
      case AccrueBatch(bs) => AccrueEachUnaffected(s, cfg, ActiveOnly, bs, now, b);
    }
  }

  /** Opening and closing a line drop its schedule; setting one stores it. */
  lemma ResetsReplaceSchedule(s: State, call: Call, b: Address, q: State)
    requires Step(s, call) == Ok(q) && Resets(s, call, b)
    ensures ScheduleOf(q, b)
         == if call.op.SetRepaymentSchedule? then Some(Schedule(call.op.perPeriod, call.op.period, call.op.firstDue)) else None
  {
    if IsLineOp(call.op) {
      ReadIsCurrent(s, call);
      LineStepShape(s, call, Read(s, call));
      StoredLine(s, call, Read(s, call).value);
      assert q.schedules == Record(s, call, Next(call, Read(s, call).value)).schedules;
    }
  }

  /** A schedule can be set for any line there is, with a positive amount and period. */
  lemma SetScheduleSucceedsIff(s: State, cfg: Config, b: Address, amount: int, period: u64, firstDue: u64, now: u64)
    ensures Step(s, Call(SetRepaymentSchedule(b, amount, period, firstDue), now, cfg)).Ok?
       <==> b in s.book.lines && ValidSchedule(Schedule(amount, period, firstDue))
  {
  }

  // ---- Runs ---------------------------------------------------------------

  /** The principal parts of the successful repayments of `b`, in order. */
  function Receipts(s: State, calls: seq<Call>, b: Address): seq<Receipt> {
    if |calls| == 0 then []
    else Receipts(s, calls[..|calls| - 1], b) + ReceiptOf(Exec(s, calls[..|calls| - 1]), calls[|calls| - 1], b)
  }

  /** Over the run the schedule of `b` is not reset, and every repayment of `b` is
      made under the same fee per installment. */
  ghost predicate SteadyRun(s: State, calls: seq<Call>, b: Address, fee: nat) {
    |calls| == 0
    || (SteadyRun(s, calls[..|calls| - 1], b, fee) && SteadyCall(Exec(s, calls[..|calls| - 1]), calls[|calls| - 1], b, fee))
  }

  predicate SteadyCall(s: State, call: Call, b: Address, fee: nat) {
    && (Step(s, call).Ok? ==> !Resets(s, call, b))
    && (RepaysFor(call, b) ==> LedgerPenalties.FeeIs(call.cfg, fee))
  }

  /** Running the receipts through the schedule of `b` in `s` leads to that in `q`,
      and charges what was charged in between. */
  ghost predicate Explains(rs: seq<Receipt>, s: State, q: State, b: Address, fee: nat) {
    AfterReceipts(ScheduleOf(s, b), fee, rs) == Ok((ScheduleOf(q, b), LateFees(q.events, b) - LateFees(s.events, b)))
  }

  lemma ExplainedByOne(s: State, q: State, b: Address, fee: nat, r: Receipt, late: int)
    requires AdvanceSchedule(ScheduleOf(s, b), r.principal, fee, r.now) == Ok((ScheduleOf(q, b), late)) && Charges(s, q, b, late)
    ensures Explains([r], s, q, b, fee)
  {
    OneReceipt(ScheduleOf(s, b), fee, r);
  }

  lemma ExplainedByNone(s: State, q: State, b: Address, fee: nat)
    requires Unaffected(s, q, b)
    ensures Explains([], s, q, b, fee)
  {
  }

  lemma CallExplained(s: State, call: Call, b: Address, fee: nat)
    requires SteadyCall(s, call, b, fee)
    ensures Explains(ReceiptOf(s, call, b), s, Apply(s, call), b, fee)
  {
    if Step(s, call).Err? {
      ExplainedByNone(s, s, b, fee);
    } else {
      var late := StepCharges(s, call, b);
      if RepaysFor(call, b) {
        LedgerPenalties.PenaltiesOf(call.cfg, 0, fee);
        ExplainedByOne(s, Step(s, call).value, b, fee, ReceiptOf(s, call, b)[0], late);
      } else {
        ExplainedByNone(s, Step(s, call).value, b, fee);
      }
    }
  }

  lemma ExplainedTwice(rs: seq<Receipt>, more: seq<Receipt>, s: State, t: State, q: State, b: Address, fee: nat)
    requires Explains(rs, s, t, b, fee) && Explains(more, t, q, b, fee)
    ensures Explains(rs + more, s, q, b, fee)
  {
    AfterMoreReceipts(ScheduleOf(s, b), fee, rs, more);
  }

  lemma {:induction false} RunExplained(s: State, calls: seq<Call>, b: Address, fee: nat)
    requires SteadyRun(s, calls, b, fee)
    ensures Explains(Receipts(s, calls, b), s, Exec(s, calls), b, fee)
  {
    if |calls| > 0 {
      var init, call := calls[..|calls| - 1], calls[|calls| - 1];
      var before := Exec(s, init);
      RunExplained(s, init, b, fee);
      CallExplained(before, call, b, fee);
      ExplainedTwice(Receipts(s, init, b), ReceiptOf(before, call, b), s, before, Apply(before, call), b, fee);
    }
  }

  /** Over any run of calls in which the schedule of `b` is not reset, what `b` is
      charged in late fees is the fee times the number of installments paid after
      their own due date, and the stored schedule has moved past exactly the
      installments paid. */
  lemma LateFeesMatchPaidLate(s: State, calls: seq<Call>, b: Address, fee: nat)
    requires b in s.schedules && ValidSchedule(s.schedules[b]) && SteadyRun(s, calls, b, fee)
    ensures var q, schedule := Exec(s, calls), s.schedules[b];
      var ps := PaymentsOf(schedule.amountPerPeriod, Receipts(s, calls, b));
      && LateFees(q.events, b) - LateFees(s.events, b) == fee * |PaidLate(schedule.nextDue, schedule.period, ps)|
      && ScheduleOf(q, b) == Some(schedule.(nextDue := DueAfter(schedule.nextDue, schedule.period, ps)))
  {
    RunExplained(s, calls, b, fee);
    FeesMatchPaidLate(s.schedules[b], fee, Receipts(s, calls, b));
  }
}
