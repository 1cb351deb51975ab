/** What the protocol fees of a borrower were charged on: never more interest than
    was credited to the debt. */
module LedgerInterest {
  import opened Prelude
  import opened Accrual
  import opened Ledger
  import opened LedgerInvariants
  import opened LedgerSoundness
  import opened LedgerReplay
  import opened LedgerFees

  // ---- In the log ---------------------------------------------------------

  function AmountOf(e: Event): int {
    match e
    case LineOpened(_) => 0
    case LineStatus(_, _) => 0
    case InterestAccrued(_, amount) => amount
    case Drawn(_, amount) => amount
    case Repaid(_, amount) => amount
    case DebtForgiven(_, amount) => amount
    case LiquidationSettled(_, amount) => amount
    case DrawReversed(_, amount) => amount
    case LateFeeCharged(_, amount) => amount
  }

  ghost predicate NonNegative(events: seq<Event>) {
    forall e :: e in events ==> 0 <= AmountOf(e)
  }

  /** Interest credited to the debt of `b`. */
  function CreditedTo(events: seq<Event>, b: Address): int {
    if |events| == 0 then 0
    else
      var e := events[|events| - 1];
      CreditedTo(events[..|events| - 1], b) + if e.InterestAccrued? && e.b == b then e.amount else 0
  }

  /** Interest that the repayments of `b` served: of each what came first. */
  function ServedBy(events: seq<Event>, b: Address): int {
    if |events| == 0 then 0
    else
      var init, e := events[..|events| - 1], events[|events| - 1];
      ServedBy(init, b) + if e.Repaid? && e.b == b then Min(e.amount, Replay(init, b).interest) else 0
  }

  /** Interest forgiven, recovered, or written off with a closed line. */
  function Dropped(events: seq<Event>, b: Address): int {
    if |events| == 0 then 0
    else
      var init, e := events[..|events| - 1], events[|events| - 1];
      Dropped(init, b) + if e.b == b then DroppedBy(e, Replay(init, b)) else 0
  }

  function DroppedBy(e: Event, v: View): int {
    match e
    case LineOpened(_) => if v.closed then v.interest else 0
    case DebtForgiven(_, amount) => Min(amount, v.interest)
    case LiquidationSettled(_, amount) => Min(amount, v.interest)
    case _ => 0
  }

  /** In any log, interest is credited, served, dropped or still owed. */
  lemma {:induction false} InterestBalances(events: seq<Event>, b: Address)
    ensures ServedBy(events, b) + Dropped(events, b) + Replay(events, b).interest == CreditedTo(events, b)
  {
    if |events| > 0 {
      InterestBalances(events[..|events| - 1], b);
    }
  }

  lemma {:induction false} InterestStaysNonNegative(events: seq<Event>, b: Address)
    requires NonNegative(events)
    ensures 0 <= ServedBy(events, b) && 0 <= Dropped(events, b) && 0 <= Replay(events, b).interest
  {
    if |events| > 0 {
      assert events[|events| - 1] in events;
      InterestStaysNonNegative(events[..|events| - 1], b);
    }
  }

  lemma {:induction false} ServedGrows(events: seq<Event>, n: nat, b: Address)
    requires n <= |events| && NonNegative(events)
    ensures ServedBy(events[..n], b) <= ServedBy(events, b)
  {
    if n < |events| {
      var init := events[..|events| - 1];
      assert events[|events| - 1] in events && init[..n] == events[..n];
      InterestStaysNonNegative(init, b);
      ServedGrows(init, n, b);
    } else {
      assert events[..n] == events;
    }
  }

  // ---- In the ledger ------------------------------------------------------

  /** The log of `q` continues that of `s`, with no negative amount. */
  ghost predicate Continues(s: State, q: State) {
    s.events <= q.events && NonNegative(q.events)
  }

  lemma AppendedIsNonNegative(s: State, q: State, more: seq<Event>)
    requires NonNegative(s.events) && NonNegative(more) && q.events == s.events + more
    ensures Continues(s, q)
  {
  }

  lemma {:induction false} LoopContinues(s: State, cfg: Config, scope: Scope, bs: seq<Address>, now: u64)
    requires NonNegative(s.events) && AccrueEach(s, cfg, scope, bs, now).Ok?
    ensures Continues(s, AccrueEach(s, cfg, scope, bs, now).value)
  {
    if |bs| > 0 {
      var b := bs[|bs| - 1];
      LoopContinues(s, cfg, scope, bs[..|bs| - 1], now);
      var before := AccrueEach(s, cfg, scope, bs[..|bs| - 1], now).value;
      if InScope(before, scope, b) {
        CurrentIsCurrent(before, cfg, b, now);
        MaterializeContinues(before, b, Current(before, cfg, b, now));
      }
    }
  }

  lemma MaterializeContinues(s: State, b: Address, cur: Result<Line>)
    requires NonNegative(s.events) && b in s.book.lines && IsCurrent(s, b, cur) && Materialize(s, b, cur).Ok?
    ensures Continues(s, Materialize(s, b, cur).value)
  {
  }

  lemma CappedContinues(s: State, cfg: Config, b: Address, line: Line, amount: int, now: u64)
    requires NonNegative(s.events) && b in s.book.lines && Grown(s.book.lines[b], line)
    requires Capped(s, cfg, b, line, amount, now).Ok?
    ensures Continues(s, Capped(s, cfg, b, line, amount, now).value)
  {
    var billed := Billed(s, b, line);
    AppendedIsNonNegative(s, billed, InterestEvents(b, s.book.lines[b], line));
    UnderCapShape(billed, cfg, b, line.utilized - s.book.lines[b].utilized, amount, now);
    if cfg.exposureCap.Some? {
      LoopContinues(billed, cfg, Except(b), s.book.ids, now);
    }
  }

  lemma DrawContinues(s: State, cfg: Config, b: Address, cur: Result<Line>, amount: int, collateral: int, now: u64)
    requires NonNegative(s.events) && IsCurrent(s, b, cur) && Draw(s, cfg, b, cur, amount, collateral, now).Ok?
    ensures Continues(s, Draw(s, cfg, b, cur, amount, collateral, now).value)
  {
    DrawShape(s, cfg, b, cur, amount, collateral, now);
    CappedContinues(s, cfg, b, cur.value, amount, now);
    var s1 := Capped(s, cfg, b, cur.value, amount, now).value;
    FinishDrawShape(s1, cfg, b, cur.value, s.book.lines[b].utilized, amount, now);
    AppendedIsNonNegative(s1, Draw(s, cfg, b, cur, amount, collateral, now).value, [Drawn(b, amount)]);
  }

  lemma RepayContinues(s: State, cfg: Config, b: Address, cur: Result<Line>, amount: int, now: u64)
    requires NonNegative(s.events) && IsCurrent(s, b, cur) && Repay(s, cfg, b, cur, amount, now).Ok?
    ensures Continues(s, Repay(s, cfg, b, cur, amount, now).value)
  {
    var fee, late := RepayEvents(s, cfg, b, cur, amount, now);
    var paid := RepaymentOf(cur.value, amount).paid;
    var more := InterestEvents(b, s.book.lines[b], cur.value) + LateFeeEvents(b, late) + [Repaid(b, paid)];
    assert Repay(s, cfg, b, cur, amount, now).value.events == s.events + more;
    AppendedIsNonNegative(s, Repay(s, cfg, b, cur, amount, now).value, more);
  }

  lemma PublishedIsNonNegative(s: State, call: Call, line: Line)
    requires IsLineOp(call.op) && Precheck(s, call).Pass? && SoundLine(line)
    ensures NonNegative(Published(call, line))
  {
  }

  lemma LineOpContinues(s: State, call: Call, read: Result<Line>)
    requires NonNegative(s.events) && IsLineOp(call.op) && IsCurrent(s, call.op.b, read) && LineStep(s, call, read).Ok?
    requires read.Ok? ==> SoundLine(read.value)
    ensures Continues(s, LineStep(s, call, read).value)
  {
    LineStepShape(s, call, read);
    PublishedIsNonNegative(s, call, read.value);
    var more := InterestEvents(call.op.b, s.book.lines[call.op.b], read.value) + Published(call, read.value);
    assert LineStep(s, call, read).value.events == s.events + more;
    AppendedIsNonNegative(s, LineStep(s, call, read).value, more);
  }

  lemma ReadIsSound(s: State, call: Call)
    requires Sound(s) && IsLineOp(call.op)
    ensures IsCurrent(s, call.op.b, Read(s, call)) && (Read(s, call).Ok? ==> SoundLine(Read(s, call).value))
  {
    ReadIsCurrent(s, call);
    if Read(s, call).Ok? {
      GrownIsSound(s.book.lines[call.op.b], Read(s, call).value);
    }
  }

  lemma StepContinues(s: State, call: Call, q: State)
    requires Sound(s) && NonNegative(s.events) && Step(s, call) == Ok(q)
    ensures Continues(s, q)
  {
    var Call(op, now, cfg) := call;
    if IsLineOp(op) {
      ReadIsSound(s, call);
      LineOpContinues(s, call, Read(s, call));
    } else if IsSideOp(op) {
      assert q.events == s.events;
    } else if op.OpenLine? {
      assert q.events == s.events + [LineOpened(op.b)];
    } else if op.DrawCredit? {
      CurrentIsCurrent(s, cfg, op.b, now);
      DrawContinues(s, cfg, op.b, Current(s, cfg, op.b, now), op.amount, op.collateral, now);
    } else if op.RepayCredit? {
      CurrentIsCurrent(s, cfg, op.b, now);
      RepayContinues(s, cfg, op.b, Current(s, cfg, op.b, now), op.amount, now);
    } else {
      LoopContinues(s, cfg, ActiveOnly, op.bs, now);
    }
  }

  // ---- The fees -----------------------------------------------------------

  /** The protocol fee a repayment of `b` was charged. */
  function FeeOnInterest(call: Call, s: State, q: State, b: Address): int {
    if call.op.RepayCredit? && call.op.b == b then FeesOf(call, s, q)[0].amount else 0
  }

  function FeesOnInterest(s: State, calls: seq<Call>, b: Address): int {
    if |calls| == 0 then 0
    else
      FeesOnInterest(s, calls[..|calls| - 1], b)
      + FeeOnInterest(calls[|calls| - 1], Exec(s, calls[..|calls| - 1]), Exec(s, calls), b)
  }

  /** A repayment serves exactly the interest part of the payment. */
  lemma RepaymentServes(s: State, cfg: Config, b: Address, cur: Result<Line>, amount: int, now: u64, q: State)
    requires IsCurrent(s, b, cur) && Repay(s, cfg, b, cur, amount, now) == Ok(q) && Tracks(s, b, Accrued)
    requires cur.Ok? ==> SoundLine(cur.value)
    ensures cur.Ok? && ServedBy(q.events, b) == ServedBy(s.events, b) + RepaymentOf(cur.value, amount).interest
  {
    var fee, late := RepayEvents(s, cfg, b, cur, amount, now);
    RepayIsPositive(s, cfg, b, cur, amount, now);
    PaymentServes(s.events, q.events, b, s.book.lines[b], cur.value, late, amount);
  }

  lemma RepayIsPositive(s: State, cfg: Config, b: Address, cur: Result<Line>, amount: int, now: u64)
    requires (cur.Ok? ==> b in s.book.lines) && Repay(s, cfg, b, cur, amount, now).Ok?
    ensures 0 < amount
  {
  }

  lemma ServedOne(events: seq<Event>, e: Event, b: Address)
    ensures ServedBy(events + [e], b)
         == ServedBy(events, b) + if e.Repaid? && e.b == b then Min(e.amount, Replay(events, b).interest) else 0
  {
    assert (events + [e])[..|events|] == events;
  }

  lemma ServedOfInterest(log: seq<Event>, b: Address, was: Line, line: Line)
    ensures ServedBy(log + InterestEvents(b, was, line), b) == ServedBy(log, b)
  {
    if line.utilized != was.utilized {
      ServedOne(log, InterestAccrued(b, line.utilized - was.utilized), b);
    } else {
      assert log + InterestEvents(b, was, line) == log;
    }
  }

  lemma ServedOfLateFee(log: seq<Event>, b: Address, late: int)
    ensures ServedBy(log + LateFeeEvents(b, late), b) == ServedBy(log, b)
    ensures Replay(log + LateFeeEvents(b, late), b) == Replay(log, b)
  {
    if late > 0 {
      ServedOne(log, LateFeeCharged(b, late), b);
      ReplayOne(log, LateFeeCharged(b, late), b);
    } else {
      assert log + LateFeeEvents(b, late) == log;
    }
  }

  lemma ServedOfRepayment(log: seq<Event>, b: Address, was: Line, line: Line, late: int, paid: int)
    ensures ServedBy(log + InterestEvents(b, was, line) + LateFeeEvents(b, late) + [Repaid(b, paid)], b)
         == ServedBy(log, b) + Min(paid, Replay(log, b).interest + line.utilized - was.utilized)
  {
    var billed := log + InterestEvents(b, was, line);
    ReplayInterest(log, b, was, line, b);
    ServedOfInterest(log, b, was, line);
    ServedOfLateFee(billed, b, late);
    ServedOne(billed + LateFeeEvents(b, late), Repaid(b, paid), b);
  }

  lemma InterestPart(line: Line, amount: int)
    requires SoundLine(line) && 0 < amount
    ensures Min(RepaymentOf(line, amount).paid, line.accrued) == RepaymentOf(line, amount).interest
  {
  }

  lemma PaymentServes(events: seq<Event>, log: seq<Event>, b: Address, was: Line, line: Line, late: int, amount: int)
    requires SoundLine(line) && 0 < amount && Grown(was, line) && Replay(events, b).interest == was.accrued
    requires log == events + InterestEvents(b, was, line) + LateFeeEvents(b, late) + [Repaid(b, RepaymentOf(line, amount).paid)]
    ensures ServedBy(log, b) == ServedBy(events, b) + RepaymentOf(line, amount).interest
  {
    ServedOfRepayment(events, b, was, line, late, RepaymentOf(line, amount).paid);
    InterestPart(line, amount);
  }

  lemma FeeBelowInterest(line: Line, amount: int, bps: Bps, fee: int)
    requires SoundLine(line) && 0 < amount && ProtocolFee(RepaymentOf(line, amount), bps) == Ok(fee)
    ensures fee <= RepaymentOf(line, amount).interest
  {
    var a := RepaymentOf(line, amount);
    Arith.MulMono(bps, 10_000, a.interest);
    Arith.DivBound(a.interest * bps, 10_000, a.interest);
  }

  lemma RepaymentFeeIsServed(s: State, call: Call, b: Address, q: State)
    requires Sound(s) && Tracks(s, b, Accrued) && RepaysFor(call, b) && Step(s, call) == Ok(q)
    ensures FeeOnInterest(call, s, q, b) <= ServedBy(q.events, b) - ServedBy(s.events, b)
  {
    var cur := Current(s, call.cfg, b, call.now);
    var fee, late := RepayCollects(s, call, q);
    RepayStep(s, call, q);
    GrownIsSound(s.book.lines[b], cur.value);
    RepaymentServes(s, call.cfg, b, cur, call.op.amount, call.now, q);
    RepayIsPositive(s, call.cfg, b, cur, call.op.amount, call.now);
    FeeBelowInterest(cur.value, call.op.amount, call.cfg.protocolFee, fee);
  }

  predicate RepaysFor(call: Call, b: Address) {
    call.op.RepayCredit? && call.op.b == b
  }

  lemma FeeIsServed(s: State, call: Call, b: Address, q: State)
    requires Sound(s) && NonNegative(s.events) && Tracks(s, b, Accrued) && q == Apply(s, call)
    ensures NonNegative(q.events)
    ensures FeeOnInterest(call, s, q, b) <= ServedBy(q.events, b) - ServedBy(s.events, b)
  {
    if Step(s, call).Ok? {
      StepContinues(s, call, q);
      if RepaysFor(call, b) {
        RepaymentFeeIsServed(s, call, b, q);
      } else {
        assert q.events[..|s.events|] == s.events;
        ServedGrows(q.events, |s.events|, b);
      }
    }
  }

  lemma {:induction false} FeesAreServed(reserve: int, custody: int, calls: seq<Call>, b: Address, q: State)
    requires CoveredRun(Genesis(reserve, custody), calls) && q == Exec(Genesis(reserve, custody), calls)
    ensures NonNegative(q.events) && FeesOnInterest(Genesis(reserve, custody), calls, b) <= ServedBy(q.events, b)
  {
    if |calls| > 0 {
      var init := calls[..|calls| - 1];
      var before := Exec(Genesis(reserve, custody), init);
      FeesAreServed(reserve, custody, init, b, before);
      SoundnessHolds(reserve, custody, init);
      CoveredRunsFit(reserve, custody, init, b, Accrued);
      LogReplaysInterest(reserve, custody, init, b);
      FeeIsServed(before, calls[|calls| - 1], b, q);
    }
  }

  /** Over every run whose reversals are covered, the protocol fees of a borrower are
      charged on interest that was served, and no more interest is ever served than
      was credited. */
  lemma FeesStayBelowInterest(reserve: int, custody: int, calls: seq<Call>, b: Address)
    requires CoveredRun(Genesis(reserve, custody), calls)
    ensures var events := Exec(Genesis(reserve, custody), calls).events;
      FeesOnInterest(Genesis(reserve, custody), calls, b) <= ServedBy(events, b) <= CreditedTo(events, b)
  {
    var q := Exec(Genesis(reserve, custody), calls);
    FeesAreServed(reserve, custody, calls, b, q);
    InterestBalances(q.events, b);
    InterestStaysNonNegative(q.events, b);
  }
}
