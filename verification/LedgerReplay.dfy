/** The published events as the record of the debt: replaying them gives every
    line's debt and the interest that is part of it. */
module LedgerReplay {
  import opened Prelude
  import opened Accrual
  import opened Fees
  import opened Ledger
  import opened LedgerInvariants
  import opened LedgerSoundness

  /** What an indexer knows about one borrower. */
  datatype View = View(debt: int, interest: int, closed: bool)

  const NO_LINE := View(0, 0, true)

  /** Take an amount off a debt, its interest first. */
  function Serve(v: View, amount: int): View {
    v.(debt := v.debt - amount, interest := v.interest - Min(amount, v.interest))
  }

  /** One event of the borrower: draws and interest add to the debt; repayments,
      forgiveness and recoveries take from it, interest first; reversals take back
      principal; opening a closed line writes it off. */
  function Apply1(v: View, e: Event): View {
    match e
    case LineOpened(_) => if v.closed then View(0, 0, false) else v
    case LineStatus(_, status) => v.(closed := status == Closed)
    case InterestAccrued(_, amount) => v.(debt := v.debt + amount, interest := v.interest + amount)
    case Drawn(_, amount) => v.(debt := v.debt + amount)
    case Repaid(_, amount) => Serve(v, amount)
    case DebtForgiven(_, amount) => Serve(v, amount)
    case LiquidationSettled(_, amount) => Serve(v, amount)
    case DrawReversed(_, amount) => v.(debt := v.debt - amount)
    case LateFeeCharged(_, _) => v
  }

  /** The events of borrower `b`, applied in order. */
  function Replay(events: seq<Event>, b: Address): View {
    if |events| == 0 then NO_LINE
    else
      var v, e := Replay(events[..|events| - 1], b), events[|events| - 1];
      if e.b == b then Apply1(v, e) else v
  }

  function ViewOf(s: State, b: Address): View {
    if b in s.book.lines then LineView(s.book.lines[b]) else NO_LINE
  }

  function LineView(line: Line): View {
    View(line.utilized, line.accrued, line.status == Closed)
  }

  /** The whole debt, or the interest in it. */
  datatype Part = Debt | Accrued

  function Of(part: Part, v: View): int {
    if part == Debt then v.debt else v.interest
  }

  predicate Same(part: Part, v: View, w: View) {
    Of(part, v) == Of(part, w) && v.closed == w.closed
  }

  /** The log accounts for this part of the stored line of `b`. */
  predicate Tracks(s: State, b: Address, part: Part) {
    Same(part, Replay(s.events, b), ViewOf(s, b))
  }

  lemma ReplayOne(events: seq<Event>, e: Event, b: Address)
    ensures Replay(events + [e], b) == if e.b == b then Apply1(Replay(events, b), e) else Replay(events, b)
  {
    assert (events + [e])[..|events|] == events;
  }

  function Credited(v: View, amount: int): View {
    v.(debt := v.debt + amount, interest := v.interest + amount)
  }

  lemma ReplayInterest(events: seq<Event>, b: Address, was: Line, line: Line, x: Address)
    ensures Replay(events + InterestEvents(b, was, line), x)
         == if b == x then Credited(Replay(events, x), line.utilized - was.utilized) else Replay(events, x)
  {
    if line.utilized != was.utilized {
      ReplayOne(events, InterestAccrued(b, line.utilized - was.utilized), x);
    } else {
      assert events + InterestEvents(b, was, line) == events;
    }
  }

  lemma MaterializeTracks(s: State, b: Address, cur: Result<Line>, x: Address, part: Part)
    requires Tracks(s, x, part) && b in s.book.lines && IsCurrent(s, b, cur) && Materialize(s, b, cur).Ok?
    ensures Tracks(Materialize(s, b, cur).value, x, part)
    ensures b != x ==> Replay(Materialize(s, b, cur).value.events, x) == Replay(s.events, x)
  {
    ReplayInterest(s.events, b, s.book.lines[b], cur.value, x);
  }

  lemma {:induction false} AccrueEachTracks(s: State, cfg: Config, scope: Scope, bs: seq<Address>, now: u64, x: Address, part: Part)
    requires Tracks(s, x, part) && AccrueEach(s, cfg, scope, bs, now).Ok?
    ensures Tracks(AccrueEach(s, cfg, scope, bs, now).value, x, part)
  {
    if |bs| > 0 {
      var b := bs[|bs| - 1];
      AccrueEachTracks(s, cfg, scope, bs[..|bs| - 1], now, x, part);
      var before := AccrueEach(s, cfg, scope, bs[..|bs| - 1], now).value;
      CurrentIsCurrent(before, cfg, b, now);
      if InScope(before, scope, b) {
        MaterializeTracks(before, b, Current(before, cfg, b, now), x, part);
      }
    }
  }

  /** Accruing the others publishes nothing about the excluded borrower. */
  lemma {:induction false} ExcludedIsSilent(s: State, cfg: Config, x: Address, bs: seq<Address>, now: u64)
    requires AccrueEach(s, cfg, Except(x), bs, now).Ok?
    ensures Replay(AccrueEach(s, cfg, Except(x), bs, now).value.events, x) == Replay(s.events, x)
  {
    if |bs| > 0 {
      var b := bs[|bs| - 1];
      ExcludedIsSilent(s, cfg, x, bs[..|bs| - 1], now);
      var before := AccrueEach(s, cfg, Except(x), bs[..|bs| - 1], now).value;
      if InScope(before, Except(x), b) {
        var cur := Current(before, cfg, b, now);
        ReplayInterest(before.events, b, before.book.lines[b], cur.value, x);
      }
    }
  }

  /** After the cap check the log already has the drawer's own interest; everyone
      else is tracked. */
  lemma CappedTracks(s: State, cfg: Config, b: Address, line: Line, amount: int, now: u64, x: Address, part: Part)
    requires Tracks(s, x, part) && b in s.book.lines && Grown(s.book.lines[b], line)
    requires Capped(s, cfg, b, line, amount, now).Ok?
    ensures var s1 := Capped(s, cfg, b, line, amount, now).value;
      if x == b then Same(part, Replay(s1.events, b), LineView(line)) else Tracks(s1, x, part)
  {
    var billed := Billed(s, b, line);
    ReplayInterest(s.events, b, s.book.lines[b], line, x);
    UnderCapShape(billed, cfg, b, line.utilized - s.book.lines[b].utilized, amount, now);
    if cfg.exposureCap.Some? {
      if x == b {
        ExcludedIsSilent(billed, cfg, b, s.book.ids, now);
      } else {
        AccrueEachTracks(billed, cfg, Except(b), s.book.ids, now, x, part);
      }
    }
  }

  lemma FinishDrawTracks(s1: State, cfg: Config, b: Address, line: Line, wasUtilized: int, amount: int, now: u64,
                         x: Address, part: Part)
    requires FinishDraw(s1, cfg, b, line, wasUtilized, amount, now).Ok?
    requires if x == b then Same(part, Replay(s1.events, b), LineView(line)) else Tracks(s1, x, part)
    ensures Tracks(FinishDraw(s1, cfg, b, line, wasUtilized, amount, now).value, x, part)
  {
    ReplayOne(s1.events, Drawn(b, amount), x);
  }

  lemma DrawTracks(s: State, cfg: Config, b: Address, cur: Result<Line>, amount: int, collateral: int, now: u64,
                   x: Address, part: Part)
    requires Tracks(s, x, part) && IsCurrent(s, b, cur) && Draw(s, cfg, b, cur, amount, collateral, now).Ok?
    ensures Tracks(Draw(s, cfg, b, cur, amount, collateral, now).value, x, part)
  {
    DrawShape(s, cfg, b, cur, amount, collateral, now);
    CappedTracks(s, cfg, b, cur.value, amount, now, x, part);
    var s1 := Capped(s, cfg, b, cur.value, amount, now).value;
    FinishDrawTracks(s1, cfg, b, cur.value, s.book.lines[b].utilized, amount, now, x, part);
  }

  lemma RepayEvents(s: State, cfg: Config, b: Address, cur: Result<Line>, amount: int, now: u64) returns (fee: int, late: int)
    requires (cur.Ok? ==> b in s.book.lines) && Repay(s, cfg, b, cur, amount, now).Ok?
    ensures cur.Ok?
    ensures var q, a := Repay(s, cfg, b, cur, amount, now).value, RepaymentOf(cur.value, amount);
      && q.events == s.events + InterestEvents(b, s.book.lines[b], cur.value) + LateFeeEvents(b, late) + [Repaid(b, a.paid)]
      && 0 <= fee <= a.paid && 0 <= late
      && q.reserve == IntoSource(s, cfg, a.paid - fee).reserve
      && q.custody == IntoSource(s, cfg, a.paid - fee).custody + fee + late
      && q.vault.collected == s.vault.collected + fee + late && Spent(q.vault) == Spent(s.vault)
  {
    fee, late := RepayShape(s, cfg, b, cur, amount, now);
    ProtocolFeeRange(RepaymentOf(cur.value, amount), cfg.protocolFee);
  }

  lemma ProtocolFeeRange(a: Allocation, bps: Bps)
    requires ProtocolFee(a, bps).Ok? && 0 <= a.paid && 0 <= a.interest
    ensures 0 <= ProtocolFee(a, bps).value <= a.paid
  {
    if a.paid > 0 && bps > 0 && a.interest > 0 {
      Arith.MulNonNeg(a.interest, bps);
      Arith.DivNonNeg(a.interest * bps, 10_000);
    }
  }

  lemma ReplayRepayment(events: seq<Event>, b: Address, was: Line, line: Line, late: int, paid: int, x: Address)
    ensures Replay(events + InterestEvents(b, was, line) + LateFeeEvents(b, late) + [Repaid(b, paid)], x)
         == if b == x then Serve(Credited(Replay(events, x), line.utilized - was.utilized), paid) else Replay(events, x)
  {
    var log := events + InterestEvents(b, was, line);
    ReplayInterest(events, b, was, line, x);
    if late > 0 {
      ReplayOne(log, LateFeeCharged(b, late), x);
    } else {
      assert log + LateFeeEvents(b, late) == log;
    }
    ReplayOne(log + LateFeeEvents(b, late), Repaid(b, paid), x);
  }

  /** A repayment cuts the stored parts to fit before it pays: a negative debt to
      zero, interest beyond the debt to the debt.  It publishes neither. */
  predicate Fits(line: Line, part: Part) {
    if part == Debt then 0 <= line.utilized else line.accrued <= Max(line.utilized, 0)
  }

  /** A repayment lowers the interest by exactly the interest part of the payment
      and the principal by exactly the principal part, interest first. */
  lemma RepaymentIsSplit(line: Line, amount: int)
    requires 0 <= line.accrued <= line.utilized && 0 < amount
    ensures var a, after := RepaymentOf(line, amount), RepaidLine(line, RepaymentOf(line, amount));
      && line.accrued - after.accrued == a.interest == Min(amount, line.accrued)
      && (line.utilized - line.accrued) - (after.utilized - after.accrued) == a.principal
      && a.principal == Min(Max(amount - line.accrued, 0), line.utilized - line.accrued)
      && after == line.(accrued := after.accrued, utilized := after.utilized)
  {
  }

  lemma RepaidPart(line: Line, amount: int, part: Part, v: View)
    requires 0 < amount && Same(part, v, LineView(line))
    ensures var a := RepaymentOf(line, amount);
      Same(part, Serve(v, a.paid), LineView(RepaidLine(line, a))) <==> Fits(line, part)
  {
  }

  /** A negative debt takes no payment and ends at zero. */
  lemma RepaidDebt(line: Line, amount: int)
    requires 0 < amount && line.utilized < 0
    ensures RepaymentOf(line, amount) == Allocation(0, 0, 0) && RepaidLine(line, Allocation(0, 0, 0)).utilized == 0
  {
  }

  lemma RepayTracks(s: State, cfg: Config, b: Address, cur: Result<Line>, amount: int, now: u64, x: Address, part: Part)
    requires Tracks(s, x, part) && IsCurrent(s, b, cur) && Repay(s, cfg, b, cur, amount, now).Ok?
    ensures cur.Ok? && (Tracks(Repay(s, cfg, b, cur, amount, now).value, x, part) <==> b != x || Fits(cur.value, part))
  {
    var fee, late := RepayEvents(s, cfg, b, cur, amount, now);
    RepayStores(s, cfg, b, cur, amount, now);
    if x == b {
      RepaidPart(cur.value, amount, part, Credited(Replay(s.events, x), cur.value.utilized - s.book.lines[b].utilized));
    }
    ReplayRepayment(s.events, b, s.book.lines[b], cur.value, late, RepaymentOf(cur.value, amount).paid, x);
  }

  lemma OpenTracks(s: State, cfg: Config, b: Address, limit: int, rate: u32, score: u32, now: u64, x: Address, part: Part)
    requires Tracks(s, x, part) && Open(s, cfg, b, limit, rate, score, now).Ok?
    ensures Tracks(Open(s, cfg, b, limit, rate, score, now).value, x, part)
  {
    ReplayOne(s.events, LineOpened(b), x);
  }

  /** The few events of one entrypoint, in order. */
  function ApplyAll(v: View, more: seq<Event>): View {
    if |more| == 0 then v else Apply1(ApplyAll(v, more[..|more| - 1]), more[|more| - 1])
  }

  lemma {:induction false} ReplayMore(log: seq<Event>, more: seq<Event>, b: Address)
    requires forall e :: e in more ==> e.b == b
    ensures Replay(log + more, b) == ApplyAll(Replay(log, b), more)
  {
    if |more| == 0 {
      assert log + more == log;
    } else {
      var init, last := more[..|more| - 1], more[|more| - 1];
      ReplayMore(log, init, b);
      assert log + more == log + init + [last];
      assert last in more;
      ReplayOne(log + init, last, b);
    }
  }

  lemma ApplyOne(v: View, e: Event)
    ensures ApplyAll(v, [e]) == Apply1(v, e)
  {
    assert [e][..0] == [];
    assert ApplyAll(v, []) == v;
  }

  lemma ApplyTwo(v: View, e: Event, f: Event)
    ensures ApplyAll(v, [e] + [f]) == Apply1(Apply1(v, e), f)
  {
    ApplyOne(v, e);
    assert ([e] + [f])[..1] == [e];
  }

  lemma SettlementMoves(call: Call, line: Line, v: View, part: Part)
    requires call.op.SettleLiquidation? && call.op.recovered <= line.utilized && Same(part, v, LineView(line))
    ensures Same(part, ApplyAll(v, Published(call, line)), LineView(Next(call, line)))
  {
    var e := LiquidationSettled(call.op.b, call.op.recovered);
    if Next(call, line).status == Closed {
      ApplyTwo(v, LineStatus(call.op.b, Closed), e);
    } else {
      assert [] + [e] == [e];
      ApplyOne(v, e);
    }
  }

  lemma OneEventMoves(call: Call, line: Line, v: View, part: Part)
    requires IsLineOp(call.op) && !call.op.SettleLiquidation? && Same(part, v, LineView(line))
    ensures Same(part, ApplyAll(v, Published(call, line)), LineView(Next(call, line)))
  {
    var more := Published(call, line);
    if !call.op.UpdateRiskParameters? {
      assert more == [more[0]];
      ApplyOne(v, more[0]);
    }
  }

  /** What a line entrypoint publishes is exactly what it does to the debt. */
  lemma PublishedTracks(call: Call, line: Line, log: seq<Event>, part: Part)
    requires IsLineOp(call.op) && (call.op.SettleLiquidation? ==> call.op.recovered <= line.utilized)
    requires Same(part, Replay(log, call.op.b), LineView(line))
    ensures Same(part, Replay(log + Published(call, line), call.op.b), LineView(Next(call, line)))
  {
    ReplayMore(log, Published(call, line), call.op.b);
    if call.op.SettleLiquidation? {
      SettlementMoves(call, line, Replay(log, call.op.b), part);
    } else {
      OneEventMoves(call, line, Replay(log, call.op.b), part);
    }
  }

  /** The close factor keeps a settlement within the debt, which a positive
      recovery forces to be positive. */
  lemma RecoveryWithinDebt(s: State, call: Call, line: Line)
    requires IsLineOp(call.op) && Precheck(s, call).Pass? && Admit(s, call, line).Pass?
    ensures call.op.SettleLiquidation? ==> 0 < call.op.recovered <= line.utilized
  {
    if call.op.SettleLiquidation? {
      var factor := call.op.closeFactorBps;
      Arith.DivMod(line.utilized * factor, 10_000);
      if line.utilized <= 0 {
        Arith.MulMono(line.utilized, 0, factor);
      } else {
        Arith.MulMono(factor, 10_000, line.utilized);
      }
    }
  }

  lemma OthersPublishNothing(call: Call, line: Line, log: seq<Event>, x: Address)
    requires IsLineOp(call.op) && call.op.b != x
    ensures Replay(log + Published(call, line), x) == Replay(log, x)
  {
    var b, more := call.op.b, Published(call, line);
    if |more| == 0 {
      assert log + more == log;
    } else if |more| == 1 {
      assert more == [more[0]];
      ReplayOne(log, more[0], x);
    } else {
      assert log + more == log + [more[0]] + [more[1]];
      ReplayOne(log, more[0], x);
      ReplayOne(log + [more[0]], more[1], x);
    }
  }

  lemma LineStepTracks(s: State, call: Call, read: Result<Line>, x: Address, part: Part)
    requires IsLineOp(call.op) && IsCurrent(s, call.op.b, read) && LineStep(s, call, read).Ok?
    requires Tracks(s, x, part)
    ensures Tracks(LineStep(s, call, read).value, x, part)
  {
    var b := call.op.b;
    LineStepShape(s, call, read);
    var log := s.events + InterestEvents(b, s.book.lines[b], read.value);
    ReplayInterest(s.events, b, s.book.lines[b], read.value, x);
    if x == b {
      RecoveryWithinDebt(s, call, read.value);
      PublishedTracks(call, read.value, log, part);
    } else {
      OthersPublishNothing(call, read.value, log, x);
    }
  }

  /** A repayment of a line of which this part does not fit. */
  predicate RepaysMisfit(s: State, call: Call, x: Address, part: Part) {
    && call.op.RepayCredit? && call.op.b == x
    && Current(s, call.cfg, x, call.now).Ok? && !Fits(Current(s, call.cfg, x, call.now).value, part)
  }

  /** In any state whatever: a successful call publishes exactly the change it made
      to each debt if and only if it is not the repayment of a negative one, and to
      the interest in it if and only if it is not the repayment of a line with more
      interest than debt. */
  lemma StepTracks(s: State, call: Call, x: Address, part: Part)
    requires Tracks(s, x, part) && Step(s, call).Ok?
    ensures Tracks(Step(s, call).value, x, part) <==> !RepaysMisfit(s, call, x, part)
  {
    var Call(op, now, cfg) := call;
    if IsLineOp(op) {
      ReadIsCurrent(s, call);
      LineStepTracks(s, call, Read(s, call), x, part);
    } else if IsSideOp(op) {
      assert SideStep(s, call).value.book == s.book && SideStep(s, call).value.events == s.events;
    } else {
      match op
      case OpenLine(b, limit, rate, score) => OpenTracks(s, cfg, b, limit, rate, score, now, x, part);
      case DrawCredit(b, amount, collateral) =>
        CurrentIsCurrent(s, cfg, b, now);
        DrawTracks(s, cfg, b, Current(s, cfg, b, now), amount, collateral, now, x, part);
      case RepayCredit(b, amount) =>
        CurrentIsCurrent(s, cfg, b, now);
        RepayTracks(s, cfg, b, Current(s, cfg, b, now), amount, now, x, part);
      case AccrueBatch(bs) => AccrueEachTracks(s, cfg, ActiveOnly, bs, now, x, part);
    }
  }

  /** No successful call of the run repays a line of `x` of which this part misfits. */
  ghost predicate RepaysFitting(s: State, calls: seq<Call>, x: Address, part: Part) {
    |calls| == 0
    || (RepaysFitting(s, calls[..|calls| - 1], x, part) && PublishesAll(Exec(s, calls[..|calls| - 1]), calls[|calls| - 1], x, part))
  }

  predicate PublishesAll(s: State, call: Call, x: Address, part: Part) {
    Step(s, call).Ok? ==> !RepaysMisfit(s, call, x, part)
  }

  lemma ApplyTracks(s: State, call: Call, x: Address, part: Part)
    requires Tracks(s, x, part) && PublishesAll(s, call, x, part)
    ensures Tracks(Apply(s, call), x, part)
  {
    if Step(s, call).Ok? {
      StepTracks(s, call, x, part);
    }
  }

  lemma {:induction false} RunTracks(s: State, calls: seq<Call>, x: Address, part: Part)
    requires Tracks(s, x, part) && RepaysFitting(s, calls, x, part)
    ensures Tracks(Exec(s, calls), x, part)
  {
    if |calls| > 0 {
      RunTracks(s, calls[..|calls| - 1], x, part);
      ApplyTracks(Exec(s, calls[..|calls| - 1]), calls[|calls| - 1], x, part);
    }
  }

  /** After any run that repays no negative debt of `b`, uncovered reversals
      included, replaying the log gives what `b` owes: draws plus credited interest
      minus repayments, forgiveness, recoveries, reversals and the write-off when a
      closed line is re-opened. */
  lemma LogReplaysDebt(reserve: int, custody: int, calls: seq<Call>, b: Address)
    requires RepaysFitting(Genesis(reserve, custody), calls, b, Debt)
    ensures Tracks(Exec(Genesis(reserve, custody), calls), b, Debt)
  {
    RunTracks(Genesis(reserve, custody), calls, b, Debt);
  }

  /** And after any run that repays no line of `b` with more interest than debt, it
      gives the interest: what was credited less what came first in repayments,
      forgiveness and recoveries, and the write-off. */
  lemma LogReplaysInterest(reserve: int, custody: int, calls: seq<Call>, b: Address)
    requires RepaysFitting(Genesis(reserve, custody), calls, b, Accrued)
    ensures Tracks(Exec(Genesis(reserve, custody), calls), b, Accrued)
  {
    RunTracks(Genesis(reserve, custody), calls, b, Accrued);
  }

  /** A run in which every reversal is covered is a run of both kinds. */
  lemma {:induction false} CoveredRunsFit(reserve: int, custody: int, calls: seq<Call>, b: Address, part: Part)
    requires CoveredRun(Genesis(reserve, custody), calls)
    ensures RepaysFitting(Genesis(reserve, custody), calls, b, part)
  {
    if |calls| > 0 {
      CoveredRunsFit(reserve, custody, calls[..|calls| - 1], b, part);
      SoundnessHolds(reserve, custody, calls[..|calls| - 1]);
      SoundLinesFit(Exec(Genesis(reserve, custody), calls[..|calls| - 1]), calls[|calls| - 1], b, part);
    }
  }

  lemma SoundLinesFit(s: State, call: Call, b: Address, part: Part)
    requires Sound(s)
    ensures !RepaysMisfit(s, call, b, part)
  {
    CurrentIsCurrent(s, call.cfg, b, call.now);
    if Current(s, call.cfg, b, call.now).Ok? {
      GrownIsSound(s.book.lines[b], Current(s, call.cfg, b, call.now).value);
    }
  }
}
