/** Where the tokens are: what the published events say was paid and drawn is what
    the contract and its liquidity source hold. */
module LedgerFunds {
  import opened Prelude
  import opened Accrual
  import opened Fees
  import opened Ledger
  import opened LedgerInvariants
  import opened LedgerReplay

  /** Tokens paid in by borrowers less tokens drawn. */
  function CashOf(e: Event): int {
    match e
    case Drawn(_, amount) => -amount
    case Repaid(_, amount) => amount
    case LateFeeCharged(_, amount) => amount
    case _ => 0
  }

  function Cash(events: seq<Event>): int {
    if |events| == 0 then 0 else Cash(events[..|events| - 1]) + CashOf(events[|events| - 1])
  }

  lemma CashOne(events: seq<Event>, e: Event)
    ensures Cash(events + [e]) == Cash(events) + CashOf(e)
  {
    assert (events + [e])[..|events|] == events;
  }

  lemma CashOfInterest(events: seq<Event>, b: Address, was: Line, line: Line)
    ensures Cash(events + InterestEvents(b, was, line)) == Cash(events)
  {
    if line.utilized != was.utilized {
      CashOne(events, InterestAccrued(b, line.utilized - was.utilized));
    } else {
      assert events + InterestEvents(b, was, line) == events;
    }
  }

  /** The part of custody that belongs to neither fee accumulator. */
  function Unpledged(s: State): int {
    s.custody - (s.vault.collected - Spent(s.vault))
  }

  /** In a sound vault that is custody less the two accumulators. */
  lemma UnpledgedMeaning(s: State)
    requires VaultSound(s.vault)
    ensures Unpledged(s) == s.custody - s.vault.treasury - s.vault.bounty
  {
  }

  /** All tokens ever received are in the reserve, in custody, or paid out. */
  function Unexplained(s: State): int {
    s.reserve + s.custody + Spent(s.vault) - Cash(s.events)
  }

  /** `flow` tokens went into the liquidity source (out of it when negative); fees
      went to custody together with their accumulators; nothing is overdrawn. */
  predicate FundsMove(s: State, q: State, cfg: Config, flow: int) {
    && q.reserve == s.reserve + (if cfg.selfSourced then 0 else flow)
    && Unpledged(q) == Unpledged(s) + (if cfg.selfSourced then flow else 0)
    && Unexplained(q) == Unexplained(s)
    && (0 <= s.reserve ==> 0 <= q.reserve)
    && (0 <= s.custody ==> 0 <= q.custody)
  }

  lemma FundsMoveTwice(s: State, t: State, q: State, cfg: Config, flow: int)
    requires FundsMove(s, t, cfg, 0) && FundsMove(t, q, cfg, flow)
    ensures FundsMove(s, q, cfg, flow)
  {
  }

  lemma {:induction false} AccrueEachMovesNothing(s: State, cfg: Config, scope: Scope, bs: seq<Address>, now: u64)
    requires AccrueEach(s, cfg, scope, bs, now).Ok?
    ensures FundsMove(s, AccrueEach(s, cfg, scope, bs, now).value, cfg, 0)
  {
    if |bs| > 0 {
      var b := bs[|bs| - 1];
      AccrueEachMovesNothing(s, cfg, scope, bs[..|bs| - 1], now);
      var before := AccrueEach(s, cfg, scope, bs[..|bs| - 1], now).value;
      if InScope(before, scope, b) {
        var cur := Current(before, cfg, b, now);
        CashOfInterest(before.events, b, before.book.lines[b], cur.value);
      }
    }
  }

  lemma CappedMovesNothing(s: State, cfg: Config, b: Address, line: Line, amount: int, now: u64)
    requires b in s.book.lines && Capped(s, cfg, b, line, amount, now).Ok?
    ensures FundsMove(s, Capped(s, cfg, b, line, amount, now).value, cfg, 0)
  {
    var was, billed := s.book.lines[b], Billed(s, b, line);
    CashOfInterest(s.events, b, was, line);
    UnderCapShape(billed, cfg, b, line.utilized - was.utilized, amount, now);
    if cfg.exposureCap.Some? {
      AccrueEachMovesNothing(billed, cfg, Except(b), s.book.ids, now);
    }
  }

  lemma DrawMovesFunds(s: State, cfg: Config, b: Address, cur: Result<Line>, amount: int, collateral: int, now: u64)
    requires (cur.Ok? ==> b in s.book.lines) && Draw(s, cfg, b, cur, amount, collateral, now).Ok?
    ensures FundsMove(s, Draw(s, cfg, b, cur, amount, collateral, now).value, cfg, -amount)
  {
    DrawShape(s, cfg, b, cur, amount, collateral, now);
    CappedMovesNothing(s, cfg, b, cur.value, amount, now);
    var s1 := Capped(s, cfg, b, cur.value, amount, now).value;
    FinishDrawShape(s1, cfg, b, cur.value, s.book.lines[b].utilized, amount, now);
    CashOne(s1.events, Drawn(b, amount));
    FundsMoveTwice(s, s1, Draw(s, cfg, b, cur, amount, collateral, now).value, cfg, -amount);
  }

  lemma RepaymentCash(events: seq<Event>, b: Address, was: Line, line: Line, late: nat, paid: int)
    ensures Cash(events + InterestEvents(b, was, line) + LateFeeEvents(b, late) + [Repaid(b, paid)])
         == Cash(events) + late + paid
  {
    var log := events + InterestEvents(b, was, line);
    CashOfInterest(events, b, was, line);
    if late > 0 {
      CashOne(log, LateFeeCharged(b, late));
    } else {
      assert log + LateFeeEvents(b, late) == log;
    }
    CashOne(log + LateFeeEvents(b, late), Repaid(b, paid));
  }

  /** What the borrower pays is what the source receives plus the protocol fee and
      the late fee credited to the vault. */
  lemma RepayMovesFunds(s: State, cfg: Config, b: Address, cur: Result<Line>, amount: int, now: u64) returns (flow: nat)
    requires (cur.Ok? ==> b in s.book.lines) && Repay(s, cfg, b, cur, amount, now).Ok?
    ensures var q := Repay(s, cfg, b, cur, amount, now).value;
      && FundsMove(s, q, cfg, flow)
      && Cash(q.events) - Cash(s.events) == flow + (q.vault.collected - s.vault.collected)
  {
    var fee, late := RepayEvents(s, cfg, b, cur, amount, now);
    var paid := RepaymentOf(cur.value, amount).paid;
    RepaymentCash(s.events, b, s.book.lines[b], cur.value, late, paid);
    flow := paid - fee;
  }

  lemma CashlessTail(log: seq<Event>, more: seq<Event>)
    requires forall e :: e in more ==> CashOf(e) == 0
    ensures Cash(log + more) == Cash(log)
  {
    if |more| == 0 {
      assert log + more == log;
    } else {
      var init := more[..|more| - 1];
      CashlessTail(log, init);
      assert log + more == log + init + [more[|more| - 1]];
      CashOne(log + init, more[|more| - 1]);
    }
  }

  lemma PublishedIsCashless(call: Call, line: Line)
    requires IsLineOp(call.op)
    ensures forall e :: e in Published(call, line) ==> CashOf(e) == 0
  {
  }

  lemma LineStepMovesNothing(s: State, call: Call, read: Result<Line>)
    requires IsLineOp(call.op) && (read.Ok? ==> call.op.b in s.book.lines) && LineStep(s, call, read).Ok?
    ensures FundsMove(s, LineStep(s, call, read).value, call.cfg, 0)
  {
    LineStepShape(s, call, read);
    CashOfInterest(s.events, call.op.b, s.book.lines[call.op.b], read.value);
    PublishedIsCashless(call, read.value);
    CashlessTail(s.events + InterestEvents(call.op.b, s.book.lines[call.op.b], read.value), Published(call, read.value));
  }

  /** A payout leaves custody together with its accumulator. */
  lemma SideStepMovesNothing(s: State, call: Call)
    requires IsSideOp(call.op) && SideStep(s, call).Ok?
    ensures FundsMove(s, SideStep(s, call).value, call.cfg, 0)
  {
    if call.op.ExecuteWithdrawal? {
      PaidOutMore(s.vault.payouts, Payout(s.vault.pending.value, call.now));
    }
  }

  /** Only a draw takes tokens out of the liquidity source, exactly its amount, and
      only a repayment puts any in. */
  lemma StepMovesFunds(s: State, call: Call) returns (flow: int)
    ensures Step(s, call).Ok? ==>
      && FundsMove(s, Step(s, call).value, call.cfg, flow)
      && (call.op.DrawCredit? ==> flow == -call.op.amount)
      && (call.op.RepayCredit? ==> 0 <= flow)
      && (!call.op.DrawCredit? && !call.op.RepayCredit? ==> flow == 0)
  {
    var Call(op, now, cfg) := call;
    flow := 0;
    if Step(s, call).Err? {
    } else if IsLineOp(op) {
      ReadIsCurrent(s, call);
      LineStepMovesNothing(s, call, Read(s, call));
    } else if IsSideOp(op) {
      SideStepMovesNothing(s, call);
    } else {
      match op
      case OpenLine(b, limit, rate, score) =>
        CashOne(s.events, LineOpened(b));
      case DrawCredit(b, amount, collateral) =>
        CurrentIsCurrent(s, cfg, b, now);
        DrawMovesFunds(s, cfg, b, Current(s, cfg, b, now), amount, collateral, now);
        flow := -amount;
      case RepayCredit(b, amount) =>
        CurrentIsCurrent(s, cfg, b, now);
        flow := RepayMovesFunds(s, cfg, b, Current(s, cfg, b, now), amount, now);
      case AccrueBatch(bs) => AccrueEachMovesNothing(s, cfg, ActiveOnly, bs, now);
    }
  }

  /** After any run of calls whatsoever, whichever source each of them used, the
      tokens in the reserve, in custody and paid out are the initial ones plus what
      borrowers paid, late fees included, less what they drew, and neither balance
      is overdrawn. */
  lemma {:induction false} FundsAreConserved(reserve: nat, custody: nat, calls: seq<Call>)
    ensures var s := Exec(Genesis(reserve, custody), calls);
      && 0 <= s.reserve && 0 <= s.custody
      && s.reserve + s.custody + PaidOut(s.vault.payouts) + s.vault.bountyPaid == reserve + custody + Cash(s.events)
  {
    if |calls| > 0 {
      FundsAreConserved(reserve, custody, calls[..|calls| - 1]);
      var flow := StepMovesFunds(Exec(Genesis(reserve, custody), calls[..|calls| - 1]), calls[|calls| - 1]);
    }
  }
}
