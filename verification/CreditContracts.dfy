/** The contract object: its stored entries, and the entrypoints that update them
    in place.  Each is proved to be one step of the ledger. */
module CreditContracts {
  import opened Prelude
  import Arith
  import opened Sums
  import opened Accrual
  import opened Installments
  import opened Fees
  import opened Ledger
  import opened LedgerInvariants
  import LedgerReplay
  import Enumeration

  /** What running an entrypoint's body did, against the step it models.  After an
      error the entries are whatever the body left: the host discards them. */
  ghost predicate Ran(outcome: Result<State>, left: State, r: Result<()>) {
    match outcome
    case Ok(q) => r == Ok(()) && left == q
    case Err(e) => r == Err(e)
  }

  function RunLineOp(s: State, call: Call): Result<State>
    requires IsLineOp(call.op)
  {
    LineStep(s, call, Read(s, call))
  }

  /** An entrypoint that passed its checks ends as its write does; `k` is the book
      it writes to and `next` the line it writes. */
  lemma Accepts(s: State, call: Call, line: Line, next: Line, k: Book)
    requires IsLineOp(call.op) && Precheck(s, call).Pass? && Admit(s, call, line).Pass?
    requires call.op.b in s.book.lines && next == Next(call, line)
    requires k == s.book.(pendingAuctions := Auctions(s.book.pendingAuctions, call, line.status, next.status))
    ensures var r := Persist(k, call.op.b, next, s.book.lines[call.op.b].utilized, Some(line.status));
      LineStep(s, call, Ok(line)) ==
        if r.Err? then Err(r.error)
        else Ok(Record(s, call, next).(book := r.value,
          events := s.events + InterestEvents(call.op.b, s.book.lines[call.op.b], line) + Published(call, line)))
  {
  }

  lemma ClosingAdmitted(s: State, call: Call, line: Line, next: Line)
    requires call.op.CloseLine? && line.status != Closed && next == line.(status := Closed)
    requires call.op.closer == Admin || (call.op.closer == Borrower && line.utilized == 0)
    ensures Precheck(s, call).Pass? && Admit(s, call, line).Pass? && next == Next(call, line)
    ensures s.events + InterestEvents(call.op.b, line, line) == s.events
  {
  }

  lemma SettlementAdmitted(s: State, call: Call, line: Line, next: Line)
    requires call.op.SettleLiquidation? && 0 < call.op.recovered && 0 < call.op.closeFactorBps <= 10_000
    requires call.op.closeFactorBps <= call.cfg.closeFactor && (call.op.b, call.op.id) !in s.settled
    requires AdmitSettlement(line, call.op.recovered, call.op.closeFactorBps).Pass?
    requires next == SettledLine(line, call.op.recovered)
    ensures Precheck(s, call).Pass? && Admit(s, call, line).Pass? && next == Next(call, line)
  {
  }

  /** An admitted draw is its cap check followed by its transfer. */
  lemma DrawAdmitted(s: State, cfg: Config, b: Address, line: Line, amount: int, collateral: int, now: u64)
    requires amount > 0 && b in s.book.lines && AdmitDraw(cfg, line, amount, collateral).Ok?
    ensures var was := s.book.lines[b].utilized;
      var checked := UnderCap(Billed(s, b, line), cfg, b, line.utilized - was, amount, now);
      Draw(s, cfg, b, Ok(line), amount, collateral, now)
        == if checked.Err? then Err(checked.error) else FinishDraw(checked.value, cfg, b, line, was, amount, now)
  {
  }

  lemma FinishesAs(s: State, cfg: Config, b: Address, line: Line, wasUtilized: int, amount: int, now: u64, stored: Result<Book>)
    requires cfg.hasToken && amount <= Source(s, cfg)
    requires stored == Persist(s.book, b, line.(utilized := line.utilized + amount), wasUtilized, Some(line.status))
    ensures FinishDraw(s, cfg, b, line, wasUtilized, amount, now) ==
      if stored.Err? then Err(stored.error)
      else Ok(IntoSource(s, cfg, -amount).(book := stored.value,
                 audit := s.audit.(drawn := RecordDraw(s.audit.drawn, (b, now), amount)), events := s.events + [Drawn(b, amount)]))
  {
  }

  lemma PrefixFits(lines: map<Address, Line>, ids: seq<Address>, k: nat)
    requires k <= |ids| && PartialSumsFit(lines, ids)
    ensures PartialSumsFit(lines, ids[..k])
  {
    if k < |ids| {
      assert ids[..|ids| - 1][..k] == ids[..k];
      PrefixFits(lines, ids[..|ids| - 1], k);
    } else {
      assert ids[..k] == ids;
    }
  }

  /** A loop that fails part of the way fails as a whole, with the same error. */
  lemma LoopFails(s: State, cfg: Config, scope: Scope, bs: seq<Address>, k: nat, now: u64)
    requires k <= |bs| && AccrueEach(s, cfg, scope, bs[..k], now).Err?
    ensures AccrueEach(s, cfg, scope, bs, now) == AccrueEach(s, cfg, scope, bs[..k], now)
  {
    if k < |bs| {
      assert bs[..|bs| - 1][..k] == bs[..k];
      LoopFails(s, cfg, scope, bs[..|bs| - 1], k, now);
    } else {
      assert bs[..k] == bs;
    }
  }

  lemma LoopStep(s: State, cfg: Config, scope: Scope, bs: seq<Address>, k: nat, now: u64, p: State)
    requires k < |bs| && AccrueEach(s, cfg, scope, bs[..k], now) == Ok(p)
    ensures AccrueEach(s, cfg, scope, bs[..k + 1], now) == AccrueOne(p, cfg, scope, bs[k], now)
  {
    assert bs[..k + 1][..k] == bs[..k];
  }

  class CreditContract {
    var lines: map<Address, Line>
    var ids: seq<Address>
    var totalUtilized: i128
    var activeLines: int
    var pendingAuctions: int
    var schedules: map<Address, Schedule>
    var settled: set<(Address, SettlementId)>
    var drawn: map<(Address, u64), int>
    var reversed: map<(Address, u64), int>
    var treasury: i128
    var bounty: i128
    var pendingWithdrawal: Option<Proposal>
    // Token balances and transfers, and the published events.
    var reserve: int
    var custody: int
    var collected: int
    var payouts: seq<Payout>
    var bountyPaid: int
    var events: seq<Event>

    function StoredBook(): Book
      reads this
    {
      Book(lines, ids, totalUtilized, activeLines, pendingAuctions)
    }

    function StoredVault(): Vault
      reads this
    {
      Vault(treasury, bounty, pendingWithdrawal, collected, payouts, bountyPaid)
    }

    /** The entries as a state of the ledger. */
    function Snapshot(): State
      reads this
    {
      State(StoredBook(), schedules, settled, Audit(drawn, reversed), reserve, custody, StoredVault(), events)
    }

    /** The aggregates are exact, the vault balances. */
    ghost predicate Valid()
      reads this
    {
      Accounting(Snapshot())
    }

    constructor (funding: int, balance: int)
      ensures Snapshot() == Genesis(funding, balance)
    {
      lines, ids, totalUtilized, activeLines, pendingAuctions := map[], [], 0, 0, 0;
      schedules, settled, drawn, reversed := map[], {}, map[], map[];
      treasury, bounty, pendingWithdrawal := 0, 0, None;
      reserve, custody, collected, payouts, bountyPaid, events := funding, balance, 0, [], 0, [];
    }

    // ---- Storage helpers --------------------------------------------------

    method Publish(e: Event)
      modifies this`events
      ensures Snapshot() == old(Snapshot()).(events := old(events) + [e])
    {
      events := events + [e];
    }

    /** `assert_total_utilized_conserved`: add every indexed line up again. */
    method TotalIsConserved() returns (ok: bool)
      ensures ok == TotalConserved(lines, ids, totalUtilized)
    {
      var recomputed := 0;
      for id := 0 to |ids|
        invariant recomputed == SumOf(DebtIn(lines), ids[..id])
        invariant PartialSumsFit(lines, ids[..id]) && InI128(recomputed)
      {
        assert ids[..id + 1] == ids[..id] + [ids[id]];
        assert ids[..id + 1][..id] == ids[..id];
        if ids[id] in lines {
          recomputed := recomputed + lines[ids[id]].utilized;
          if !InI128(recomputed) {
            if PartialSumsFit(lines, ids) {
              PrefixFits(lines, ids, id + 1);
              assert false;
            }
            return false;
          }
        }
      }
      assert ids[..|ids|] == ids;
      return totalUtilized == recomputed;
    }

    method AdjustTotalUtilized(previous: int, utilized: int) returns (r: Result<()>)
      modifies this`totalUtilized
      ensures match AdjustedTotal(lines, ids, old(totalUtilized), previous, utilized)
        case Ok(t) => r == Ok(()) && totalUtilized == t
        case Err(e) => r == Err(e)
    {
      var delta :- CheckedI128(utilized - previous);
      if delta == 0 {
        return Ok(());
      }
      var updated :- CheckedI128(totalUtilized + delta);
      totalUtilized := updated;
      var ok := TotalIsConserved();
      :- Need(ok, Panic);
      return Ok(());
    }

    method EnsureCreditLineId(b: Address) returns (r: Result<()>)
      modifies this`ids
      ensures match EnsureId(old(ids), b)
        case Ok(l) => r == Ok(()) && ids == l
        case Err(e) => r == Err(e)
    {
      if b in ids {
        return Ok(());
      }
      :- Need(|ids| < U32_MAX, IndexFull);
      ids := ids + [b];
      return Ok(());
    }

    /** `persist_credit_line`. */
    method PersistCreditLine(b: Address, line: Line, previousUtilized: int, previousStatus: Option<Status>) returns (r: Result<()>)
      modifies this`lines, this`ids, this`totalUtilized, this`activeLines
      ensures match Persist(old(StoredBook()), b, line, previousUtilized, previousStatus)
        case Ok(k) => r == Ok(()) && Snapshot() == old(Snapshot()).(book := k)
        case Err(e) => r == Err(e)
    {
      var _ :- EnsureCreditLineId(b);
      lines := lines[b := line];
      var _ :- AdjustTotalUtilized(previousUtilized, line.utilized);
      var isNowActive, wasActive := line.status == Active, previousStatus == Some(Active);
      if isNowActive && !wasActive {
        activeLines := CountUp(activeLines);
      } else if !isNowActive && wasActive {
        activeLines := CountDown(activeLines);
      }
      return Ok(());
    }

    /** Persist a line, then publish what happened to it. */
    method StoreAndPublish(b: Address, line: Line, previousUtilized: int, previousStatus: Option<Status>, e: Event)
      returns (r: Result<()>)
      modifies this`lines, this`ids, this`totalUtilized, this`activeLines, this`events
      ensures match Persist(old(StoredBook()), b, line, previousUtilized, previousStatus)
        case Ok(k) => r == Ok(()) && Snapshot() == old(Snapshot()).(book := k, events := old(events) + [e])
        case Err(x) => r == Err(x)
    {
      var _ :- PersistCreditLine(b, line, previousUtilized, previousStatus);
      Publish(e);
      return Ok(());
    }

    /** Load a line and run `apply_accrual` on the copy, which publishes what it
        credited. */
    method LoadAccrued(b: Address, cfg: Config, now: u64) returns (r: Result<Line>)
      modifies this`events
      ensures r == Current(old(Snapshot()), cfg, b, now)
      ensures r.Ok? ==> b in lines && Grown(lines[b], r.value)
      ensures r.Ok? ==> Snapshot() == old(Snapshot()).(events := old(events) + InterestEvents(b, lines[b], r.value))
    {
      if b !in lines {
        return Err(CreditLineNotFound);
      }
      r := ApplyAccrual(lines[b], EnvFor(Snapshot(), cfg, b, now));
      CurrentIsCurrent(Snapshot(), cfg, b, now);
      if r.Ok? && r.value.utilized != lines[b].utilized {
        Publish(InterestAccrued(b, r.value.utilized - lines[b].utilized));
      }
    }

    // ---- Accrual loops ----------------------------------------------------

    method AccrueLine(b: Address, cfg: Config, now: u64) returns (r: Result<()>)
      requires b in lines
      modifies this`lines, this`ids, this`totalUtilized, this`activeLines, this`events
      ensures Ran(Materialize(old(Snapshot()), b, Current(old(Snapshot()), cfg, b, now)), Snapshot(), r)
    {
      var stored := lines[b];
      var updated :- LoadAccrued(b, cfg, now);
      if updated.utilized != stored.utilized || updated.lastAccrual != stored.lastAccrual {
        r := PersistCreditLine(b, updated, stored.utilized, Some(stored.status));
      } else {
        r := Ok(());
      }
    }

    method AccrueBatch(bs: seq<Address>, cfg: Config, now: u64) returns (r: Result<()>)
      modifies this`lines, this`ids, this`totalUtilized, this`activeLines, this`events
      ensures Ran(Batch(old(Snapshot()), cfg, bs, now), Snapshot(), r)
    {
      if |bs| > ACCRUE_BATCH_MAX {
        return Err(InvalidAmount);
      }
      ghost var s := Snapshot();
      for i := 0 to |bs|
        invariant AccrueEach(s, cfg, ActiveOnly, bs[..i], now) == Ok(Snapshot())
      {
        var b := bs[i];
        LoopStep(s, cfg, ActiveOnly, bs, i, now, Snapshot());
        if b in lines && lines[b].status == Active && lines[b].utilized > 0 {
          r := AccrueLine(b, cfg, now);
          if r.Err? {
            LoopFails(s, cfg, ActiveOnly, bs, i + 1, now);
            return;
          }
        }
      }
      assert bs[..|bs|] == bs;
      return Ok(());
    }

    method AccrueAllExcept(excluded: Address, cfg: Config, now: u64) returns (r: Result<()>)
      modifies this`lines, this`ids, this`totalUtilized, this`activeLines, this`events
      ensures Ran(AccrueEach(old(Snapshot()), cfg, Except(excluded), old(ids), now), Snapshot(), r)
    {
      ghost var s := Snapshot();
      var listed := ids;
      for id := 0 to |listed|
        invariant AccrueEach(s, cfg, Except(excluded), listed[..id], now) == Ok(Snapshot())
      {
        var b := listed[id];
        LoopStep(s, cfg, Except(excluded), listed, id, now, Snapshot());
        if b != excluded && b in lines {
          r := AccrueLine(b, cfg, now);
          if r.Err? {
            LoopFails(s, cfg, Except(excluded), listed, id + 1, now);
            return;
          }
        }
      }
      assert listed[..|listed|] == listed;
      return Ok(());
    }

    // ---- Origination ------------------------------------------------------

    method OpenCreditLine(b: Address, limit: int, rate: u32, score: u32, cfg: Config, now: u64) returns (r: Result<()>)
      modifies this
      ensures Ran(Open(old(Snapshot()), cfg, b, limit, rate, score, now), Snapshot(), r)
    {
      if limit <= 0 {
        return Err(InvalidAmount);
      }
      :- Need(rate <= MAX_INTEREST_RATE_BPS, RateTooHigh);
      :- Need(score <= MAX_RISK_SCORE, ScoreTooHigh);
      :- Need(LimitInBounds(cfg, limit), LimitOutOfBounds);
      var previousUtilized, previousStatus: Option<Status> := 0, None;
      var utilized, accrued, lastAccrual := 0, 0, now;
      if b in lines {
        var existing := lines[b];
        :- Need(existing.status != Active, AlreadyInitialized);
        if existing.status == Defaulted {
          pendingAuctions := CountDown(pendingAuctions);
        }
        previousUtilized, previousStatus := existing.utilized, Some(existing.status);
        if existing.status != Closed {
          utilized, accrued, lastAccrual := existing.utilized, existing.accrued, existing.lastAccrual;
        }
      }
      var line := Line(limit, utilized, rate, score, Active, 0, accrued, lastAccrual, 0);
      var _ :- PersistCreditLine(b, line, previousUtilized, previousStatus);
      schedules := schedules - {b};
      Publish(LineOpened(b));
      return Ok(());
    }

    // ---- Draw -------------------------------------------------------------

    /** The global-cap part of `draw_credit`. */
    method CheckExposure(b: Address, pendingAccrual: int, amount: int, cfg: Config, now: u64) returns (r: Result<()>)
      modifies this`lines, this`ids, this`totalUtilized, this`activeLines, this`events
      ensures Ran(UnderCap(old(Snapshot()), cfg, b, pendingAccrual, amount, now), Snapshot(), r)
    {
      if cfg.exposureCap.Some? {
        var _ :- AccrueAllExcept(b, cfg, now);
        var pending :- CheckedI128(pendingAccrual);
        var withPending :- CheckedI128(totalUtilized + pending);
        var projected :- CheckedI128(withPending + amount);
        :- Need(projected <= cfg.exposureCap.value, ExposureCapExceeded);
      }
      return Ok(());
    }

    /** A token transfer into the liquidity source, or out of it. */
    method MoveSource(cfg: Config, amount: int)
      modifies this`reserve, this`custody
      ensures Snapshot() == IntoSource(old(Snapshot()), cfg, amount)
    {
      if cfg.selfSourced {
        custody := custody + amount;
      } else {
        reserve := reserve + amount;
      }
    }

    method TransferAndStore(b: Address, line: Line, previousUtilized: int, amount: int, cfg: Config, now: u64) returns (r: Result<()>)
      modifies this
      ensures Ran(FinishDraw(old(Snapshot()), cfg, b, line, previousUtilized, amount, now), Snapshot(), r)
    {
      ghost var s := Snapshot();
      :- Need(cfg.hasToken, MissingLiquidityToken);
      var balance := if cfg.selfSourced then custody else reserve;
      :- Need(balance >= amount, InsufficientLiquidityReserve);
      var next := line.(utilized := line.utilized + amount);
      ghost var stored := Persist(StoredBook(), b, next, previousUtilized, Some(line.status));
      FinishesAs(s, cfg, b, line, previousUtilized, amount, now, stored);
      MoveSource(cfg, -amount);
      var _ :- PersistCreditLine(b, next, previousUtilized, Some(line.status));
      drawn := RecordDraw(drawn, (b, now), amount);
      Publish(Drawn(b, amount));
      return Ok(());
    }

    method DrawCredit(b: Address, amount: int, collateral: int, cfg: Config, now: u64) returns (r: Result<()>)
      modifies this
      ensures Ran(Draw(old(Snapshot()), cfg, b, Current(old(Snapshot()), cfg, b, now), amount, collateral, now), Snapshot(), r)
    {
      ghost var s := Snapshot();
      :- Need(amount > 0, InvalidAmount);
      var line :- LoadAccrued(b, cfg, now);
      var previousUtilized := lines[b].utilized;
      :- DrawStatus(line.status);
      var updated :- CheckedI128(line.utilized + amount);
      :- Need(updated <= line.limit, OverLimit);
      var required :- RequiredCollateral(updated, cfg.minRatioBps);
      :- Need(required <= collateral, CollateralRatioBelowMinimum);
      DrawAdmitted(s, cfg, b, line, amount, collateral, now);
      var _ :- CheckExposure(b, line.utilized - previousUtilized, amount, cfg, now);
      r := TransferAndStore(b, line, previousUtilized, amount, cfg, now);
    }

    // ---- Repay ------------------------------------------------------------

    /** `accrue_protocol_fee`, for a fee transferred into custody. */
    method AccrueProtocolFee(fee: i128, share: u32) returns (r: Result<()>)
      modifies this`treasury, this`bounty, this`collected
      ensures match AccrueFee(old(StoredVault()), fee, share)
        case Ok(v) => r == Ok(()) && Snapshot() == old(Snapshot()).(vault := v)
        case Err(e) => r == Err(e)
    {
      if fee <= 0 {
        return Ok(());
      }
      var toTreasury, toBounty := SplitProtocolFee(fee, share);
      treasury :- CheckedI128(treasury + toTreasury);
      bounty :- CheckedI128(bounty + toBounty);
      collected := collected + fee;
      return Ok(());
    }

    /** `advance_repayment_schedule_after_repay`: moves the due date and returns
        the late fee. */
    method AdvanceRepaymentSchedule(b: Address, principal: int, cfg: Config, now: u64) returns (r: Result<int>)
      modifies this`schedules
      ensures match AdvanceSchedule(ScheduleOf(old(Snapshot()), b), principal, FeePerInstallment(cfg), now)
        case Ok((schedule, late)) =>
          && r == Ok(late) && 0 <= late <= I128_MAX
          && schedules == (if schedule.Some? then old(schedules)[b := schedule.value] else old(schedules))
        case Err(e) => r == Err(e)
    {
      if principal <= 0 || b !in schedules {
        return Ok(0);
      }
      var schedule := schedules[b];
      if schedule.amountPerPeriod <= 0 || schedule.period == 0 {
        return Ok(0);
      }
      var paid := InstallmentsPaid(principal, schedule.amountPerPeriod);
      if paid == 0 {
        return Ok(0);
      }
      var fee, late := FeePerInstallment(cfg), 0;
      if fee > 0 {
        var overdue := OverdueCount(now, schedule.nextDue, schedule.period, paid);
        Arith.MulNonNeg(fee, overdue);
        if overdue > 0 {
          late :- CheckedI128(fee * overdue);
        }
      }
      schedules := schedules[b := schedule.(nextDue := Advance(schedule.nextDue, schedule.period, paid))];
      return Ok(late);
    }

    /** The transfer block of `repay_credit`. */
    method TakeRepayment(a: Allocation, cfg: Config) returns (r: Result<()>)
      requires 0 <= a.interest && 0 <= a.paid <= I128_MAX
      modifies this`treasury, this`bounty, this`collected, this`reserve, this`custody
      ensures Ran(TakePayment(old(Snapshot()), cfg, a), Snapshot(), r)
    {
      var fee :- ProtocolFee(a, cfg.protocolFee);
      LedgerReplay.ProtocolFeeRange(a, cfg.protocolFee);
      var _ :- AccrueProtocolFee(fee, cfg.feeShare);
      custody := custody + fee;
      MoveSource(cfg, a.paid - fee);
      return Ok(());
    }

    /** Advance the schedule and take the late fee it returns. */
    method ChargeLate(b: Address, principal: int, cfg: Config, now: u64) returns (r: Result<()>)
      modifies this`treasury, this`bounty, this`collected, this`custody, this`schedules, this`events
      ensures Ran(ChargeLateFee(old(Snapshot()), cfg, b, principal, now), Snapshot(), r)
    {
      var late :- AdvanceRepaymentSchedule(b, principal, cfg, now);
      if late > 0 {
        Publish(LateFeeCharged(b, late));
        custody := custody + late;
        var _ :- AccrueProtocolFee(late, cfg.feeShare);
      }
      return Ok(());
    }

    method StoreRepayment(b: Address, line: Line, next: Line, previousUtilized: int, a: Allocation, cfg: Config, now: u64)
      returns (r: Result<()>)
      requires 0 <= a.interest && 0 <= a.paid <= I128_MAX && next == RepaidLine(line, a)
      modifies this
      ensures Ran(FinishRepay(old(Snapshot()), cfg, b, line, previousUtilized, a, now), Snapshot(), r)
    {
      var _ :- TakeRepayment(a, cfg);
      var _ :- PersistCreditLine(b, next, previousUtilized, Some(line.status));
      var _ :- ChargeLate(b, a.principal, cfg, now);
      Publish(Repaid(b, a.paid));
      return Ok(());
    }

    method RepayCredit(b: Address, amount: i128, cfg: Config, now: u64) returns (r: Result<()>)
      modifies this
      ensures Ran(Repay(old(Snapshot()), cfg, b, Current(old(Snapshot()), cfg, b, now), amount, now), Snapshot(), r)
    {
      if amount <= 0 {
        return Err(InvalidAmount);
      }
      var line :- LoadAccrued(b, cfg, now);
      var previousUtilized := lines[b].utilized;
      :- Need(line.status != Closed, CreditLineClosed);
      var totalDebt := Max(line.utilized, 0);
      var interestDue := Max(Min(line.accrued, totalDebt), 0);
      var a := AllocateRepayment(totalDebt, interestDue, amount);
      :- Need(cfg.hasToken, MissingLiquidityToken);
      var next := line.(accrued := interestDue - a.interest, utilized := Max(line.utilized - a.paid, 0));
      r := StoreRepayment(b, line, next, previousUtilized, a, cfg, now);
    }

    // ---- Lifecycle --------------------------------------------------------

    /** `suspend_internal`, for both origins of a suspension. */
    method SuspendInternal(b: Address, target: Status, cfg: Config, now: u64) returns (r: Result<()>)
      requires target == Suspended || target == SelfSuspended
      modifies this
      ensures var op := if target == Suspended then Op.SuspendLine(b) else Op.SelfSuspendLine(b);
        Ran(RunLineOp(old(Snapshot()), Call(op, now, cfg)), Snapshot(), r)
    {
      ghost var s, call := Snapshot(), Call(if target == Suspended then Op.SuspendLine(b) else Op.SelfSuspendLine(b), now, cfg);
      var line :- LoadAccrued(b, cfg, now);
      var previous := lines[b];
      :- Transition(line.status, target, {Active}, WrongState(line.status));
      :- Need(line.suspendedAt == 0 || line.suspendedAt < now, TimestampRegression);
      var next := line.(status := target, suspendedAt := now);
      Accepts(s, call, line, next, StoredBook());
      r := StoreAndPublish(b, next, previous.utilized, Some(previous.status), LineStatus(b, target));
    }

    method UnsuspendCreditLine(b: Address, cfg: Config, now: u64) returns (r: Result<()>)
      modifies this
      ensures Ran(RunLineOp(old(Snapshot()), Call(Op.UnsuspendLine(b), now, cfg)), Snapshot(), r)
    {
      ghost var s, call := Snapshot(), Call(Op.UnsuspendLine(b), now, cfg);
      var line :- LoadAccrued(b, cfg, now);
      var previous := lines[b];
      if !IsSuspended(line) {
        var allowed := Transition(line.status, Active, {Suspended, SelfSuspended}, WrongState(line.status));
        :- allowed;
      }
      var next := line.(status := Active, suspendedAt := 0);
      Accepts(s, call, line, next, StoredBook());
      r := StoreAndPublish(b, next, previous.utilized, Some(previous.status), LineStatus(b, Active));
    }

    method SelfUnsuspendCreditLine(b: Address, cfg: Config, now: u64) returns (r: Result<()>)
      modifies this
      ensures Ran(RunLineOp(old(Snapshot()), Call(Op.SelfUnsuspendLine(b), now, cfg)), Snapshot(), r)
    {
      ghost var s, call := Snapshot(), Call(Op.SelfUnsuspendLine(b), now, cfg);
      var line :- LoadAccrued(b, cfg, now);
      var previous := lines[b];
      :- Transition(line.status, Active, {SelfSuspended}, WrongState(line.status));
      var next := line.(status := Active, suspendedAt := 0);
      Accepts(s, call, line, next, StoredBook());
      r := StoreAndPublish(b, next, previous.utilized, Some(previous.status), LineStatus(b, Active));
    }

    /** Store the closed line and drop its schedule. */
    method StoreClosed(b: Address, next: Line, previousUtilized: int, previousStatus: Status) returns (r: Result<()>)
      modifies this`lines, this`ids, this`totalUtilized, this`activeLines, this`schedules, this`events
      ensures match Persist(old(StoredBook()), b, next, previousUtilized, Some(previousStatus))
        case Ok(k) =>
          && r == Ok(())
          && Snapshot() == old(Snapshot()).(
               book := k, schedules := old(schedules) - {b}, events := old(events) + [LineStatus(b, Closed)])
        case Err(e) => r == Err(e)
    {
      var _ :- PersistCreditLine(b, next, previousUtilized, Some(previousStatus));
      schedules := schedules - {b};
      Publish(LineStatus(b, Closed));
      return Ok(());
    }

    method CloseCreditLine(b: Address, closer: Closer, cfg: Config, now: u64) returns (r: Result<()>)
      modifies this
      ensures Ran(RunLineOp(old(Snapshot()), Call(Op.CloseLine(b, closer), now, cfg)), Snapshot(), r)
    {
      ghost var s, call := Snapshot(), Call(Op.CloseLine(b, closer), now, cfg);
      :- Need(b in lines, CreditLineNotFound);
      var line := lines[b];
      :- Need(line.status != Closed, StaleStateTransition);
      match closer {
        case Admin =>
        case Borrower => :- Need(line.utilized == 0, UtilizationNotZero);
        case Other => return Err(Unauthorized);
      }
      var next := line.(status := Closed);
      if line.status == Defaulted {
        pendingAuctions := CountDown(pendingAuctions);
      }
      ClosingAdmitted(s, call, line, next);
      Accepts(s, call, line, next, StoredBook());
      r := StoreClosed(b, next, line.utilized, line.status);
    }

    method DefaultCreditLine(b: Address, cfg: Config, now: u64) returns (r: Result<()>)
      modifies this
      ensures Ran(RunLineOp(old(Snapshot()), Call(Op.DefaultLine(b), now, cfg)), Snapshot(), r)
    {
      ghost var s, call := Snapshot(), Call(Op.DefaultLine(b), now, cfg);
      :- Need(b in lines, CreditLineNotFound);
      var previous := lines[b];
      :- Need(previous.status != Closed, CreditLineClosed);
      var line :- LoadAccrued(b, cfg, now);
      :- Transition(line.status, Defaulted, {Active, Suspended, SelfSuspended, Restricted}, CreditLineClosed);
      if cfg.liquidationGrace > 0 {
        var base := line.lastAccrual;
        if line.suspendedAt > 0 {
          base := line.suspendedAt;
        } else if b in schedules {
          base := schedules[b].nextDue;
        } else if line.lastRateUpdate > 0 {
          base := line.lastRateUpdate;
        }
        :- Need(now >= SatAdd64(base, cfg.liquidationGrace), LiquidationGraceActive);
      }
      var next := line.(status := Defaulted);
      pendingAuctions := CountUp(pendingAuctions);
      Accepts(s, call, line, next, StoredBook());
      r := StoreAndPublish(b, next, previous.utilized, Some(line.status), LineStatus(b, Defaulted));
    }

    method ReinstateCreditLine(b: Address, target: Status, cfg: Config, now: u64) returns (r: Result<()>)
      modifies this
      ensures Ran(RunLineOp(old(Snapshot()), Call(Op.ReinstateLine(b, target), now, cfg)), Snapshot(), r)
    {
      ghost var s, call := Snapshot(), Call(Op.ReinstateLine(b, target), now, cfg);
      :- Need(target == Active || target == Restricted, InvalidAmount);
      var line :- LoadAccrued(b, cfg, now);
      var previousUtilized := lines[b].utilized;
      :- Need(line.status != Closed, CreditLineClosed);
      :- Transition(line.status, target, {Defaulted}, CreditLineDefaulted);
      var next := line.(status := target, suspendedAt := 0);
      if line.status == Defaulted {
        pendingAuctions := CountDown(pendingAuctions);
      }
      Accepts(s, call, line, next, StoredBook());
      r := StoreAndPublish(b, next, previousUtilized, Some(line.status), LineStatus(b, target));
    }

    method UpdateRiskParameters(b: Address, limit: int, rate: u32, score: u32, cfg: Config, now: u64) returns (r: Result<()>)
      modifies this
      ensures Ran(RunLineOp(old(Snapshot()), Call(Op.UpdateRiskParameters(b, limit, rate, score), now, cfg)), Snapshot(), r)
    {
      ghost var s, call := Snapshot(), Call(Op.UpdateRiskParameters(b, limit, rate, score), now, cfg);
      var line :- LoadAccrued(b, cfg, now);
      var previousUtilized := lines[b].utilized;
      :- Need(limit >= 0, NegativeLimit);
      :- Need(score <= MAX_RISK_SCORE, ScoreTooHigh);
      :- Need(LimitInBounds(cfg, limit), LimitOutOfBounds);
      var stamp := line.lastRateUpdate;
      if cfg.rateLimits.Some? && rate != line.rate {
        var limits, change := cfg.rateLimits.value, if rate < line.rate then line.rate - rate else rate - line.rate;
        :- Need(change <= limits.maxChange, RateTooHigh);
        if limits.minInterval > 0 && line.lastRateUpdate > 0 {
          var elapsed := Max(now - line.lastRateUpdate, 0);
          :- Need(elapsed >= limits.minInterval, TimestampRegression);
        }
        stamp := now;
      }
      :- Need(rate <= MAX_INTEREST_RATE_BPS, RateTooHigh);
      var next := line.(rate := rate, riskScore := score, lastRateUpdate := stamp);
      if next.utilized > limit {
        if next.status == Active {
          next := next.(status := Restricted);
        }
      } else if next.status == Restricted {
        next := next.(status := Active);
      }
      next := next.(limit := limit);
      Accepts(s, call, line, next, StoredBook());
      r := PersistCreditLine(b, next, previousUtilized, Some(line.status));
    }

    method ForgiveDebt(b: Address, amount: i128, cfg: Config, now: u64) returns (r: Result<()>)
      modifies this
      ensures Ran(RunLineOp(old(Snapshot()), Call(Op.ForgiveDebt(b, amount), now, cfg)), Snapshot(), r)
    {
      ghost var s, call := Snapshot(), Call(Op.ForgiveDebt(b, amount), now, cfg);
      :- Need(amount > 0, InvalidAmount);
      var line :- LoadAccrued(b, cfg, now);
      var previous := lines[b];
      :- Need(line.status != Closed, CreditLineClosed);
      :- Need(line.utilized != 0, InvalidAmount);
      var forgiven := Min(amount, line.utilized);
      var interest := Min(forgiven, line.accrued);
      :- Need(InI128(line.accrued - interest) && InI128(line.utilized - forgiven), Overflow);
      var next := line.(accrued := line.accrued - interest, utilized := line.utilized - forgiven);
      Accepts(s, call, line, next, StoredBook());
      r := StoreAndPublish(b, next, previous.utilized, Some(previous.status), DebtForgiven(b, forgiven));
    }

    /** Replay marker, schedule and events of a settlement. */
    method RecordSettlement(b: Address, recovered: int, id: SettlementId, closed: bool)
      modifies this`schedules, this`settled, this`events
      ensures Snapshot() == old(Snapshot()).(
        schedules := if closed then old(schedules) - {b} else old(schedules),
        settled := old(settled) + {(b, id)},
        events := old(events) + ((if closed then [LineStatus(b, Closed)] else []) + [LiquidationSettled(b, recovered)]))
    {
      if closed {
        schedules := schedules - {b};
      }
      settled := settled + {(b, id)};
      if closed {
        Publish(LineStatus(b, Closed));
      }
      Publish(LiquidationSettled(b, recovered));
    }

    /** Only a defaulted line, and no more of its debt than the close factor. */
    method CheckCloseFactor(line: Line, recovered: int, factor: u32) returns (r: Result<()>)
      ensures r == match AdmitSettlement(line, recovered, factor) case Pass => Ok(()) case Fail(e) => Err(e)
    {
      if line.status != Defaulted {
        return Err(CreditLineDefaulted);
      }
      :- Need(InI128(line.utilized * factor), Overflow);
      :- Need(recovered <= line.utilized * factor / 10_000, OverLimit);
      return Ok(());
    }

    /** Store the settled line and record the settlement. */
    method StoreSettlement(b: Address, next: Line, previousUtilized: int, recovered: int, id: SettlementId) returns (r: Result<()>)
      modifies this`lines, this`ids, this`totalUtilized, this`activeLines, this`schedules, this`settled, this`events
      ensures match Persist(old(StoredBook()), b, next, previousUtilized, Some(Defaulted))
        case Ok(k) =>
          && r == Ok(())
          && Snapshot() == old(Snapshot()).(
               book := k,
               schedules := if next.status == Closed then old(schedules) - {b} else old(schedules),
               settled := old(settled) + {(b, id)},
               events := old(events)
                 + ((if next.status == Closed then [LineStatus(b, Closed)] else []) + [LiquidationSettled(b, recovered)]))
        case Err(e) => r == Err(e)
    {
      var _ :- PersistCreditLine(b, next, previousUtilized, Some(Defaulted));
      RecordSettlement(b, recovered, id, next.status == Closed);
      return Ok(());
    }

    /** What a settlement does once the line is accrued. */
    method SettleAccrued(b: Address, line: Line, recovered: int, id: SettlementId, closeFactorBps: u32,
                         ghost s: State, ghost call: Call)
      returns (r: Result<()>)
      requires call.op.SettleLiquidation? && b == call.op.b && recovered == call.op.recovered && id == call.op.id
      requires closeFactorBps == call.op.closeFactorBps && b in lines && Precheck(s, call).Pass?
      requires Snapshot() == s.(events := s.events + InterestEvents(b, lines[b], line))
      modifies this
      ensures Ran(LineStep(s, call, Ok(line)), Snapshot(), r)
    {
      var _ :- CheckCloseFactor(line, recovered, closeFactorBps);
      var next := Recover(line, recovered);
      if next.utilized == 0 {
        next := next.(status := Closed);
      }
      if line.status == Defaulted && next.status == Closed {
        pendingAuctions := CountDown(pendingAuctions);
      }
      SettlementAdmitted(s, call, line, next);
      Accepts(s, call, line, next, StoredBook());
      r := StoreSettlement(b, next, lines[b].utilized, recovered, id);
    }

    method SettleDefaultLiquidation(b: Address, recovered: int, id: SettlementId, closeFactorBps: u32, cfg: Config, now: u64)
      returns (r: Result<()>)
      modifies this
      ensures Ran(RunLineOp(old(Snapshot()), Call(Op.SettleLiquidation(b, recovered, id, closeFactorBps), now, cfg)), Snapshot(), r)
    {
      ghost var s, call := Snapshot(), Call(Op.SettleLiquidation(b, recovered, id, closeFactorBps), now, cfg);
      :- Need(recovered > 0 && 0 < closeFactorBps <= 10_000, InvalidAmount);
      :- Need(closeFactorBps <= cfg.closeFactor, OverLimit);
      :- Need((b, id) !in settled, AlreadyInitialized);
      var line :- LoadAccrued(b, cfg, now);
      r := SettleAccrued(b, line, recovered, id, closeFactorBps, s, call);
    }

    method ReverseDraw(b: Address, amount: i128, originalTs: u64, cfg: Config, now: u64) returns (r: Result<()>)
      modifies this
      ensures Ran(RunLineOp(old(Snapshot()), Call(Op.ReverseDrawn(b, amount, originalTs), now, cfg)), Snapshot(), r)
    {
      ghost var s, call := Snapshot(), Call(Op.ReverseDrawn(b, amount, originalTs), now, cfg);
      :- Need(amount > 0, InvalidAmount);
      :- Need(Max(now - originalTs, 0) <= DRAW_REVERSAL_WINDOW_SECS, DrawReversalWindowExpired);
      var line :- LoadAccrued(b, cfg, now);
      var previous, key := lines[b], (b, originalTs);
      :- Need(key in drawn, OriginalDrawNotFound);
      var alreadyReversed := Reversed(reversed, key);
      :- Need(amount <= drawn[key] - alreadyReversed && InI128(line.utilized - amount), OverLimit);
      var next := line.(utilized := line.utilized - amount);
      Accepts(s, call, line, next, StoredBook());
      var _ :- StoreAndPublish(b, next, previous.utilized, Some(previous.status), DrawReversed(b, amount));
      reversed := AddReversal(reversed, key, amount);
      return Ok(());
    }

    // ---- Schedules and the vault ------------------------------------------

    method SetRepaymentSchedule(b: Address, amount: int, period: u64, firstDue: u64) returns (r: Result<()>)
      modifies this`schedules
      ensures Ran(SetSchedule(old(Snapshot()), b, amount, period, firstDue), Snapshot(), r)
    {
      if amount <= 0 || period == 0 {
        return Err(InvalidAmount);
      }
      :- Need(b in lines, CreditLineNotFound);
      schedules := schedules[b := Schedule(amount, period, firstDue)];
      return Ok(());
    }

    method ProposeTreasuryWithdrawal(cfg: Config, now: u64) returns (r: Result<()>)
      modifies this`pendingWithdrawal
      ensures Ran(WithVault(old(Snapshot()), Propose(old(StoredVault()), now, cfg.hasTreasury), 0), Snapshot(), r)
    {
      if !cfg.hasTreasury {
        return Err(TreasuryNotSet);
      }
      :- Need(pendingWithdrawal.None?, TreasuryProposalExists);
      pendingWithdrawal := Some(Proposal(treasury, now, SatAdd64(now, TIMELOCK_SECONDS)));
      return Ok(());
    }

    method ExecuteTreasuryWithdrawal(cfg: Config, now: u64) returns (r: Result<()>)
      modifies this`pendingWithdrawal, this`treasury, this`payouts, this`custody
      ensures Ran(WithVault(old(Snapshot()), Execute(old(StoredVault()), now, cfg.hasToken, old(custody)),
                            PendingAmount(old(StoredVault()))), Snapshot(), r)
    {
      if pendingWithdrawal.None? {
        return Err(NoPendingTreasuryWithdrawal);
      }
      var proposal := pendingWithdrawal.value;
      :- Need(now >= proposal.executeAfter, TreasuryTimelockActive);
      :- Need(proposal.amount >= 0 && treasury - proposal.amount >= 0, InsufficientTreasuryBalance);
      treasury := treasury - proposal.amount;
      pendingWithdrawal := None;
      if proposal.amount > 0 {
        var amount := proposal.amount;
        :- Need(cfg.hasToken, MissingLiquidityToken);
        :- Need(proposal.amount <= custody, TokenTransferFailed);
        custody := custody - proposal.amount;
      }
      payouts := payouts + [Payout(proposal, now)];
      return Ok(());
    }

    method WithdrawBountyBalance(cfg: Config) returns (r: Result<()>)
      modifies this`bounty, this`bountyPaid, this`custody
      ensures Ran(WithVault(old(Snapshot()), WithdrawBounty(old(StoredVault()), cfg.hasBounty, cfg.hasToken, old(custody)),
                            old(bounty)), Snapshot(), r)
    {
      if !cfg.hasBounty {
        return Err(BountyNotSet);
      }
      if bounty == 0 {
        return Ok(());
      }
      :- Need(cfg.hasToken, MissingLiquidityToken);
      :- Need(bounty <= custody, TokenTransferFailed);
      custody := custody - bounty;
      bountyPaid := bountyPaid + bounty;
      bounty := 0;
      return Ok(());
    }

    // ---- Queries ----------------------------------------------------------

    method EnumerateCreditLines(startAfter: Option<u32>, limit: u32) returns (out: seq<Enumeration.Entry>)
      ensures out == Enumeration.Page(lines, ids, startAfter, limit)
    {
      var count, cappedLimit := |ids|, Min(limit, Enumeration.MAX_ENUMERATION_LIMIT);
      out := [];
      var nextId := Enumeration.FirstId(startAfter);
      ghost var all := Enumeration.Entries(lines, ids, nextId);
      while nextId < count && |out| < cappedLimit
        invariant |out| <= cappedLimit
        invariant all == out + Enumeration.Entries(lines, ids, nextId)
        decreases count - nextId
      {
        if ids[nextId] in lines {
          out := out + [Enumeration.Entry(nextId, lines[ids[nextId]])];
        }
        nextId := nextId + 1;
      }
    }

    // ---- Invocations ------------------------------------------------------

    method InvokeLineOp(call: Call) returns (r: Result<()>)
      requires IsLineOp(call.op)
      modifies this
      ensures Ran(RunLineOp(old(Snapshot()), call), Snapshot(), r)
    {
      var Call(op, now, cfg) := call;
      match op
      case SuspendLine(b) => r := SuspendInternal(b, Suspended, cfg, now);
      case SelfSuspendLine(b) => r := SuspendInternal(b, SelfSuspended, cfg, now);
      case UnsuspendLine(b) => r := UnsuspendCreditLine(b, cfg, now);
      case SelfUnsuspendLine(b) => r := SelfUnsuspendCreditLine(b, cfg, now);
      case CloseLine(b, closer) => r := CloseCreditLine(b, closer, cfg, now);
      case DefaultLine(b) => r := DefaultCreditLine(b, cfg, now);
      case ReinstateLine(b, target) => r := ReinstateCreditLine(b, target, cfg, now);
      case UpdateRiskParameters(b, limit, rate, score) => r := UpdateRiskParameters(b, limit, rate, score, cfg, now);
      case ForgiveDebt(b, amount) => r := ForgiveDebt(b, amount, cfg, now);
      case SettleLiquidation(b, recovered, id, factor) => r := SettleDefaultLiquidation(b, recovered, id, factor, cfg, now);
      case ReverseDrawn(b, amount, originalTs) => r := ReverseDraw(b, amount, originalTs, cfg, now);
    }

    method InvokeSideOp(call: Call) returns (r: Result<()>)
      requires IsSideOp(call.op)
      modifies this
      ensures Ran(SideStep(old(Snapshot()), call), Snapshot(), r)
    {
      var Call(op, now, cfg) := call;
      match op
      case SetRepaymentSchedule(b, amount, period, firstDue) => r := SetRepaymentSchedule(b, amount, period, firstDue);
      case ProposeWithdrawal => r := ProposeTreasuryWithdrawal(cfg, now);
      case ExecuteWithdrawal => r := ExecuteTreasuryWithdrawal(cfg, now);
      case SweepBounty => r := WithdrawBountyBalance(cfg);
    }

    method Dispatch(call: Call) returns (r: Result<()>)
      modifies this
      ensures Ran(Step(old(Snapshot()), call), Snapshot(), r)
    {
      var Call(op, now, cfg) := call;
      if IsLineOp(op) {
        r := InvokeLineOp(call);
      } else if IsSideOp(op) {
        r := InvokeSideOp(call);
      } else {
        match op
        case OpenLine(b, limit, rate, score) => r := OpenCreditLine(b, limit, rate, score, cfg, now);
        case DrawCredit(b, amount, collateral) => r := DrawCredit(b, amount, collateral, cfg, now);
        case RepayCredit(b, amount) => r := RepayCredit(b, amount, cfg, now);
        case AccrueBatch(bs) => r := AccrueBatch(bs, cfg, now);
      }
    }

    method RestoreBook(to: Book)
      requires InI128(to.totalUtilized)
      modifies this`lines, this`ids, this`totalUtilized, this`activeLines, this`pendingAuctions
      ensures StoredBook() == to
    {
      lines, ids, totalUtilized := to.lines, to.ids, to.totalUtilized;
      activeLines, pendingAuctions := to.activeLines, to.pendingAuctions;
    }

    method RestoreVault(to: Vault)
      requires InI128(to.treasury) && InI128(to.bounty)
      modifies this`treasury, this`bounty, this`pendingWithdrawal, this`collected, this`payouts, this`bountyPaid
      ensures StoredVault() == to
    {
      treasury, bounty, pendingWithdrawal := to.treasury, to.bounty, to.pending;
      collected, payouts, bountyPaid := to.collected, to.payouts, to.bountyPaid;
    }

    /** The host's rollback. */
    method Restore(to: State)
      requires InI128(to.book.totalUtilized) && InI128(to.vault.treasury) && InI128(to.vault.bounty)
      modifies this
      ensures Snapshot() == to
    {
      RestoreBook(to.book);
      RestoreVault(to.vault);
      schedules, settled, drawn, reversed := to.schedules, to.settled, to.audit.drawn, to.audit.reversed;
      reserve, custody, events := to.reserve, to.custody, to.events;
    }

    /** One transaction: run the entrypoint and roll a failed one back.  The object
        moves exactly as the ledger does, and stays valid whatever it is called
        with. */
    method Invoke(call: Call) returns (r: Result<()>)
      requires Valid()
      modifies this
      ensures Valid()
      ensures Snapshot() == Apply(old(Snapshot()), call)
      ensures r.Ok? == Step(old(Snapshot()), call).Ok?
      ensures r.Err? ==> r.error == Step(old(Snapshot()), call).error && Snapshot() == old(Snapshot())
    {
      var saved := Snapshot();
      r := Dispatch(call);
      if r.Err? {
        Restore(saved);
      } else {
        StepKeepsAccounting(saved, call);
      }
    }
  }
}
