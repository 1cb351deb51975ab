/** The credit engine as a transition system: every entrypoint is a function of
    the stored state, and a revert is an `Err`. */
module Ledger {
  import opened Prelude
  import opened Sums
  import opened Accrual
  import opened Installments
  import opened Fees

  type SettlementId = nat

  const MAX_RISK_SCORE: int := 100
  const DRAW_REVERSAL_WINDOW_SECS: int := 3_600
  const ACCRUE_BATCH_MAX: int := 50

  /** What the entrypoints publish, reduced to what an indexer needs. */
  datatype Event =
    | LineOpened(b: Address)
    | LineStatus(b: Address, status: Status)
    | InterestAccrued(b: Address, amount: int)
    | Drawn(b: Address, amount: int)
    | Repaid(b: Address, amount: int)
    | DebtForgiven(b: Address, amount: int)
    | LiquidationSettled(b: Address, amount: int)
    | DrawReversed(b: Address, amount: int)
    | LateFeeCharged(b: Address, amount: int)

  /** Admin configuration and host facts, free to differ from call to call. */
  datatype Config = Config(
    grace: Option<Grace>,
    lateFee: Option<LateFee>,
    legacySurcharge: Bps,
    legacyFlat: nat,
    protocolFee: Bps,
    feeShare: Bps,
    exposureCap: Option<int>,
    minRatioBps: u32,
    closeFactor: Bps,
    hasToken: bool,
    hasTreasury: bool,
    hasBounty: bool,
    selfSourced: bool,
    minLimit: Option<int>,
    maxLimit: Option<int>,
    rateLimits: Option<RateLimits>,
    liquidationGrace: u64)

  /** Optional bounds on how far and how often a rate may change. */
  datatype RateLimits = RateLimits(maxChange: u32, minInterval: u64)

  /** The stored lines, their enumeration index and the aggregates over them. */
  datatype Book = Book(
    lines: map<Address, Line>,
    ids: seq<Address>,
    totalUtilized: int,
    activeLines: int,
    pendingAuctions: int)

  /** The draw audit trail, keyed by borrower and timestamp. */
  datatype Audit = Audit(drawn: map<(Address, u64), int>, reversed: map<(Address, u64), int>)

  /** `custody` is the contract's own token balance, `reserve` that of the account
      an external liquidity source is. */
  datatype State = State(
    book: Book,
    schedules: map<Address, Schedule>,
    settled: set<(Address, SettlementId)>,
    audit: Audit,
    reserve: int,
    custody: int,
    vault: Vault,
    events: seq<Event>)

  function Genesis(reserve: int, custody: int): State {
    State(Book(map[], [], 0, 0, 0), map[], {}, Audit(map[], map[]), reserve, custody, EMPTY_VAULT, [])
  }

  // ---- Reads --------------------------------------------------------------

  function ScheduleOf(s: State, b: Address): Option<Schedule> {
    if b in s.schedules then Some(s.schedules[b]) else None
  }

  /** `query::is_delinquent` for the stored line. */
  predicate IsDelinquent(line: Line, schedule: Option<Schedule>, grace: Option<Grace>, now: u64) {
    && line.status != Closed
    && line.utilized > 0
    && schedule.Some?
    && now > SatAdd64(schedule.value.nextDue, if grace.Some? then grace.value.seconds else 0)
  }

  /** A structured late-fee configuration overrides the legacy surcharge. */
  function Surcharge(cfg: Config): Bps {
    match cfg.lateFee
    case Some(AprBased(surcharge)) => surcharge
    case Some(Flat(_)) => 0
    case None => cfg.legacySurcharge
  }

  function FeePerInstallment(cfg: Config): nat {
    match cfg.lateFee
    case Some(AprBased(_)) => 0
    case Some(Flat(amount)) => amount
    case None => cfg.legacyFlat
  }

  function EnvFor(s: State, cfg: Config, b: Address, now: u64): Env
    requires b in s.book.lines
  {
    Env(now, IsDelinquent(s.book.lines[b], ScheduleOf(s, b), cfg.grace, now), Surcharge(cfg), cfg.grace)
  }

  /** The stored line of `b`, accrued up to `now`. */
  function Current(s: State, cfg: Config, b: Address, now: u64): Result<Line> {
    if b !in s.book.lines then Err(CreditLineNotFound)
    else
      Accrue(s.book.lines[b], EnvFor(s, cfg, b, now))
  }

  /** What the entrypoints below are given: the accrued line of `b`, or the error. */
  ghost predicate IsCurrent(s: State, b: Address, cur: Result<Line>) {
    cur.Ok? ==> b in s.book.lines && Grown(s.book.lines[b], cur.value)
  }

  lemma CurrentIsCurrent(s: State, cfg: Config, b: Address, now: u64)
    ensures IsCurrent(s, b, Current(s, cfg, b, now))
  {
    if Current(s, cfg, b, now).Ok? {
      AccrueGrows(s.book.lines[b], EnvFor(s, cfg, b, now));
    }
  }

  function InterestEvents(b: Address, was: Line, line: Line): seq<Event> {
    if line.utilized != was.utilized then [InterestAccrued(b, line.utilized - was.utilized)] else []
  }

  // ---- Writes -------------------------------------------------------------

  function DebtIn(lines: map<Address, Line>): Address -> int {
    (b: Address) => if b in lines then lines[b].utilized else 0
  }

  function StatusIn(lines: map<Address, Line>, status: Status): Address -> int {
    (b: Address) => if b in lines && lines[b].status == status then 1 else 0
  }

  /** `assert_total_utilized_conserved`: re-add every line, in `i128`. */
  predicate TotalConserved(lines: map<Address, Line>, ids: seq<Address>, total: int) {
    total == SumOf(DebtIn(lines), ids) && PartialSumsFit(lines, ids)
  }

  predicate PartialSumsFit(lines: map<Address, Line>, ids: seq<Address>) {
    |ids| == 0 || (PartialSumsFit(lines, ids[..|ids| - 1]) && InI128(SumOf(DebtIn(lines), ids)))
  }

  /** `ensure_credit_line_id`; a full index is a revert here. */
  function EnsureId(ids: seq<Address>, b: Address): Result<seq<Address>> {
    if b in ids then Ok(ids)
    else if |ids| >= U32_MAX then Err(IndexFull)
    else Ok(ids + [b])
  }

  function CountUp(n: int): int {
    Min(n + 1, U32_MAX)
  }

  function CountDown(n: int): int {
    Max(n - 1, 0)
  }

  function ActiveAfter(active: int, was: Option<Status>, status: Status): int {
    if status == Active && was != Some(Active) then CountUp(active)
    else if status != Active && was == Some(Active) then CountDown(active)
    else active
  }

  /** `adjust_total_utilized`: move the global total by the change in one line,
      and re-check it. */
  function AdjustedTotal(lines: map<Address, Line>, ids: seq<Address>, total: int, previous: int, utilized: int): Result<int> {
    var delta :- CheckedI128(utilized - previous);
    var updated :- CheckedI128(total + delta);
    :- Need(delta == 0 || TotalConserved(lines, ids, updated), Panic);
    Ok(updated)
  }

  /** `persist_credit_line`: store the line, adjust the global total, and keep the
      count of active lines. */
  function Persist(k: Book, b: Address, line: Line, previousUtilized: int, previousStatus: Option<Status>): Result<Book> {
    var ids :- EnsureId(k.ids, b);
    var lines := k.lines[b := line];
    var total :- AdjustedTotal(lines, ids, k.totalUtilized, previousUtilized, line.utilized);
    Ok(Book(lines, ids, total, ActiveAfter(k.activeLines, previousStatus, line.status), k.pendingAuctions))
  }

  /** Persist a changed version of a stored line, with the auction counter the
      entrypoint set, and publish `published`. */
  function Replace(s: State, b: Address, line: Line, pending: int, published: seq<Event>): Result<State>
    requires b in s.book.lines
  {
    var was := s.book.lines[b];
    var book :- Persist(s.book.(pendingAuctions := pending), b, line, was.utilized, Some(was.status));
    Ok(s.(book := book, events := s.events + published))
  }

  /** Replace without a status change that concerns the auctions. */
  function Update(s: State, b: Address, line: Line, published: seq<Event>): Result<State>
    requires b in s.book.lines
  {
    Replace(s, b, line, s.book.pendingAuctions, published)
  }

  /** The auction counter once a defaulted line stops being one. */
  function AuctionsWithout(k: Book, was: Status): int {
    if was == Defaulted then CountDown(k.pendingAuctions) else k.pendingAuctions
  }

  // ---- Accrual loops ------------------------------------------------------

  datatype Scope = ActiveOnly | Except(excluded: Address)

  predicate InScope(s: State, scope: Scope, b: Address) {
    && b in s.book.lines
    && (scope.ActiveOnly? ==> s.book.lines[b].status == Active && s.book.lines[b].utilized > 0)
    && (scope.Except? ==> b != scope.excluded)
  }

  /** Store an accrued line if accruing changed it. */
  function Materialize(s: State, b: Address, cur: Result<Line>): Result<State>
    requires b in s.book.lines
  {
    var was := s.book.lines[b];
    var line :- cur;
    if line.utilized == was.utilized && line.lastAccrual == was.lastAccrual then Ok(s)
    else Update(s, b, line, InterestEvents(b, was, line))
  }

  /** One iteration of `accrue_batch` or `accrue_all_except`. */
  function AccrueOne(s: State, cfg: Config, scope: Scope, b: Address, now: u64): Result<State> {
    if InScope(s, scope, b) then Materialize(s, b, Current(s, cfg, b, now)) else Ok(s)
  }

  function AccrueEach(s: State, cfg: Config, scope: Scope, bs: seq<Address>, now: u64): Result<State> {
    if |bs| == 0 then Ok(s)
    else
      var before :- AccrueEach(s, cfg, scope, bs[..|bs| - 1], now);
      AccrueOne(before, cfg, scope, bs[|bs| - 1], now)
  }

  /** `accrue_batch`, with the entrypoint's limit on the list. */
  function Batch(s: State, cfg: Config, bs: seq<Address>, now: u64): Result<State> {
    if |bs| > ACCRUE_BATCH_MAX then Err(InvalidAmount)
    else
      AccrueEach(s, cfg, ActiveOnly, bs, now)
  }

  // ---- Origination, draw, repay -------------------------------------------

  /** The record `open_credit_line` writes over `was`: debt survives a re-opening
      unless the line was closed. */
  function Reopened(was: Line, limit: int, rate: Bps, score: u32, now: u64): Line {
    if was.status == Closed then NewLine(limit, rate, score, now)
    else Line(limit, was.utilized, rate, score, Active, 0, was.accrued, was.lastAccrual, 0)
  }

  function NewLine(limit: int, rate: Bps, score: u32, now: u64): Line {
    Line(limit, 0, rate, score, Active, 0, 0, now, 0)
  }

  /** `validate_credit_limit_bounds`. */
  predicate LimitInBounds(cfg: Config, limit: int) {
    && (cfg.minLimit.Some? ==> cfg.minLimit.value <= limit)
    && (cfg.maxLimit.Some? ==> limit <= cfg.maxLimit.value)
  }

  function Open(s: State, cfg: Config, b: Address, limit: int, rate: u32, score: u32, now: u64): Result<State> {
    if limit <= 0 then Err(InvalidAmount)
    else
      :- Need(rate <= MAX_INTEREST_RATE_BPS, RateTooHigh);
      :- Need(score <= MAX_RISK_SCORE, ScoreTooHigh);
      :- Need(LimitInBounds(cfg, limit), LimitOutOfBounds);
      if b !in s.book.lines then
        var book :- Persist(s.book, b, NewLine(limit, rate, score, now), 0, None);
        Ok(s.(book := book, schedules := s.schedules - {b}, events := s.events + [LineOpened(b)]))
      else
        var was := s.book.lines[b];
        :- Need(was.status != Active, AlreadyInitialized);
        var stored :- Replace(s, b, Reopened(was, limit, rate, score, now), AuctionsWithout(s.book, was.status), [LineOpened(b)]);
        Ok(stored.(schedules := s.schedules - {b}))
  }

  /** `borrow::draw_status_error`. */
  function DrawStatus(status: Status): Outcome {
    match status
    case Active | Restricted => Pass
    case Suspended | SelfSuspended => Fail(CreditLineSuspended)
    case Defaulted => Fail(CreditLineDefaulted)
    case Closed => Fail(CreditLineClosed)
  }

  /** `required_collateral`, with Rust's division truncating toward zero. */
  function RequiredCollateral(utilized: int, ratio: u32): Result<int> {
    var n := utilized * ratio;
    :- Need(InI128(n), Overflow);
    var q := if n >= 0 then n / 10_000 else -(-n / 10_000);
    Ok(q + if n % 10_000 == 0 then 0 else 1)
  }

  /** The global-cap check of a draw, after every other line has been accrued. */
  function UnderCap(s: State, cfg: Config, b: Address, pendingAccrual: int, amount: int, now: u64): Result<State> {
    match cfg.exposureCap
    case None => Ok(s)
    case Some(cap) =>
      var accrued :- AccrueEach(s, cfg, Except(b), s.book.ids, now);
      var pending :- CheckedI128(pendingAccrual);
      var withPending :- CheckedI128(accrued.book.totalUtilized + pending);
      var projected :- CheckedI128(withPending + amount);
      :- Need(projected <= cap, ExposureCapExceeded);
      Ok(accrued)
  }

  /** The checks a draw makes on the accrued line; `collateral` is the borrower's
      effective collateral value. */
  function AdmitDraw(cfg: Config, line: Line, amount: int, collateral: int): Result<()> {
    var admitted := DrawStatus(line.status);
    :- admitted;
    var updated :- CheckedI128(line.utilized + amount);
    :- Need(updated <= line.limit, OverLimit);
    var required :- RequiredCollateral(updated, cfg.minRatioBps);
    :- Need(required <= collateral, CollateralRatioBelowMinimum);
    Ok(())
  }

  /** Where the cap check leaves the state: the drawer's own interest published,
      every other line accrued when there is a cap. */
  function Capped(s: State, cfg: Config, b: Address, line: Line, amount: int, now: u64): Result<State>
    requires b in s.book.lines
  {
    UnderCap(Billed(s, b, line), cfg, b, line.utilized - s.book.lines[b].utilized, amount, now)
  }

  function Billed(s: State, b: Address, line: Line): State
    requires b in s.book.lines
  {
    s.(events := s.events + InterestEvents(b, s.book.lines[b], line))
  }

  /** A second draw at the same timestamp replaces the record of the first. */
  function RecordDraw(drawn: map<(Address, u64), int>, key: (Address, u64), amount: int): map<(Address, u64), int> {
    drawn[key := amount]
  }

  /** The balance draws are paid from: by default the contract's own. */
  function Source(s: State, cfg: Config): int {
    if cfg.selfSourced then s.custody else s.reserve
  }

  /** Move `amount` into the liquidity source, or out of it when negative. */
  function IntoSource(s: State, cfg: Config, amount: int): State {
    if cfg.selfSourced then s.(custody := s.custody + amount) else s.(reserve := s.reserve + amount)
  }

  /** Transfer and store, from the state `s1` the cap check left. */
  function FinishDraw(s1: State, cfg: Config, b: Address, line: Line, wasUtilized: int, amount: int, now: u64): Result<State> {
    if !cfg.hasToken then Err(MissingLiquidityToken)
    else
      :- Need(amount <= Source(s1, cfg), InsufficientLiquidityReserve);
      var book :- Persist(s1.book, b, line.(utilized := line.utilized + amount), wasUtilized, Some(line.status));
      Ok(IntoSource(s1, cfg, -amount).(
        book := book,
        audit := s1.audit.(drawn := RecordDraw(s1.audit.drawn, (b, now), amount)),
        events := s1.events + [Drawn(b, amount)]))
  }

  function Draw(s: State, cfg: Config, b: Address, cur: Result<Line>, amount: int, collateral: int, now: u64): Result<State>
    requires cur.Ok? ==> b in s.book.lines
  {
    if amount <= 0 then Err(InvalidAmount)
    else
      var line :- cur;
      var _ :- AdmitDraw(cfg, line, amount, collateral);
      var s1 :- Capped(s, cfg, b, line, amount, now);
      FinishDraw(s1, cfg, b, line, s.book.lines[b].utilized, amount, now)
  }

  /** The parts of a repayment (`allocate_repayment`). */
  datatype Allocation = Allocation(paid: int, interest: int, principal: int)

  function AllocateRepayment(totalDebt: int, accrued: int, amount: int): (a: Allocation)
    ensures 0 <= totalDebt && 0 <= amount ==> a.paid == Min(amount, totalDebt)
    ensures a.paid == a.interest + a.principal && 0 <= a.interest && 0 <= a.principal
    ensures 0 <= accrued <= totalDebt ==> a.interest <= accrued && (a.principal > 0 ==> a.interest == accrued)
  {
    var total := Max(totalDebt, 0);
    var interestDue := Max(Min(accrued, total), 0);
    var paid := Max(Min(amount, total), 0);
    var interest := Max(Min(paid, interestDue), 0);
    Allocation(paid, interest, paid - interest)
  }

  /** The protocol fee on the interest component, clamped to the payment. */
  function ProtocolFee(a: Allocation, bps: Bps): Result<int> {
    if a.paid > 0 && bps > 0 && a.interest > 0 then
      :- Need(a.interest * bps <= U128_MAX, Panic);
      Ok(Min(a.interest * bps / 10_000, a.paid))
    else Ok(0)
  }

  /** The allocation of a payment over an accrued line. */
  function RepaymentOf(line: Line, amount: int): Allocation {
    AllocateRepayment(Max(line.utilized, 0), Max(Min(line.accrued, Max(line.utilized, 0)), 0), amount)
  }

  function RepaidLine(line: Line, a: Allocation): Line {
    line.(accrued := Max(Min(line.accrued, Max(line.utilized, 0)), 0) - a.interest,
          utilized := Max(line.utilized - a.paid, 0))
  }

  /** The transfers of a repayment: the fee into custody, the rest to the source. */
  function TakePayment(s: State, cfg: Config, a: Allocation): Result<State> {
    var fee :- ProtocolFee(a, cfg.protocolFee);
    var vault :- AccrueFee(s.vault, fee, cfg.feeShare);
    Ok(IntoSource(s.(vault := vault, custody := s.custody + fee), cfg, a.paid - fee))
  }

  /** Move the due date by the principal paid, and charge the late fee. */
  function ChargeLateFee(s: State, cfg: Config, b: Address, principal: int, now: u64): Result<State> {
    var (schedule, late) :- AdvanceSchedule(ScheduleOf(s, b), principal, FeePerInstallment(cfg), now);
    var vault :- AccrueFee(s.vault, late, cfg.feeShare);
    Ok(s.(vault := vault,
          custody := s.custody + late,
          schedules := if schedule.Some? then s.schedules[b := schedule.value] else s.schedules,
          events := s.events + LateFeeEvents(b, late)))
  }

  /** Take the payment, store the line, advance the schedule. */
  function FinishRepay(s: State, cfg: Config, b: Address, line: Line, wasUtilized: int, a: Allocation, now: u64): Result<State> {
    var s1 :- TakePayment(s, cfg, a);
    var book :- Persist(s1.book, b, RepaidLine(line, a), wasUtilized, Some(line.status));
    var s2 :- ChargeLateFee(s1.(book := book), cfg, b, a.principal, now);
    Ok(s2.(events := s2.events + [Repaid(b, a.paid)]))
  }

  function Repay(s: State, cfg: Config, b: Address, cur: Result<Line>, amount: int, now: u64): Result<State>
    requires cur.Ok? ==> b in s.book.lines
  {
    if amount <= 0 then Err(InvalidAmount)
    else
      var line :- cur;
      :- Need(line.status != Closed, CreditLineClosed);
      :- Need(cfg.hasToken, MissingLiquidityToken);
      FinishRepay(Billed(s, b, line), cfg, b, line, s.book.lines[b].utilized, RepaymentOf(line, amount), now)
  }

  function LateFeeEvents(b: Address, late: int): seq<Event> {
    if late > 0 then [LateFeeCharged(b, late)] else []
  }

  // ---- Calls --------------------------------------------------------------

  datatype Closer = Admin | Borrower | Other

  datatype Op =
    | OpenLine(b: Address, limit: int, rate: u32, score: u32)
    | DrawCredit(b: Address, amount: i128, collateral: int)
    | RepayCredit(b: Address, amount: i128)
    | AccrueBatch(bs: seq<Address>)
    | SuspendLine(b: Address)
    | SelfSuspendLine(b: Address)
    | UnsuspendLine(b: Address)
    | SelfUnsuspendLine(b: Address)
    | CloseLine(b: Address, closer: Closer)
    | DefaultLine(b: Address)
    | ReinstateLine(b: Address, target: Status)
    | UpdateRiskParameters(b: Address, limit: int, rate: u32, score: u32)
    | ForgiveDebt(b: Address, amount: i128)
    | SettleLiquidation(b: Address, recovered: int, id: SettlementId, closeFactorBps: u32)
    | ReverseDrawn(b: Address, amount: i128, originalTs: u64)
    | SetRepaymentSchedule(b: Address, perPeriod: int, period: u64, firstDue: u64)
    | ProposeWithdrawal
    | ExecuteWithdrawal
    | SweepBounty

  datatype Call = Call(op: Op, now: u64, cfg: Config)

  // ---- Entrypoints that rewrite one stored line ---------------------------

  /** `require_valid_transition`. */
  function Transition(current: Status, target: Status, sources: set<Status>, wrong: Error): Outcome {
    if current in sources then Pass
    else if current == target then Fail(StaleStateTransition)
    else Fail(wrong)
  }

  function WrongState(current: Status): Error {
    if current == Closed then CreditLineClosed
    else if current == Defaulted then CreditLineDefaulted
    else CreditLineSuspended
  }

  predicate IsLineOp(op: Op) {
    op.SuspendLine? || op.SelfSuspendLine? || op.UnsuspendLine? || op.SelfUnsuspendLine? || op.CloseLine?
    || op.DefaultLine? || op.ReinstateLine? || op.UpdateRiskParameters? || op.ForgiveDebt?
    || op.SettleLiquidation? || op.ReverseDrawn?
  }

  /** The checks an entrypoint makes before it accrues the line. */
  function Precheck(s: State, call: Call): Outcome
    requires IsLineOp(call.op)
  {
    var Call(op, now, cfg) := call;
    match op
    case DefaultLine(b) =>
      if b !in s.book.lines then Fail(CreditLineNotFound)
      else Need(s.book.lines[b].status != Closed, CreditLineClosed)
    case ReinstateLine(_, target) => Need(target == Active || target == Restricted, InvalidAmount)
    case ForgiveDebt(_, amount) => Need(amount > 0, InvalidAmount)
    case SettleLiquidation(b, recovered, id, factor) =>
      if recovered <= 0 || factor == 0 || factor > 10_000 then Fail(InvalidAmount)
      else if factor > cfg.closeFactor then Fail(OverLimit)
      else Need((b, id) !in s.settled, AlreadyInitialized)
    case ReverseDrawn(_, amount, originalTs) =>
      if amount <= 0 then Fail(InvalidAmount)
      else Need(Max(now - originalTs, 0) <= DRAW_REVERSAL_WINDOW_SECS, DrawReversalWindowExpired)
    case _ => Pass
  }

  /** The line an entrypoint works on; only closing skips the accrual. */
  function Read(s: State, call: Call): Result<Line>
    requires IsLineOp(call.op)
  {
    if call.op.CloseLine? then
      if call.op.b in s.book.lines then Ok(s.book.lines[call.op.b]) else Err(CreditLineNotFound)
    else Current(s, call.cfg, call.op.b, call.now)
  }

  /** What was already reversed of a draw. */
  function Reversed(reversed: map<(Address, u64), int>, key: (Address, u64)): int {
    if key in reversed then reversed[key] else 0
  }

  function AddReversal(reversed: map<(Address, u64), int>, key: (Address, u64), amount: int): map<(Address, u64), int> {
    reversed[key := Reversed(reversed, key) + amount]
  }

  /** The checks an entrypoint makes on the line it read. */
  function Admit(s: State, call: Call, line: Line): Outcome
    requires IsLineOp(call.op)
  {
    var Call(op, now, cfg) := call;
    match op
    case SuspendLine(_) => AdmitSuspension(line, Suspended, now)
    case SelfSuspendLine(_) => AdmitSuspension(line, SelfSuspended, now)
    case UnsuspendLine(_) => Transition(line.status, Active, {Suspended, SelfSuspended}, WrongState(line.status))
    case SelfUnsuspendLine(_) => Transition(line.status, Active, {SelfSuspended}, WrongState(line.status))
    case CloseLine(_, closer) =>
      if line.status == Closed then Fail(StaleStateTransition)
      else if closer == Borrower && line.utilized != 0 then Fail(UtilizationNotZero)
      else Need(closer != Other, Unauthorized)
    case DefaultLine(b) => AdmitDefault(s, cfg, b, line, now)
    case ReinstateLine(_, target) =>
      if line.status == Closed then Fail(CreditLineClosed)
      else Transition(line.status, target, {Defaulted}, CreditLineDefaulted)
    case UpdateRiskParameters(_, limit, rate, score) =>
      if limit < 0 then Fail(NegativeLimit)
      else if score > MAX_RISK_SCORE then Fail(ScoreTooHigh)
      else if !LimitInBounds(cfg, limit) then Fail(LimitOutOfBounds)
      else AdmitRate(cfg, line, rate, now)
    case ForgiveDebt(_, amount) => AdmitForgiveness(line, amount)
    case SettleLiquidation(_, recovered, _, factor) => AdmitSettlement(line, recovered, factor)
    case ReverseDrawn(b, amount, originalTs) => AdmitReversal(s, line, amount, (b, originalTs))
  }

  /** The transition into default, and the borrower's liquidation grace counted
      from the suspension, the next due date, the last rate change or the last
      accrual, whichever is recorded first in this order. */
  function AdmitDefault(s: State, cfg: Config, b: Address, line: Line, now: u64): Outcome {
    match Transition(line.status, Defaulted, {Active, Suspended, SelfSuspended, Restricted}, CreditLineClosed)
    case Fail(e) => Fail(e)
    case Pass =>
      Need(cfg.liquidationGrace == 0 || SatAdd64(GraceBase(s, b, line), cfg.liquidationGrace) <= now, LiquidationGraceActive)
  }

  function GraceBase(s: State, b: Address, line: Line): u64 {
    if line.suspendedAt > 0 then line.suspendedAt
    else if b in s.schedules then s.schedules[b].nextDue
    else if line.lastRateUpdate > 0 then line.lastRateUpdate
    else line.lastAccrual
  }

  /** The guardrails on a rate change, when configured, and the global maximum. */
  function AdmitRate(cfg: Config, line: Line, rate: u32, now: u64): Outcome {
    if cfg.rateLimits.Some? && rate != line.rate then
      var limits := cfg.rateLimits.value;
      if Max(rate - line.rate, line.rate - rate) > limits.maxChange then Fail(RateTooHigh)
      else if limits.minInterval > 0 && line.lastRateUpdate > 0 && Max(now - line.lastRateUpdate, 0) < limits.minInterval
      then Fail(TimestampRegression)
      else Need(rate <= MAX_INTEREST_RATE_BPS, RateTooHigh)
    else Need(rate <= MAX_INTEREST_RATE_BPS, RateTooHigh)
  }

  /** Only a limited rate change leaves a timestamp. */
  function RateStamp(cfg: Config, line: Line, rate: u32, now: u64): u64 {
    if cfg.rateLimits.Some? && rate != line.rate then now else line.lastRateUpdate
  }

  function AdmitForgiveness(line: Line, amount: int): Outcome {
    if line.status == Closed then Fail(CreditLineClosed)
    else if line.utilized == 0 then Fail(InvalidAmount)
    else Need(InI128(Recover(line, amount).accrued) && InI128(Recover(line, amount).utilized), Overflow)
  }

  function AdmitSettlement(line: Line, recovered: int, factor: u32): Outcome {
    if line.status != Defaulted then Fail(CreditLineDefaulted)
    else if !InI128(line.utilized * factor) then Fail(Overflow)
    else Need(recovered <= line.utilized * factor / 10_000, OverLimit)
  }

  function AdmitReversal(s: State, line: Line, amount: int, key: (Address, u64)): Outcome {
    if key !in s.audit.drawn then Fail(OriginalDrawNotFound)
    else Need(amount <= s.audit.drawn[key] - Reversed(s.audit.reversed, key) && InI128(line.utilized - amount), OverLimit)
  }

  function AdmitSuspension(line: Line, target: Status, now: u64): Outcome {
    match Transition(line.status, target, {Active}, WrongState(line.status))
    case Fail(e) => Fail(e)
    case Pass => Need(line.suspendedAt == 0 || line.suspendedAt < now, TimestampRegression)
  }

  /** `allocate_recovery`: interest first, clamped to the debt. */
  function Recover(line: Line, amount: int): Line {
    var paid := Min(amount, line.utilized);
    line.(accrued := line.accrued - Min(paid, line.accrued), utilized := line.utilized - paid)
  }

  /** The line after a recovery: closed once nothing is owed. */
  function SettledLine(line: Line, recovered: int): Line {
    var after := Recover(line, recovered);
    if after.utilized == 0 then after.(status := Closed) else after
  }

  /** A limit below the debt restricts an active line; a sufficient one cures it. */
  function StatusUnder(line: Line, limit: int): Status {
    if line.utilized > limit then (if line.status == Active then Restricted else line.status)
    else if line.status == Restricted then Active
    else line.status
  }

  /** The line an entrypoint stores. */
  function Next(call: Call, line: Line): Line
    requires IsLineOp(call.op)
  {
    match call.op
    case SuspendLine(_) => line.(status := Suspended, suspendedAt := call.now)
    case SelfSuspendLine(_) => line.(status := SelfSuspended, suspendedAt := call.now)
    case UnsuspendLine(_) => line.(status := Active, suspendedAt := 0)
    case SelfUnsuspendLine(_) => line.(status := Active, suspendedAt := 0)
    case CloseLine(_, _) => line.(status := Closed)
    case DefaultLine(_) => line.(status := Defaulted)
    case ReinstateLine(_, target) => line.(status := target, suspendedAt := 0)
    case UpdateRiskParameters(_, limit, rate, score) =>
      line.(limit := limit, rate := Min(rate, MAX_INTEREST_RATE_BPS), riskScore := score, status := StatusUnder(line, limit),
            lastRateUpdate := RateStamp(call.cfg, line, rate, call.now))
    case ForgiveDebt(_, amount) => Recover(line, amount)
    case SettleLiquidation(_, recovered, _, _) => SettledLine(line, recovered)
    case ReverseDrawn(_, amount, _) => line.(utilized := line.utilized - amount)
  }

  /** How an entrypoint moves the auction counter: up when it defaults a line,
      down on each of the four ways out. */
  function Auctions(pending: int, call: Call, was: Status, next: Status): int
    requires IsLineOp(call.op)
  {
    match call.op
    case DefaultLine(_) => CountUp(pending)
    case CloseLine(_, _) => if was == Defaulted then CountDown(pending) else pending
    case ReinstateLine(_, _) => if was == Defaulted then CountDown(pending) else pending
    case SettleLiquidation(_, _, _, _) => if was == Defaulted && next == Closed then CountDown(pending) else pending
    case _ => pending
  }

  function Published(call: Call, line: Line): seq<Event>
    requires IsLineOp(call.op)
  {
    match call.op
    case UpdateRiskParameters(_, _, _, _) => []
    case ForgiveDebt(b, amount) => [DebtForgiven(b, Min(amount, line.utilized))]
    case SettleLiquidation(b, recovered, _, _) =>
      (if Next(call, line).status == Closed then [LineStatus(b, Closed)] else []) + [LiquidationSettled(b, recovered)]
    case ReverseDrawn(b, amount, _) => [DrawReversed(b, amount)]
    case _ => [LineStatus(call.op.b, Next(call, line).status)]
  }

  /** Schedules are dropped with the line; settlements and reversals are recorded. */
  function Record(s: State, call: Call, next: Line): State
    requires IsLineOp(call.op)
  {
    match call.op
    case CloseLine(b, _) => s.(schedules := s.schedules - {b})
    case SettleLiquidation(b, _, id, _) =>
      s.(schedules := if next.status == Closed then s.schedules - {b} else s.schedules,
         settled := s.settled + {(b, id)})
    case ReverseDrawn(b, amount, originalTs) =>
      s.(audit := s.audit.(reversed := AddReversal(s.audit.reversed, (b, originalTs), amount)))
    case _ => s
  }

  /** The book after storing what an entrypoint makes of the line it read. */
  function Stored(s: State, call: Call, line: Line): Result<Book>
    requires IsLineOp(call.op) && call.op.b in s.book.lines
  {
    var next := Next(call, line);
    Persist(s.book.(pendingAuctions := Auctions(s.book.pendingAuctions, call, line.status, next.status)),
            call.op.b, next, s.book.lines[call.op.b].utilized, Some(line.status))
  }

  /** One such entrypoint, given the line it read. */
  function LineStep(s: State, call: Call, read: Result<Line>): Result<State>
    requires IsLineOp(call.op) && (read.Ok? ==> call.op.b in s.book.lines)
  {
    var allowed := Precheck(s, call);
    :- allowed;
    var line :- read;
    :- Admit(s, call, line);
    var book :- Stored(s, call, line);
    Ok(Record(s, call, Next(call, line)).(book := book,
      events := s.events + InterestEvents(call.op.b, s.book.lines[call.op.b], line) + Published(call, line)))
  }

  function SetSchedule(s: State, b: Address, amount: int, period: u64, firstDue: u64): Result<State> {
    if amount <= 0 || period == 0 then Err(InvalidAmount)
    else
      :- Need(b in s.book.lines, CreditLineNotFound);
      Ok(s.(schedules := s.schedules[b := Schedule(amount, period, firstDue)]))
  }

  /** A vault step that pays `paid` out of custody. */
  function WithVault(s: State, vault: Result<Vault>, paid: int): Result<State> {
    var v :- vault;
    Ok(s.(vault := v, custody := s.custody - paid))
  }

  function PendingAmount(v: Vault): int {
    if v.pending.Some? then v.pending.value.amount else 0
  }

  /** The calls that touch no line: schedules and the vault. */
  predicate IsSideOp(op: Op) {
    op.SetRepaymentSchedule? || op.ProposeWithdrawal? || op.ExecuteWithdrawal? || op.SweepBounty?
  }

  function SideStep(s: State, call: Call): Result<State>
    requires IsSideOp(call.op)
  {
    var Call(op, now, cfg) := call;
    match op
    case SetRepaymentSchedule(b, amount, period, firstDue) => SetSchedule(s, b, amount, period, firstDue)
    case ProposeWithdrawal => WithVault(s, Propose(s.vault, now, cfg.hasTreasury), 0)
    case ExecuteWithdrawal => WithVault(s, Execute(s.vault, now, cfg.hasToken, s.custody), PendingAmount(s.vault))
    case SweepBounty => WithVault(s, WithdrawBounty(s.vault, cfg.hasBounty, cfg.hasToken, s.custody), s.vault.bounty)
  }

  // ---- Runs ---------------------------------------------------------------

  /** One call of a public entrypoint. */
  function Step(s: State, call: Call): Result<State> {
    var Call(op, now, cfg) := call;
    if IsLineOp(op) then LineStep(s, call, Read(s, call))
    else if IsSideOp(op) then SideStep(s, call)
    else
      match op
      case OpenLine(b, limit, rate, score) => Open(s, cfg, b, limit, rate, score, now)
      case DrawCredit(b, amount, collateral) => Draw(s, cfg, b, Current(s, cfg, b, now), amount, collateral, now)
      case RepayCredit(b, amount) => Repay(s, cfg, b, Current(s, cfg, b, now), amount, now)
      case AccrueBatch(bs) => Batch(s, cfg, bs, now)
  }

  /** A reverted call leaves the state as it was. */
  function Apply(s: State, call: Call): State {
    var r := Step(s, call);
    if r.Ok? then r.value else s
  }

  function Exec(s: State, calls: seq<Call>): State {
    if |calls| == 0 then s else Apply(Exec(s, calls[..|calls| - 1]), calls[|calls| - 1])
  }
}
