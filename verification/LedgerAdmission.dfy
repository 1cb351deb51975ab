/** Exactly when an entrypoint that rewrites one line succeeds, and what it leaves. */
module LedgerAdmission {
  import opened Prelude
  import opened Arith
  import opened Sums
  import opened Accrual
  import opened Fees
  import opened Installments
  import opened Ledger
  import opened LedgerInvariants
  import opened LedgerSoundness
  import opened LedgerLoops
  import LedgerLifecycle

  // ---- Conditions ---------------------------------------------------------

  predicate WithinBounds(cfg: Config, limit: int) {
    match (cfg.minLimit, cfg.maxLimit)
    case (None, None) => true
    case (Some(low), None) => low <= limit
    case (None, Some(high)) => limit <= high
    case (Some(low), Some(high)) => low <= limit <= high
  }

  predicate WithinRateLimits(cfg: Config, line: Line, rate: int, now: u64) {
    match cfg.rateLimits
    case None => true
    case Some(limits) =>
      || rate == line.rate
      || (&& rate <= line.rate + limits.maxChange && line.rate <= rate + limits.maxChange
          && (limits.minInterval == 0 || line.lastRateUpdate == 0 || line.lastRateUpdate + limits.minInterval <= now))
  }

  /** The liquidation grace has passed since whichever moment is recorded first. */
  predicate GraceOver(s: State, cfg: Config, b: Address, line: Line, now: u64) {
    var from := if 0 < line.suspendedAt then line.suspendedAt
                else if b in s.schedules then s.schedules[b].nextDue
                else if 0 < line.lastRateUpdate then line.lastRateUpdate
                else line.lastAccrual;
    cfg.liquidationGrace == 0 || now == U64_MAX || from + cfg.liquidationGrace <= now
  }

  /** Every entrypoint's own conditions on the line it read, as documented. */
  predicate Allowed(s: State, call: Call, line: Line)
    requires IsLineOp(call.op)
  {
    var Call(op, now, cfg) := call;
    match op
    case SuspendLine(_) => line.status == Active && (line.suspendedAt == 0 || line.suspendedAt < now)
    case SelfSuspendLine(_) => line.status == Active && (line.suspendedAt == 0 || line.suspendedAt < now)
    case UnsuspendLine(_) => line.status == Suspended || line.status == SelfSuspended
    case SelfUnsuspendLine(_) => line.status == SelfSuspended
    case CloseLine(_, closer) => line.status != Closed && (closer == Admin || (closer == Borrower && line.utilized == 0))
    case DefaultLine(b) => line.status != Closed && line.status != Defaulted && GraceOver(s, cfg, b, line, now)
    case ReinstateLine(_, target) => line.status == Defaulted && (target == Active || target == Restricted)
    case UpdateRiskParameters(_, limit, rate, score) =>
      && 0 <= limit && score <= 100 && rate <= 10_000
      && WithinBounds(cfg, limit) && WithinRateLimits(cfg, line, rate, now)
    case ForgiveDebt(_, amount) => 0 < amount && line.status != Closed && line.utilized != 0
    case SettleLiquidation(b, recovered, id, factor) =>
      && 0 < recovered && 0 < factor <= 10_000 && factor <= cfg.closeFactor && (b, id) !in s.settled
      && line.status == Defaulted && recovered * 10_000 <= line.utilized * factor <= I128_MAX
    case ReverseDrawn(b, amount, originalTs) =>
      && 0 < amount && now <= originalTs + 3_600 && (b, originalTs) in s.audit.drawn
      && amount + Reversed(s.audit.reversed, (b, originalTs)) <= s.audit.drawn[(b, originalTs)]
  }

  lemma QuotientAdmits(product: int, recovered: int)
    ensures recovered <= product / 10_000 <==> recovered * 10_000 <= product
  {
    DivMod(product, 10_000);
  }

  /** The checks in the code are these conditions. */
  lemma ChecksAreAllowed(s: State, call: Call, line: Line)
    requires IsLineOp(call.op) && SoundLine(line) && (call.op.ReverseDrawn? ==> Covered(line, call.op.amount))
    requires call.op.b in s.book.lines && (call.op.DefaultLine? ==> s.book.lines[call.op.b].status == line.status)
    ensures Precheck(s, call).Pass? && Admit(s, call, line).Pass? <==> Allowed(s, call, line)
  {
    if call.op.SettleLiquidation? {
      QuotientAdmits(line.utilized * call.op.closeFactorBps, call.op.recovered);
      MulNonNeg(line.utilized, call.op.closeFactorBps);
    }
  }

  // ---- Success ------------------------------------------------------------

  /** Storing a sound line can only fail for want of room in the total. */
  lemma StoreSucceedsIff(k: Book, pending: int, b: Address, line: Line, status: Option<Status>)
    requires BookOk(k) && b in k.lines && SoundLine(line) && forall x :: x in k.lines ==> SoundLine(k.lines[x])
    ensures Persist(k.(pendingAuctions := pending), b, line, k.lines[b].utilized, status).Ok?
       <==> k.totalUtilized + line.utilized - k.lines[b].utilized <= I128_MAX
  {
    if k.totalUtilized + line.utilized - k.lines[b].utilized <= I128_MAX {
      ConservedAfter(k, b, line);
    }
  }

  /** The line the entrypoint works on and the one it would store. */
  predicate HasRoom(s: State, call: Call, line: Line)
    requires IsLineOp(call.op) && call.op.b in s.book.lines
  {
    s.book.totalUtilized + Next(call, line).utilized - s.book.lines[call.op.b].utilized <= I128_MAX
  }

  lemma StepSucceedsIff(s: State, call: Call, read: Result<Line>)
    requires Accounting(s) && Sound(s) && IsLineOp(call.op) && IsCurrent(s, call.op.b, read)
    requires read.Ok? ==> SoundLine(read.value) && (call.op.ReverseDrawn? ==> Covered(read.value, call.op.amount))
    ensures LineStep(s, call, read).Ok? <==> read.Ok? && Allowed(s, call, read.value) && HasRoom(s, call, read.value)
  {
    if read.Ok? {
      ChecksAreAllowed(s, call, read.value);
      if Allowed(s, call, read.value) {
        var b, line := call.op.b, read.value;
        NextIsSound(s, call, line);
        StoreSucceedsIff(s.book, Auctions(s.book.pendingAuctions, call, line.status, Next(call, line).status), b,
                         Next(call, line), Some(line.status));
      }
    }
  }

  /** On exact books with sound lines an entrypoint succeeds if and only if the line
      exists and accrues, its own conditions hold, and the total has room. */
  lemma LineOpSucceedsIff(s: State, call: Call)
    requires Accounting(s) && Sound(s) && IsLineOp(call.op) && CoveredCall(s, call)
    ensures Step(s, call).Ok? <==>
      Read(s, call).Ok? && Allowed(s, call, Read(s, call).value) && HasRoom(s, call, Read(s, call).value)
  {
    ReadIsCurrent(s, call);
    if Read(s, call).Ok? {
      GrownIsSound(s.book.lines[call.op.b], Read(s, call).value);
    }
    StepSucceedsIff(s, call, Read(s, call));
  }

  // ---- Effect -------------------------------------------------------------

  predicate SameDebt(was: Line, line: Line) {
    line.utilized == was.utilized && line.accrued == was.accrued && line.lastAccrual == was.lastAccrual
  }

  predicate SameConditions(was: Line, line: Line) {
    line.limit == was.limit && line.rate == was.rate && line.riskScore == was.riskScore && line.lastRateUpdate == was.lastRateUpdate
  }

  /** What each entrypoint leaves of the line it read: its new status, its new terms
      or its lower debt, and nothing else. */
  predicate Leaves(call: Call, was: Line, line: Line)
    requires IsLineOp(call.op)
  {
    match call.op
    case SuspendLine(_) => SameDebt(was, line) && SameConditions(was, line) && line.status == Suspended
    case SelfSuspendLine(_) => SameDebt(was, line) && SameConditions(was, line) && line.status == SelfSuspended
    case UnsuspendLine(_) => SameDebt(was, line) && SameConditions(was, line) && line.status == Active
    case SelfUnsuspendLine(_) => SameDebt(was, line) && SameConditions(was, line) && line.status == Active
    case CloseLine(_, _) => SameDebt(was, line) && SameConditions(was, line) && line.status == Closed
    case DefaultLine(_) => SameDebt(was, line) && SameConditions(was, line) && line.status == Defaulted
    case ReinstateLine(_, target) => SameDebt(was, line) && SameConditions(was, line) && line.status == target
    case UpdateRiskParameters(_, limit, rate, score) =>
      && SameDebt(was, line) && line.limit == limit && line.rate == rate && line.riskScore == score
      && line.suspendedAt == was.suspendedAt
      && (was.status == Active || was.status == Restricted ==>
            line.status == if limit < was.utilized then Restricted else Active)
      && (was.status != Active && was.status != Restricted ==> line.status == was.status)
    case ForgiveDebt(_, amount) =>
      && SameConditions(was, line) && line.status == was.status && line.suspendedAt == was.suspendedAt
      && line.utilized == Max(was.utilized - amount, 0) && line.accrued == Max(was.accrued - amount, 0)
      && line.lastAccrual == was.lastAccrual
    case SettleLiquidation(_, recovered, _, _) =>
      && SameConditions(was, line) && line.suspendedAt == was.suspendedAt
      && line.utilized == was.utilized - recovered && line.accrued == Max(was.accrued - recovered, 0)
      && line.lastAccrual == was.lastAccrual
      && line.status == if recovered == was.utilized then Closed else Defaulted
    case ReverseDrawn(_, amount, _) =>
      && SameConditions(was, line) && line.status == was.status && line.suspendedAt == was.suspendedAt
      && line.utilized == was.utilized - amount && line.accrued == was.accrued && line.lastAccrual == was.lastAccrual
  }

  lemma NextLeaves(s: State, call: Call, line: Line)
    requires IsLineOp(call.op) && SoundLine(line) && Allowed(s, call, line)
    ensures Leaves(call, line, Next(call, line))
  {
    if call.op.SettleLiquidation? {
      MulMono(call.op.closeFactorBps, 10_000, line.utilized);
    }
  }

  /** A successful call leaves exactly this of its line, and every other line alone. */
  lemma LineOpLeaves(s: State, call: Call, q: State, x: Address)
    requires Sound(s) && IsLineOp(call.op) && CoveredCall(s, call) && Step(s, call) == Ok(q) && x in s.book.lines
    ensures x in q.book.lines && Read(s, call).Ok?
    ensures if x == call.op.b then Leaves(call, Read(s, call).value, q.book.lines[x]) else q.book.lines[x] == s.book.lines[x]
  {
    ReadIsCurrent(s, call);
    LineStepShape(s, call, Read(s, call));
    var line := Read(s, call).value;
    GrownIsSound(s.book.lines[call.op.b], line);
    ChecksAreAllowed(s, call, line);
    NextLeaves(s, call, line);
    assert q.book.lines == s.book.lines[call.op.b := Next(call, line)];
  }

  /** The status events of a call name its borrower and the status it leaves; every
      call that sets one publishes it, and a settlement when it closes the line. */
  lemma StatusIsPublished(s: State, call: Call, line: Line)
    requires IsLineOp(call.op) && SoundLine(line) && Allowed(s, call, line)
    ensures forall e :: e in Published(call, line) && e.LineStatus? ==> e == LineStatus(call.op.b, Next(call, line).status)
    ensures !call.op.UpdateRiskParameters? && Next(call, line).status != line.status
      ==> LineStatus(call.op.b, Next(call, line).status) in Published(call, line)
  {
    var e := LineStatus(call.op.b, Next(call, line).status);
    if !call.op.UpdateRiskParameters? && Next(call, line).status != line.status {
      assert Published(call, line)[0] == e;
    }
  }

  // ---- Opening ------------------------------------------------------------

  lemma FirstStoreSucceedsIff(k: Book, b: Address, line: Line)
    requires BookOk(k) && b !in k.lines && line.utilized == 0
    ensures Persist(k, b, line, 0, None).Ok? <==> |k.ids| < U32_MAX
  {
  }

  predicate TermsAllowed(cfg: Config, limit: int, rate: int, score: int) {
    0 < limit && rate <= 10_000 && score <= 100 && WithinBounds(cfg, limit)
  }

  lemma ReopenNeeds(s: State, cfg: Config, b: Address, limit: int, rate: Bps, score: u32, now: u64)
    requires b in s.book.lines && TermsAllowed(cfg, limit, rate, score)
    ensures var was := s.book.lines[b];
      Open(s, cfg, b, limit, rate, score, now).Ok? <==>
        was.status != Active
        && Persist(s.book.(pendingAuctions := AuctionsWithout(s.book, was.status)), b, Reopened(was, limit, rate, score, now),
                   was.utilized, Some(was.status)).Ok?
  {
  }

  lemma ReopenSucceedsIff(s: State, cfg: Config, b: Address, limit: int, rate: Bps, score: u32, now: u64)
    requires Accounting(s) && Sound(s) && b in s.book.lines && TermsAllowed(cfg, limit, rate, score)
    ensures Open(s, cfg, b, limit, rate, score, now).Ok? <==> s.book.lines[b].status != Active
  {
    var was := s.book.lines[b];
    TotalIsSmall(s);
    ReopenNeeds(s, cfg, b, limit, rate, score, now);
    StoreSucceedsIff(s.book, AuctionsWithout(s.book, was.status), b, Reopened(was, limit, rate, score, now), Some(was.status));
  }

  lemma FirstOpenSucceedsIff(s: State, cfg: Config, b: Address, limit: int, rate: Bps, score: u32, now: u64)
    requires Accounting(s) && b !in s.book.lines && TermsAllowed(cfg, limit, rate, score)
    ensures Open(s, cfg, b, limit, rate, score, now).Ok? <==> |s.book.ids| < U32_MAX
  {
    FirstStoreSucceedsIff(s.book, b, NewLine(limit, rate, score, now));
  }

  lemma OpenNeedsTerms(s: State, cfg: Config, b: Address, limit: int, rate: u32, score: u32, now: u64)
    ensures Open(s, cfg, b, limit, rate, score, now).Ok? ==> TermsAllowed(cfg, limit, rate, score)
  {
  }

  /** A line can be opened if and only if its terms are within bounds and there is
      none that is active, or none yet and room in the index. */
  lemma OpenSucceedsIff(s: State, cfg: Config, b: Address, limit: int, rate: u32, score: u32, now: u64)
    requires Accounting(s) && Sound(s)
    ensures Step(s, Call(OpenLine(b, limit, rate, score), now, cfg)).Ok? <==>
      && TermsAllowed(cfg, limit, rate, score)
      && (if b in s.book.lines then s.book.lines[b].status != Active else |s.book.ids| < U32_MAX)
  {
    OpenNeedsTerms(s, cfg, b, limit, rate, score, now);
    if TermsAllowed(cfg, limit, rate, score) {
      if b in s.book.lines {
        ReopenSucceedsIff(s, cfg, b, limit, rate, score, now);
      } else {
        FirstOpenSucceedsIff(s, cfg, b, limit, rate, score, now);
      }
    }
  }

  lemma TotalIsSmall(s: State)
    requires Accounting(s) && Sound(s)
    ensures 0 <= s.book.totalUtilized <= I128_MAX
  {
    SumOfAtLeastZero(DebtIn(s.book.lines), s.book.ids);
  }

  /** It leaves an active line with these terms and no schedule, whose debt is what
      was stored, or none if the line is new or was closed. */
  lemma OpenLeaves(s: State, cfg: Config, b: Address, limit: int, rate: u32, score: u32, now: u64, q: State)
    requires Step(s, Call(OpenLine(b, limit, rate, score), now, cfg)) == Ok(q)
    ensures b in q.book.lines && q.schedules == s.schedules - {b}
    ensures var line := q.book.lines[b];
      && line.status == Active && line.limit == limit && line.rate == rate && line.riskScore == score
      && line.lastRateUpdate == 0 && line.suspendedAt == 0
      && if b in s.book.lines && s.book.lines[b].status != Closed then SameDebt(s.book.lines[b], line)
         else line.utilized == 0 && line.accrued == 0 && line.lastAccrual == now
  {
  }

  // ---- Drawing ------------------------------------------------------------

  /** The cap leaves room: without one in the total alone, with one after every
      other line is accrued. */
  ghost predicate CapAllows(s: State, cfg: Config, b: Address, pending: int, amount: int, now: u64) {
    match cfg.exposureCap
    case None => s.book.totalUtilized + pending + amount <= I128_MAX
    case Some(cap) =>
      && Affordable(s, cfg, Except(b), s.book.ids, now)
      && s.book.totalUtilized + SumOf(Credited(s, cfg, Except(b), s.book.ids, now), s.book.ids) + pending + amount
         <= Min(cap, I128_MAX)
  }

  lemma CreditsAreNonNegative(s: State, cfg: Config, scope: Scope, bs: seq<Address>, now: u64)
    ensures 0 <= SumOf(Credited(s, cfg, scope, bs, now), s.book.ids)
  {
    forall x | x in s.book.ids
      ensures 0 <= Credited(s, cfg, scope, bs, now)(x)
    {
      CreditIsNonNeg(s, cfg, scope, x, now);
    }
    SumOfAtLeastZero(Credited(s, cfg, scope, bs, now), s.book.ids);
  }

  lemma UnderCapSucceedsIff(s: State, cfg: Config, b: Address, pending: int, amount: int, now: u64)
    requires Accounting(s) && Sound(s) && cfg.exposureCap.Some? && 0 <= pending <= I128_MAX && 0 < amount
    ensures UnderCap(s, cfg, b, pending, amount, now).Ok? <==> CapAllows(s, cfg, b, pending, amount, now)
  {
    var scope, ids := Except(b), s.book.ids;
    TotalIsSmall(s);
    CreditsAreNonNegative(s, cfg, scope, ids, now);
    BatchSucceedsIff(s, cfg, scope, ids, now);
    if AccrueEach(s, cfg, scope, ids, now).Ok? {
      BatchTotal(s, cfg, scope, ids, now);
    }
  }

  lemma {:induction false} LoopKeepsBalances(s: State, cfg: Config, scope: Scope, bs: seq<Address>, now: u64)
    requires AccrueEach(s, cfg, scope, bs, now).Ok?
    ensures var q := AccrueEach(s, cfg, scope, bs, now).value;
      q.reserve == s.reserve && q.custody == s.custody
  {
    if |bs| > 0 {
      LoopKeepsBalances(s, cfg, scope, bs[..|bs| - 1], now);
    }
  }

  /** What the cap check leaves for the draw to be stored in. */
  lemma UnderCapLeaves(s: State, cfg: Config, b: Address, pending: int, amount: int, now: u64, q: State)
    requires Accounting(s) && Sound(s) && b in s.book.lines && UnderCap(s, cfg, b, pending, amount, now) == Ok(q)
    ensures Accounting(q) && Sound(q) && b in q.book.lines && q.book.lines[b].utilized == s.book.lines[b].utilized
    ensures q.reserve == s.reserve && q.custody == s.custody
  {
    UnderCapShape(s, cfg, b, pending, amount, now);
    UnderCapKeeps(s, cfg, b, pending, amount, now);
    if cfg.exposureCap.Some? {
      AccrueEachSound(s, cfg, Except(b), s.book.ids, now);
      LoopKeepsBalances(s, cfg, Except(b), s.book.ids, now);
    }
  }

  lemma PlainStoreSucceedsIff(k: Book, b: Address, line: Line, status: Option<Status>)
    requires BookOk(k) && b in k.lines && SoundLine(line) && forall x :: x in k.lines ==> SoundLine(k.lines[x])
    ensures Persist(k, b, line, k.lines[b].utilized, status).Ok?
       <==> k.totalUtilized + line.utilized - k.lines[b].utilized <= I128_MAX
  {
    StoreSucceedsIff(k, k.pendingAuctions, b, line, status);
    assert k.(pendingAuctions := k.pendingAuctions) == k;
  }

  lemma FinishNeeds(s: State, cfg: Config, b: Address, line: Line, was: int, amount: int, now: u64, stored: Result<Book>)
    requires stored == Persist(s.book, b, line.(utilized := line.utilized + amount), was, Some(line.status))
    ensures FinishDraw(s, cfg, b, line, was, amount, now).Ok? <==> cfg.hasToken && amount <= Source(s, cfg) && stored.Ok?
  {
  }

  lemma FinishSucceedsIff(s: State, cfg: Config, b: Address, line: Line, amount: int, now: u64, was: int)
    requires Accounting(s) && Sound(s) && b in s.book.lines && was == s.book.lines[b].utilized
    requires SoundLine(line.(utilized := line.utilized + amount))
    ensures FinishDraw(s, cfg, b, line, was, amount, now).Ok? <==>
      && cfg.hasToken && amount <= Source(s, cfg) && s.book.totalUtilized + line.utilized + amount - was <= I128_MAX
  {
    var next := line.(utilized := line.utilized + amount);
    PlainStoreSucceedsIff(s.book, b, next, Some(line.status));
    FinishNeeds(s, cfg, b, line, was, amount, now, Persist(s.book, b, next, was, Some(line.status)));
  }

  /** What a passed cap check guarantees the draw. */
  ghost predicate Ready(s: State, s1: State, b: Address, was: int, pending: int, amount: int) {
    && Accounting(s1) && Sound(s1) && b in s1.book.lines && s1.book.lines[b].utilized == was
    && s1.reserve == s.reserve && s1.custody == s.custody
    && s1.book.totalUtilized + pending + amount <= I128_MAX
  }

  lemma UnderCapIsReady(s: State, cfg: Config, b: Address, was: int, pending: int, amount: int, now: u64, s1: State)
    requires Accounting(s) && Sound(s) && b in s.book.lines && was == s.book.lines[b].utilized && cfg.exposureCap.Some?
    requires UnderCap(s, cfg, b, pending, amount, now) == Ok(s1)
    ensures Ready(s, s1, b, was, pending, amount)
  {
    UnderCapLeaves(s, cfg, b, pending, amount, now, s1);
    RoomUnderCap(s, cfg, b, pending, amount, now, s1);
  }

  lemma RoomUnderCap(s: State, cfg: Config, b: Address, pending: int, amount: int, now: u64, s1: State)
    requires UnderCap(s, cfg, b, pending, amount, now) == Ok(s1) && cfg.exposureCap.Some?
    ensures s1.book.totalUtilized + pending + amount <= I128_MAX
  {
  }

  lemma ReadySucceedsIff(s: State, cfg: Config, b: Address, line: Line, amount: int, now: u64, was: int, s1: State)
    requires Ready(s, s1, b, was, line.utilized - was, amount) && SoundLine(line.(utilized := line.utilized + amount))
    ensures FinishDraw(s1, cfg, b, line, was, amount, now).Ok? <==> cfg.hasToken && amount <= Source(s, cfg)
  {
    FinishSucceedsIff(s1, cfg, b, line, amount, now, was);
  }

  lemma CapChecked(s: State, cfg: Config, b: Address, was: int, pending: int, amount: int, now: u64, checked: Result<State>)
    requires Accounting(s) && Sound(s) && b in s.book.lines && was == s.book.lines[b].utilized && cfg.exposureCap.Some?
    requires 0 <= pending <= I128_MAX && 0 < amount && checked == UnderCap(s, cfg, b, pending, amount, now)
    ensures checked.Ok? <==> CapAllows(s, cfg, b, pending, amount, now)
    ensures checked.Ok? ==> Ready(s, checked.value, b, was, pending, amount)
  {
    UnderCapSucceedsIff(s, cfg, b, pending, amount, now);
    if checked.Ok? {
      UnderCapIsReady(s, cfg, b, was, pending, amount, now, checked.value);
    }
  }

  predicate Finishes(checked: Result<State>, cfg: Config, b: Address, line: Line, was: int, amount: int, now: u64) {
    checked.Ok? && FinishDraw(checked.value, cfg, b, line, was, amount, now).Ok?
  }

  lemma ReadyFinishesIff(s: State, cfg: Config, b: Address, line: Line, amount: int, now: u64, was: int, checked: Result<State>)
    requires checked.Ok? ==> Ready(s, checked.value, b, was, line.utilized - was, amount)
    requires SoundLine(line.(utilized := line.utilized + amount))
    ensures Finishes(checked, cfg, b, line, was, amount, now) <==> cfg.hasToken && amount <= Source(s, cfg) && checked.Ok?
  {
    if checked.Ok? {
      ReadySucceedsIff(s, cfg, b, line, amount, now, was, checked.value);
    }
  }

  /** The checks of a draw on the accrued line. */
  predicate DrawAllowed(cfg: Config, line: Line, amount: int, collateral: int) {
    var debt := line.utilized + amount;
    && (line.status == Active || line.status == Restricted)
    && debt <= line.limit && debt <= I128_MAX
    && debt * cfg.minRatioBps <= 10_000 * collateral && debt * cfg.minRatioBps <= I128_MAX
  }

  lemma DrawNeedsChecks(s: State, cfg: Config, b: Address, line: Line, amount: int, collateral: int, now: u64)
    requires b in s.book.lines
    ensures Draw(s, cfg, b, Ok(line), amount, collateral, now).Ok? ==> AdmitDraw(cfg, line, amount, collateral).Ok?
  {
    if Draw(s, cfg, b, Ok(line), amount, collateral, now).Ok? {
      DrawShape(s, cfg, b, Ok(line), amount, collateral, now);
    }
  }

  lemma CheckedDraw(s: State, cfg: Config, b: Address, line: Line, amount: int, collateral: int, now: u64, checked: Result<State>)
    requires b in s.book.lines && 0 < amount && AdmitDraw(cfg, line, amount, collateral).Ok?
    requires checked == UnderCap(Billed(s, b, line), cfg, b, line.utilized - s.book.lines[b].utilized, amount, now)
    ensures Draw(s, cfg, b, Ok(line), amount, collateral, now).Ok?
       <==> Finishes(checked, cfg, b, line, s.book.lines[b].utilized, amount, now)
  {
  }

  lemma CheckedSucceedsIff(s: State, cfg: Config, b: Address, line: Line, amount: int, now: u64, was: int, pending: int,
                           checked: Result<State>, finishes: bool, allows: bool)
    requires Accounting(s) && Sound(s) && b in s.book.lines && 0 < amount && was == s.book.lines[b].utilized
    requires pending == line.utilized - was && 0 <= pending <= I128_MAX && SoundLine(line.(utilized := line.utilized + amount))
    requires checked == UnderCap(s, cfg, b, pending, amount, now)
    requires finishes == Finishes(checked, cfg, b, line, was, amount, now)
    requires allows == CapAllows(s, cfg, b, pending, amount, now)
    ensures finishes <==> cfg.hasToken && amount <= Source(s, cfg) && allows
  {
    if cfg.exposureCap.Some? {
      CapChecked(s, cfg, b, was, pending, amount, now, checked);
      ReadyFinishesIff(s, cfg, b, line, amount, now, was, checked);
    } else {
      FinishSucceedsIff(s, cfg, b, line, amount, now, was);
    }
  }

  lemma BilledDrawSucceedsIff(s: State, cfg: Config, b: Address, line: Line, amount: int, now: u64, was: int, billed: State,
                              checked: Result<State>, finishes: bool, allows: bool)
    requires Accounting(s) && Sound(s) && IsCurrent(s, b, Ok(line)) && billed == Billed(s, b, line)
    requires 0 < amount && line.utilized + amount <= I128_MAX && was == s.book.lines[b].utilized
    requires checked == UnderCap(billed, cfg, b, line.utilized - was, amount, now)
    requires finishes == Finishes(checked, cfg, b, line, was, amount, now)
    requires allows == CapAllows(billed, cfg, b, line.utilized - was, amount, now)
    ensures finishes <==> cfg.hasToken && amount <= Source(s, cfg) && allows
  {
    GrownIsSound(s.book.lines[b], line);
    assert 0 <= was <= line.utilized <= I128_MAX;
    BilledKeeps(s, b, line);
    CheckedSucceedsIff(billed, cfg, b, line, amount, now, was, line.utilized - was, checked, finishes, allows);
  }

  lemma AllowedDrawSucceedsIff(s: State, cfg: Config, b: Address, line: Line, amount: int, collateral: int, now: u64,
                               billed: State, drawn: bool, allows: bool)
    requires Accounting(s) && Sound(s) && IsCurrent(s, b, Ok(line)) && 0 < amount && billed == Billed(s, b, line)
    requires drawn == Draw(s, cfg, b, Ok(line), amount, collateral, now).Ok?
    requires AdmitDraw(cfg, line, amount, collateral).Ok? && line.utilized + amount <= I128_MAX
    requires allows == CapAllows(billed, cfg, b, line.utilized - s.book.lines[b].utilized, amount, now)
    ensures drawn <==> cfg.hasToken && amount <= Source(s, cfg) && allows
  {
    var was := s.book.lines[b].utilized;
    var checked := UnderCap(billed, cfg, b, line.utilized - was, amount, now);
    CheckedDraw(s, cfg, b, line, amount, collateral, now, checked);
    BilledDrawSucceedsIff(s, cfg, b, line, amount, now, was, billed, checked, drawn, allows);
  }

  lemma DrawGivenLine(s: State, cfg: Config, b: Address, line: Line, amount: int, collateral: int, now: u64,
                      billed: State, drawn: bool, allows: bool)
    requires Accounting(s) && Sound(s) && IsCurrent(s, b, Ok(line)) && 0 < amount && billed == Billed(s, b, line)
    requires drawn == Draw(s, cfg, b, Ok(line), amount, collateral, now).Ok?
    requires allows == CapAllows(billed, cfg, b, line.utilized - s.book.lines[b].utilized, amount, now)
    ensures drawn <==> DrawAllowed(cfg, line, amount, collateral) && cfg.hasToken && amount <= Source(s, cfg) && allows
  {
    GrownIsSound(s.book.lines[b], line);
    DrawChecks(cfg, line, amount, collateral);
    if DrawAllowed(cfg, line, amount, collateral) {
      AllowedDrawSucceedsIff(s, cfg, b, line, amount, collateral, now, billed, drawn, allows);
    } else {
      DrawNeedsChecks(s, cfg, b, line, amount, collateral, now);
    }
  }

  lemma DrawChecks(cfg: Config, line: Line, amount: int, collateral: int)
    requires SoundLine(line) && 0 < amount
    ensures AdmitDraw(cfg, line, amount, collateral).Ok? <==> DrawAllowed(cfg, line, amount, collateral)
  {
    LedgerLifecycle.DrawIsWithinLimits(cfg, line, amount, collateral);
    MulNonNeg(line.utilized + amount, cfg.minRatioBps);
  }

  /** On exact books with sound lines a draw succeeds if and only if the line accrues
      and admits it, the source holds the tokens, and the cap leaves room. */
  lemma DrawSucceedsIff(s: State, cfg: Config, b: Address, amount: i128, collateral: int, now: u64)
    requires Accounting(s) && Sound(s)
    ensures Step(s, Call(DrawCredit(b, amount, collateral), now, cfg)).Ok? <==>
      && 0 < amount && Current(s, cfg, b, now).Ok?
      && var line := Current(s, cfg, b, now).value;
      && DrawAllowed(cfg, line, amount, collateral) && cfg.hasToken && amount <= Source(s, cfg)
      && CapAllows(Billed(s, b, line), cfg, b, line.utilized - s.book.lines[b].utilized, amount, now)
  {
    CurrentIsCurrent(s, cfg, b, now);
    var cur := Current(s, cfg, b, now);
    if 0 < amount && cur.Ok? {
      var billed := Billed(s, b, cur.value);
      DrawGivenLine(s, cfg, b, cur.value, amount, collateral, now, billed, Draw(s, cfg, b, cur, amount, collateral, now).Ok?,
                    CapAllows(billed, cfg, b, cur.value.utilized - s.book.lines[b].utilized, amount, now));
    }
  }

  // ---- Repaying -----------------------------------------------------------

  /** Both accumulators can take their parts of the two fees. */
  predicate FeesFit(v: Vault, fee: int, late: int, share: u32) {
    || fee + late == 0
    || (&& v.treasury + TreasuryPart(fee, share) + TreasuryPart(late, share) <= I128_MAX
        && v.bounty + BountyPart(fee, share) + BountyPart(late, share) <= I128_MAX)
  }

  lemma FeesFitIff(v: Vault, fee: nat, late: nat, share: u32)
    requires VaultSound(v)
    ensures AccrueFee(v, fee, share).Ok? && AccrueFee(AccrueFee(v, fee, share).value, late, share).Ok? <==>
      FeesFit(v, fee, late, share)
  {
    TreasuryPartRange(fee, share);
    TreasuryPartRange(late, share);
  }

  /** The protocol fee is the floor of its share of the interest, or too large. */
  lemma InterestFee(line: Line, amount: int, bps: Bps)
    requires SoundLine(line) && 0 < amount
    ensures var a := RepaymentOf(line, amount);
      ProtocolFee(a, bps) == if a.interest * bps <= U128_MAX then Ok(a.interest * bps / 10_000) else Err(Panic)
    ensures 0 <= RepaymentOf(line, amount).interest * bps
  {
    var a := RepaymentOf(line, amount);
    MulNonNeg(a.interest, bps);
    MulMono(bps, 10_000, a.interest);
    DivBound(a.interest * bps, 10_000, a.interest);
    if a.interest == 0 || bps == 0 {
      assert a.interest * bps == 0;
    }
  }

  /** A repayment can be taken: the line is not closed, the token is configured, and
      neither the fees nor the total overflow. */
  predicate RepayAllowed(s: State, cfg: Config, b: Address, line: Line, amount: int, now: u64)
    requires b in s.book.lines
  {
    var a := RepaymentOf(line, amount);
    var late := AdvanceSchedule(ScheduleOf(s, b), a.principal, FeePerInstallment(cfg), now);
    && line.status != Closed && cfg.hasToken
    && a.interest * cfg.protocolFee <= U128_MAX
    && s.book.totalUtilized + line.utilized - a.paid - s.book.lines[b].utilized <= I128_MAX
    && late.Ok? && FeesFit(s.vault, a.interest * cfg.protocolFee / 10_000, late.value.1, cfg.feeShare)
  }

  lemma TakeNeeds(s: State, cfg: Config, a: Allocation, fee: int)
    requires ProtocolFee(a, cfg.protocolFee) == Ok(fee)
    ensures var vault := AccrueFee(s.vault, fee, cfg.feeShare);
      if vault.Err? then TakePayment(s, cfg, a).Err?
      else TakePayment(s, cfg, a) == Ok(IntoSource(s.(vault := vault.value, custody := s.custody + fee), cfg, a.paid - fee))
  {
  }

  lemma ChargeNeeds(s: State, cfg: Config, b: Address, principal: int, now: u64, late: Result<(Option<Schedule>, int)>)
    requires late == AdvanceSchedule(ScheduleOf(s, b), principal, FeePerInstallment(cfg), now)
    ensures ChargeLateFee(s, cfg, b, principal, now).Ok? <==> late.Ok? && AccrueFee(s.vault, late.value.1, cfg.feeShare).Ok?
  {
  }

  /** The three parts of a repayment fail or succeed together. */
  lemma FinishRepayNeeds(s: State, cfg: Config, b: Address, line: Line, was: int, a: Allocation, now: u64,
                         fee: int, first: Result<Vault>, stored: Result<Book>, late: Result<(Option<Schedule>, int)>)
    requires ProtocolFee(a, cfg.protocolFee) == Ok(fee) && first == AccrueFee(s.vault, fee, cfg.feeShare)
    requires stored == Persist(s.book, b, RepaidLine(line, a), was, Some(line.status))
    requires late == AdvanceSchedule(ScheduleOf(s, b), a.principal, FeePerInstallment(cfg), now)
    ensures FinishRepay(s, cfg, b, line, was, a, now).Ok? <==>
      first.Ok? && stored.Ok? && late.Ok? && AccrueFee(first.value, late.value.1, cfg.feeShare).Ok?
  {
    TakeNeeds(s, cfg, a, fee);
    if first.Ok? && stored.Ok? {
      ChargeNeeds(TakePayment(s, cfg, a).value.(book := stored.value), cfg, b, a.principal, now, late);
    }
  }

  lemma FinishRepaySucceedsIff(s: State, cfg: Config, b: Address, line: Line, amount: int, now: u64, was: int)
    requires Accounting(s) && Sound(s) && b in s.book.lines && was == s.book.lines[b].utilized && SoundLine(line) && 0 < amount
    requires line.status != Closed && cfg.hasToken
    ensures FinishRepay(s, cfg, b, line, was, RepaymentOf(line, amount), now).Ok? <==> RepayAllowed(s, cfg, b, line, amount, now)
  {
    var a := RepaymentOf(line, amount);
    var late := AdvanceSchedule(ScheduleOf(s, b), a.principal, FeePerInstallment(cfg), now);
    InterestFee(line, amount, cfg.protocolFee);
    if a.interest * cfg.protocolFee <= U128_MAX {
      var fee := a.interest * cfg.protocolFee / 10_000;
      DivNonNeg(a.interest * cfg.protocolFee, 10_000);
      var first, stored := AccrueFee(s.vault, fee, cfg.feeShare), Persist(s.book, b, RepaidLine(line, a), was, Some(line.status));
      FinishRepayNeeds(s, cfg, b, line, was, a, now, fee, first, stored, late);
      RepaidIsSound(line, amount);
      PlainStoreSucceedsIff(s.book, b, RepaidLine(line, a), Some(line.status));
      if late.Ok? {
        AdvanceScheduleFee(ScheduleOf(s, b), a.principal, FeePerInstallment(cfg), now);
        FeesFitIff(s.vault, fee, late.value.1, cfg.feeShare);
      }
    }
  }

  lemma RepayGivenLine(s: State, cfg: Config, b: Address, line: Line, amount: int, now: u64, billed: State)
    requires Accounting(s) && Sound(s) && IsCurrent(s, b, Ok(line)) && 0 < amount && billed == Billed(s, b, line)
    ensures Repay(s, cfg, b, Ok(line), amount, now).Ok? <==> RepayAllowed(billed, cfg, b, line, amount, now)
  {
    GrownIsSound(s.book.lines[b], line);
    if line.status != Closed && cfg.hasToken {
      BilledKeeps(s, b, line);
      FinishRepaySucceedsIff(billed, cfg, b, line, amount, now, s.book.lines[b].utilized);
    }
  }

  lemma RepayNeedsAmount(s: State, cfg: Config, b: Address, cur: Result<Line>, amount: int, now: u64)
    requires cur.Ok? ==> b in s.book.lines
    ensures Repay(s, cfg, b, cur, amount, now).Ok? ==> 0 < amount && cur.Ok?
  {
  }

  lemma RepayIsStep(s: State, cfg: Config, b: Address, amount: i128, now: u64)
    ensures IsCurrent(s, b, Current(s, cfg, b, now))
    ensures Step(s, Call(RepayCredit(b, amount), now, cfg)) == Repay(s, cfg, b, Current(s, cfg, b, now), amount, now)
  {
    CurrentIsCurrent(s, cfg, b, now);
  }

  /** On exact books with sound lines a repayment succeeds if and only if the line
      exists, accrues and is not closed, the token is configured, and neither the
      fees nor the total overflow: nothing else ever refuses one. */
  lemma RepaySucceedsIff(s: State, cfg: Config, b: Address, amount: i128, now: u64, cur: Result<Line>, r: Result<State>)
    requires Accounting(s) && Sound(s) && cur == Current(s, cfg, b, now) && r == Step(s, Call(RepayCredit(b, amount), now, cfg))
    ensures r.Ok? <==> 0 < amount && cur.Ok? && RepayAllowed(Billed(s, b, cur.value), cfg, b, cur.value, amount, now)
  {
    RepayIsStep(s, cfg, b, amount, now);
    RepayResult(s, cfg, b, amount, now, cur, r);
  }

  lemma RepayResult(s: State, cfg: Config, b: Address, amount: int, now: u64, cur: Result<Line>, r: Result<State>)
    requires Accounting(s) && Sound(s) && IsCurrent(s, b, cur) && r == Repay(s, cfg, b, cur, amount, now)
    ensures r.Ok? <==> 0 < amount && cur.Ok? && RepayAllowed(Billed(s, b, cur.value), cfg, b, cur.value, amount, now)
  {
    RepayNeedsAmount(s, cfg, b, cur, amount, now);
    if 0 < amount && cur.Ok? {
      RepayGivenLine(s, cfg, b, cur.value, amount, now, Billed(s, b, cur.value));
    }
  }
}
