/** What every step keeps: the index, the global counters, the vault, and the
    bounds on every line. */
module LedgerInvariants {
  import opened Prelude
  import opened Sums
  import opened Accrual
  import opened Installments
  import opened Fees
  import opened Ledger

  /** The enumeration index lists exactly the borrowers with a line, once each. */
  ghost predicate Indexed(k: Book) {
    && Distinct(k.ids)
    && |k.ids| <= U32_MAX
    && (forall b :: b in k.ids <==> b in k.lines)
  }

  function Debts(k: Book): int {
    SumOf(DebtIn(k.lines), k.ids)
  }

  /** The number of lines in a status. */
  function Count(k: Book, status: Status): int {
    SumOf(StatusIn(k.lines, status), k.ids)
  }

  /** The index is exact and the three stored aggregates are what re-counting
      the lines would give, within `i128`. */
  ghost predicate BookOk(k: Book) {
    && Indexed(k)
    && k.totalUtilized == Debts(k) && InI128(k.totalUtilized)
    && k.activeLines == Count(k, Active)
    && k.pendingAuctions == Count(k, Defaulted)
  }

  ghost predicate Accounting(s: State) {
    BookOk(s.book) && VaultSound(s.vault)
  }

  // ---- The effect of one write --------------------------------------------

  lemma CountBound(k: Book, status: Status, ids: seq<Address>)
    ensures 0 <= SumOf(StatusIn(k.lines, status), ids) <= |ids|
  {
    if |ids| > 0 {
      CountBound(k, status, ids[..|ids| - 1]);
    }
  }

  /** Re-counting after one line was written: only that line's term moves. */
  lemma Recount(f: Address -> int, g: Address -> int, ids: seq<Address>, b: Address, ids': seq<Address>)
    requires Distinct(ids) && ids' == (if b in ids then ids else ids + [b])
    requires forall x :: x != b ==> f(x) == g(x)
    requires b !in ids ==> f(b) == 0
    ensures SumOf(g, ids') == SumOf(f, ids) + g(b) - f(b)
  {
    SumOfOneChange(f, g, ids, b);
    if b !in ids {
      SumOfAppend(g, ids, b);
    }
  }

  function Flag(isIt: bool): int {
    if isIt then 1 else 0
  }

  function StoredDebt(k: Book, b: Address): int {
    if b in k.lines then k.lines[b].utilized else 0
  }

  function StoredStatus(k: Book, b: Address): Option<Status> {
    if b in k.lines then Some(k.lines[b].status) else None
  }

  /** `Persist` with the previous values a caller reads from storage. */
  function Write(k: Book, b: Address, line: Line): Result<Book> {
    Persist(k, b, line, StoredDebt(k, b), StoredStatus(k, b))
  }

  /** `q` is `k` after writing one line. */
  ghost predicate Wrote(k: Book, b: Address, line: Line, q: Book) {
    && q.lines == k.lines[b := line]
    && q.ids == (if b in k.ids then k.ids else k.ids + [b])
    && |q.ids| <= U32_MAX
    && q.totalUtilized == k.totalUtilized + line.utilized - StoredDebt(k, b) && InI128(q.totalUtilized)
    && q.activeLines == ActiveAfter(k.activeLines, StoredStatus(k, b), line.status)
    && q.pendingAuctions == k.pendingAuctions
  }

  lemma WriteShape(k: Book, b: Address, line: Line)
    requires |k.ids| <= U32_MAX && Write(k, b, line).Ok?
    ensures Wrote(k, b, line, Write(k, b, line).value)
  {
  }

  lemma WriteKeepsIndex(k: Book, b: Address, line: Line, q: Book)
    requires Indexed(k) && Wrote(k, b, line, q)
    ensures Indexed(q)
  {
    if b !in k.ids {
      assert q.ids[..|q.ids| - 1] == k.ids;
    }
  }

  lemma WriteMovesDebts(k: Book, b: Address, line: Line, q: Book)
    requires Indexed(k) && Wrote(k, b, line, q)
    ensures Debts(q) == Debts(k) + line.utilized - StoredDebt(k, b)
  {
    Recount(DebtIn(k.lines), DebtIn(q.lines), k.ids, b, q.ids);
  }

  lemma WriteMovesCount(k: Book, b: Address, line: Line, status: Status, q: Book)
    requires Indexed(k) && Wrote(k, b, line, q)
    ensures Count(q, status) == Count(k, status) - Flag(StoredStatus(k, b) == Some(status)) + Flag(line.status == status)
  {
    var f, g := StatusIn(k.lines, status), StatusIn(q.lines, status);
    assert f(b) == Flag(StoredStatus(k, b) == Some(status)) && g(b) == Flag(line.status == status);
    Recount(f, g, k.ids, b, q.ids);
  }

  lemma TotalStaysExact(k: Book, b: Address, line: Line, q: Book)
    requires Indexed(k) && Wrote(k, b, line, q) && k.totalUtilized == Debts(k)
    ensures q.totalUtilized == Debts(q)
  {
    WriteMovesDebts(k, b, line, q);
  }

  lemma ActiveCountStaysExact(k: Book, b: Address, line: Line, q: Book)
    requires Indexed(k) && Wrote(k, b, line, q) && k.activeLines == Count(k, Active)
    ensures q.activeLines == Count(q, Active)
  {
    WriteMovesCount(k, b, line, Active, q);
    CountBound(k, Active, k.ids);
    CountBound(q, Active, q.ids);
  }

  lemma AuctionCountStaysExact(k: Book, b: Address, line: Line, q: Book)
    requires Indexed(k) && Wrote(k, b, line, q)
    requires k.pendingAuctions == Count(k, Defaulted) - Flag(StoredStatus(k, b) == Some(Defaulted)) + Flag(line.status == Defaulted)
    ensures q.pendingAuctions == Count(q, Defaulted)
  {
    WriteMovesCount(k, b, line, Defaulted, q);
  }

  lemma WroteKeepsBook(k: Book, b: Address, line: Line, q: Book)
    requires Indexed(k) && k.totalUtilized == Debts(k) && k.activeLines == Count(k, Active)
    requires k.pendingAuctions == Count(k, Defaulted) - Flag(StoredStatus(k, b) == Some(Defaulted)) + Flag(line.status == Defaulted)
    requires Wrote(k, b, line, q)
    ensures BookOk(q)
  {
    WriteKeepsIndex(k, b, line, q);
    TotalStaysExact(k, b, line, q);
    ActiveCountStaysExact(k, b, line, q);
    AuctionCountStaysExact(k, b, line, q);
  }

  /** Writing a line together with the matching auction counter keeps the book. */
  lemma WriteKeepsBook(k: Book, pending: int, b: Address, line: Line)
    requires BookOk(k) && Write(k.(pendingAuctions := pending), b, line).Ok?
    requires pending == k.pendingAuctions - Flag(StoredStatus(k, b) == Some(Defaulted)) + Flag(line.status == Defaulted)
    ensures BookOk(Write(k.(pendingAuctions := pending), b, line).value)
  {
    var t := k.(pendingAuctions := pending);
    WriteShape(t, b, line);
    WroteKeepsBook(t, b, line, Write(t, b, line).value);
  }

  lemma ReplaceKeeps(s: State, b: Address, line: Line, pending: int, published: seq<Event>)
    requires BookOk(s.book) && b in s.book.lines && Replace(s, b, line, pending, published).Ok?
    requires pending == s.book.pendingAuctions - Flag(s.book.lines[b].status == Defaulted) + Flag(line.status == Defaulted)
    ensures BookOk(Replace(s, b, line, pending, published).value.book)
  {
    WriteKeepsBook(s.book, pending, b, line);
  }

  lemma UpdateKeeps(s: State, b: Address, line: Line, published: seq<Event>)
    requires BookOk(s.book) && b in s.book.lines && Update(s, b, line, published).Ok?
    requires (line.status == Defaulted) == (s.book.lines[b].status == Defaulted)
    ensures BookOk(Update(s, b, line, published).value.book)
  {
    ReplaceKeeps(s, b, line, s.book.pendingAuctions, published);
  }

  lemma ZeroOneSum(f: Address -> int, s: seq<Address>)
    requires forall x :: 0 <= f(x) <= 1
    ensures 0 <= SumOf(f, s) <= |s|
  {
    if |s| > 0 {
      ZeroOneSum(f, s[..|s| - 1]);
    }
  }

  /** The saturating counter helpers are exact on reachable counts. */
  lemma CounterIsExact(k: Book, b: Address)
    requires BookOk(k) && b in k.lines
    ensures k.lines[b].status == Defaulted ==> CountDown(k.pendingAuctions) == k.pendingAuctions - 1
    ensures k.lines[b].status != Defaulted ==> CountUp(k.pendingAuctions) == k.pendingAuctions + 1
  {
    var f := StatusIn(k.lines, Defaulted);
    var g := (x: Address) => if x == b then 1 - f(b) else f(x);
    SumOfOneChange(f, g, k.ids, b);
    ZeroOneSum(f, k.ids);
    ZeroOneSum(g, k.ids);
  }

  // ---- Accounting is kept by every step -----------------------------------

  lemma MaterializeKeeps(s: State, b: Address, cur: Result<Line>)
    requires Accounting(s) && b in s.book.lines && IsCurrent(s, b, cur) && Materialize(s, b, cur).Ok?
    ensures Accounting(Materialize(s, b, cur).value)
  {
    var was, line := s.book.lines[b], cur.value;
    if line.utilized != was.utilized || line.lastAccrual != was.lastAccrual {
      UpdateKeeps(s, b, line, InterestEvents(b, was, line));
    }
  }

  lemma {:induction false} AccrueEachKeeps(s: State, cfg: Config, scope: Scope, bs: seq<Address>, now: u64)
    requires Accounting(s) && AccrueEach(s, cfg, scope, bs, now).Ok?
    ensures Accounting(AccrueEach(s, cfg, scope, bs, now).value)
  {
    if |bs| > 0 {
      var b := bs[|bs| - 1];
      AccrueEachKeeps(s, cfg, scope, bs[..|bs| - 1], now);
      var before := AccrueEach(s, cfg, scope, bs[..|bs| - 1], now).value;
      CurrentIsCurrent(before, cfg, b, now);
      if InScope(before, scope, b) {
        MaterializeKeeps(before, b, Current(before, cfg, b, now));
      }
    }
  }

  lemma MaterializeOthers(s: State, b: Address, cur: Result<Line>, x: Address)
    requires b in s.book.lines && b != x && Materialize(s, b, cur).Ok?
    ensures var q := Materialize(s, b, cur).value;
      (x in q.book.lines <==> x in s.book.lines) && (x in s.book.lines ==> q.book.lines[x] == s.book.lines[x])
  {
  }

  /** Accruing the others never touches the excluded line. */
  lemma {:induction false} ExcludedIsUntouched(s: State, cfg: Config, x: Address, bs: seq<Address>, now: u64)
    requires AccrueEach(s, cfg, Except(x), bs, now).Ok?
    ensures var q := AccrueEach(s, cfg, Except(x), bs, now).value;
      (x in q.book.lines <==> x in s.book.lines) && (x in s.book.lines ==> q.book.lines[x] == s.book.lines[x])
  {
    if |bs| > 0 {
      var b := bs[|bs| - 1];
      ExcludedIsUntouched(s, cfg, x, bs[..|bs| - 1], now);
      var before := AccrueEach(s, cfg, Except(x), bs[..|bs| - 1], now).value;
      if InScope(before, Except(x), b) {
        MaterializeOthers(before, b, Current(before, cfg, b, now), x);
      }
    }
  }

  lemma OpenShape(s: State, cfg: Config, b: Address, limit: int, rate: u32, score: u32, now: u64)
    requires Open(s, cfg, b, limit, rate, score, now).Ok?
    ensures var q := Open(s, cfg, b, limit, rate, score, now).value;
      && q.vault == s.vault
      && if b in s.book.lines then
           var was := s.book.lines[b];
           var stored := Replace(s, b, Reopened(was, limit, rate, score, now), AuctionsWithout(s.book, was.status), [LineOpened(b)]);
           was.status != Active && stored.Ok? && q.book == stored.value.book
         else Persist(s.book, b, NewLine(limit, rate, score, now), 0, None) == Ok(q.book)
  {
  }

  /** Re-opening a defaulted line takes it off the auction counter. */
  lemma ReopenedAuctions(k: Book, b: Address)
    requires BookOk(k) && b in k.lines
    ensures AuctionsWithout(k, k.lines[b].status) == k.pendingAuctions - Flag(k.lines[b].status == Defaulted)
  {
    CounterIsExact(k, b);
  }

  lemma OpenKeeps(s: State, cfg: Config, b: Address, limit: int, rate: u32, score: u32, now: u64)
    requires Accounting(s) && Open(s, cfg, b, limit, rate, score, now).Ok?
    ensures Accounting(Open(s, cfg, b, limit, rate, score, now).value)
  {
    OpenShape(s, cfg, b, limit, rate, score, now);
    if b in s.book.lines {
      var was := s.book.lines[b];
      ReopenedAuctions(s.book, b);
      ReplaceKeeps(s, b, Reopened(was, limit, rate, score, now), AuctionsWithout(s.book, was.status), [LineOpened(b)]);
    } else {
      PlainWriteKeepsBook(s.book, b, NewLine(limit, rate, score, now));
    }
  }

  /** The cap branch ran the accrual loop over every other line, and the total
      it projected is within the cap. */
  lemma UnderCapShape(s: State, cfg: Config, b: Address, pending: int, amount: int, now: u64)
    requires UnderCap(s, cfg, b, pending, amount, now).Ok?
    ensures var q := UnderCap(s, cfg, b, pending, amount, now).value;
      if cfg.exposureCap.None? then q == s
      else AccrueEach(s, cfg, Except(b), s.book.ids, now) == Ok(q)
           && q.book.totalUtilized + pending + amount <= cfg.exposureCap.value
  {
  }

  lemma UnderCapKeeps(s: State, cfg: Config, b: Address, pending: int, amount: int, now: u64)
    requires Accounting(s) && UnderCap(s, cfg, b, pending, amount, now).Ok?
    ensures Accounting(UnderCap(s, cfg, b, pending, amount, now).value)
    ensures StoredDebt(UnderCap(s, cfg, b, pending, amount, now).value.book, b) == StoredDebt(s.book, b)
    ensures StoredStatus(UnderCap(s, cfg, b, pending, amount, now).value.book, b) == StoredStatus(s.book, b)
  {
    UnderCapShape(s, cfg, b, pending, amount, now);
    if cfg.exposureCap.Some? {
      AccrueEachKeeps(s, cfg, Except(b), s.book.ids, now);
      ExcludedIsUntouched(s, cfg, b, s.book.ids, now);
    }
  }

  /** Writing a line without moving it in or out of default. */
  lemma PlainWriteKeepsBook(k: Book, b: Address, line: Line)
    requires BookOk(k) && Write(k, b, line).Ok?
    requires (StoredStatus(k, b) == Some(Defaulted)) == (line.status == Defaulted)
    ensures BookOk(Write(k, b, line).value)
  {
    WriteShape(k, b, line);
    WroteKeepsBook(k, b, line, Write(k, b, line).value);
  }

  lemma FinishDrawShape(s1: State, cfg: Config, b: Address, line: Line, wasUtilized: int, amount: int, now: u64)
    requires FinishDraw(s1, cfg, b, line, wasUtilized, amount, now).Ok?
    ensures var q := FinishDraw(s1, cfg, b, line, wasUtilized, amount, now).value;
      && Persist(s1.book, b, line.(utilized := line.utilized + amount), wasUtilized, Some(line.status)) == Ok(q.book)
      && q.vault == s1.vault && amount <= Source(s1, cfg)
      && q.reserve == IntoSource(s1, cfg, -amount).reserve && q.custody == IntoSource(s1, cfg, -amount).custody
      && q.events == s1.events + [Drawn(b, amount)]
  {
  }

  lemma FinishDrawKeeps(s1: State, cfg: Config, b: Address, line: Line, wasUtilized: int, amount: int, now: u64)
    requires Accounting(s1) && FinishDraw(s1, cfg, b, line, wasUtilized, amount, now).Ok?
    requires wasUtilized == StoredDebt(s1.book, b) && StoredStatus(s1.book, b) == Some(line.status)
    ensures Accounting(FinishDraw(s1, cfg, b, line, wasUtilized, amount, now).value)
  {
    FinishDrawShape(s1, cfg, b, line, wasUtilized, amount, now);
    PlainWriteKeepsBook(s1.book, b, line.(utilized := line.utilized + amount));
  }

  lemma BilledKeeps(s: State, b: Address, line: Line)
    requires Accounting(s) && b in s.book.lines
    ensures Accounting(Billed(s, b, line)) && Billed(s, b, line).book == s.book
  {
  }

  lemma CappedKeeps(s: State, cfg: Config, b: Address, line: Line, amount: int, now: u64)
    requires Accounting(s) && b in s.book.lines && Capped(s, cfg, b, line, amount, now).Ok?
    ensures Accounting(Capped(s, cfg, b, line, amount, now).value)
    ensures StoredDebt(Capped(s, cfg, b, line, amount, now).value.book, b) == s.book.lines[b].utilized
    ensures StoredStatus(Capped(s, cfg, b, line, amount, now).value.book, b) == Some(s.book.lines[b].status)
  {
    BilledKeeps(s, b, line);
    UnderCapKeeps(Billed(s, b, line), cfg, b, line.utilized - s.book.lines[b].utilized, amount, now);
  }

  /** A successful draw is its cap check followed by its transfer. */
  lemma DrawShape(s: State, cfg: Config, b: Address, cur: Result<Line>, amount: int, collateral: int, now: u64)
    requires (cur.Ok? ==> b in s.book.lines) && Draw(s, cfg, b, cur, amount, collateral, now).Ok?
    ensures cur.Ok? && amount > 0 && AdmitDraw(cfg, cur.value, amount, collateral).Ok?
    ensures Capped(s, cfg, b, cur.value, amount, now).Ok?
    ensures Draw(s, cfg, b, cur, amount, collateral, now)
         == FinishDraw(Capped(s, cfg, b, cur.value, amount, now).value, cfg, b, cur.value, s.book.lines[b].utilized, amount, now)
  {
  }

  lemma DrawKeeps(s: State, cfg: Config, b: Address, cur: Result<Line>, amount: int, collateral: int, now: u64)
    requires Accounting(s) && IsCurrent(s, b, cur) && Draw(s, cfg, b, cur, amount, collateral, now).Ok?
    ensures Accounting(Draw(s, cfg, b, cur, amount, collateral, now).value)
  {
    DrawShape(s, cfg, b, cur, amount, collateral, now);
    CappedKeeps(s, cfg, b, cur.value, amount, now);
    FinishDrawKeeps(Capped(s, cfg, b, cur.value, amount, now).value, cfg, b, cur.value, s.book.lines[b].utilized, amount, now);
  }

  /** A successful repayment: the fee and the late fee it paid, and the book it
      stored. */
  lemma RepayShape(s: State, cfg: Config, b: Address, cur: Result<Line>, amount: int, now: u64) returns (fee: int, late: int)
    requires (cur.Ok? ==> b in s.book.lines) && Repay(s, cfg, b, cur, amount, now).Ok?
    ensures cur.Ok? && 0 < amount
    ensures var q, a := Repay(s, cfg, b, cur, amount, now).value, RepaymentOf(cur.value, amount);
      && Persist(s.book, b, RepaidLine(cur.value, a), s.book.lines[b].utilized, Some(cur.value.status)) == Ok(q.book)
      && ProtocolFee(a, cfg.protocolFee) == Ok(fee) && 0 <= late
      && AccrueFee(s.vault, fee, cfg.feeShare).Ok?
      && AccrueFee(AccrueFee(s.vault, fee, cfg.feeShare).value, late, cfg.feeShare) == Ok(q.vault)
      && q.reserve == IntoSource(s, cfg, a.paid - fee).reserve
      && q.custody == IntoSource(s, cfg, a.paid - fee).custody + fee + late
      && q.settled == s.settled
      && q.events == s.events + InterestEvents(b, s.book.lines[b], cur.value) + LateFeeEvents(b, late) + [Repaid(b, a.paid)]
  {
    var line, a := cur.value, RepaymentOf(cur.value, amount);
    var billed := Billed(s, b, line);
    var s1 := TakePayment(billed, cfg, a).value;
    fee := ProtocolFee(a, cfg.protocolFee).value;
    late := AdvanceSchedule(ScheduleOf(s1, b), a.principal, FeePerInstallment(cfg), now).value.1;
    AdvanceScheduleFee(ScheduleOf(s1, b), a.principal, FeePerInstallment(cfg), now);
  }

  lemma RepayKeeps(s: State, cfg: Config, b: Address, cur: Result<Line>, amount: int, now: u64)
    requires Accounting(s) && IsCurrent(s, b, cur) && Repay(s, cfg, b, cur, amount, now).Ok?
    ensures Accounting(Repay(s, cfg, b, cur, amount, now).value)
  {
    var fee, late := RepayShape(s, cfg, b, cur, amount, now);
    AccrueFeeKeepsVault(s.vault, fee, cfg.feeShare);
    AccrueFeeKeepsVault(AccrueFee(s.vault, fee, cfg.feeShare).value, late, cfg.feeShare);
    PlainWriteKeepsBook(s.book, b, RepaidLine(cur.value, RepaymentOf(cur.value, amount)));
  }

  // ---- Entrypoints that rewrite one line ----------------------------------

  /** What a successful line entrypoint passed, and what it stored. */
  lemma LineStepShape(s: State, call: Call, read: Result<Line>)
    requires IsLineOp(call.op) && (read.Ok? ==> call.op.b in s.book.lines) && LineStep(s, call, read).Ok?
    ensures read.Ok? && Precheck(s, call).Pass? && Admit(s, call, read.value).Pass?
    ensures Stored(s, call, read.value).Ok?
    ensures var q := LineStep(s, call, read).value;
      && q.book == Stored(s, call, read.value).value
      && q.vault == s.vault && q.reserve == s.reserve && q.custody == s.custody
      && s.settled <= q.settled
      && q.events == s.events + InterestEvents(call.op.b, s.book.lines[call.op.b], read.value) + Published(call, read.value)
  {
  }

  /** The counter moves with the status: this is what each entrypoint's explicit
      increment or decrement amounts to, given the states it admits. */
  lemma AuctionsFollowStatus(s: State, call: Call, line: Line, pending: int)
    requires IsLineOp(call.op) && Admit(s, call, line).Pass? && Precheck(s, call).Pass?
    requires line.status == Defaulted ==> CountDown(pending) == pending - 1
    requires line.status != Defaulted ==> CountUp(pending) == pending + 1
    ensures Auctions(pending, call, line.status, Next(call, line).status)
         == pending - Flag(line.status == Defaulted) + Flag(Next(call, line).status == Defaulted)
  {
  }

  lemma LineStepKeeps(s: State, call: Call, read: Result<Line>)
    requires IsLineOp(call.op) && IsCurrent(s, call.op.b, read)
    requires Accounting(s) && LineStep(s, call, read).Ok?
    ensures Accounting(LineStep(s, call, read).value)
  {
    var line := read.value;
    LineStepShape(s, call, read);
    CounterIsExact(s.book, call.op.b);
    AuctionsFollowStatus(s, call, line, s.book.pendingAuctions);
    WriteKeepsBook(s.book, Auctions(s.book.pendingAuctions, call, line.status, Next(call, line).status),
                   call.op.b, Next(call, line));
  }

  lemma ReadIsCurrent(s: State, call: Call)
    requires IsLineOp(call.op)
    ensures IsCurrent(s, call.op.b, Read(s, call))
  {
    CurrentIsCurrent(s, call.cfg, call.op.b, call.now);
  }

  lemma SideStepKeeps(s: State, call: Call)
    requires IsSideOp(call.op) && Accounting(s) && SideStep(s, call).Ok?
    ensures Accounting(SideStep(s, call).value)
  {
    WithdrawalsKeepVault(s.vault, call.now, call.cfg.hasTreasury, call.cfg.hasBounty, call.cfg.hasToken, s.custody);
  }

  lemma StepKeepsAccounting(s: State, call: Call)
    requires Accounting(s) && Step(s, call).Ok?
    ensures Accounting(Step(s, call).value)
  {
    var Call(op, now, cfg) := call;
    if IsLineOp(op) {
      ReadIsCurrent(s, call);
      LineStepKeeps(s, call, Read(s, call));
    } else if IsSideOp(op) {
      SideStepKeeps(s, call);
    } else {
      match op
      case OpenLine(b, limit, rate, score) => OpenKeeps(s, cfg, b, limit, rate, score, now);
      case DrawCredit(b, amount, collateral) =>
        CurrentIsCurrent(s, cfg, b, now);
        DrawKeeps(s, cfg, b, Current(s, cfg, b, now), amount, collateral, now);
      case RepayCredit(b, amount) =>
        CurrentIsCurrent(s, cfg, b, now);
        RepayKeeps(s, cfg, b, Current(s, cfg, b, now), amount, now);
      case AccrueBatch(bs) => AccrueEachKeeps(s, cfg, ActiveOnly, bs, now);
    }
  }

  /** In every reachable state, whatever the calls, their order, their clock and
      the configuration: the index is exact, `TotalUtilized` is the sum of the
      lines, the auction counter is the number of defaulted lines, and the vault
      balances. */
  lemma {:induction false} AccountingHolds(reserve: int, custody: int, calls: seq<Call>)
    ensures Accounting(Exec(Genesis(reserve, custody), calls))
  {
    if |calls| > 0 {
      var before := Exec(Genesis(reserve, custody), calls[..|calls| - 1]);
      AccountingHolds(reserve, custody, calls[..|calls| - 1]);
      if Step(before, calls[|calls| - 1]).Ok? {
        StepKeepsAccounting(before, calls[|calls| - 1]);
      }
    }
  }

  lemma GenesisIsSound(reserve: int, custody: int)
    ensures Accounting(Genesis(reserve, custody))
  {
    AccountingHolds(reserve, custody, []);
  }
}
