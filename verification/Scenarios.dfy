/** Runs from a fresh contract that show each difference between the code and what
    is written about it, with one borrower and for all amounts and times. */
module Scenarios {
  import opened Prelude
  import opened Arith
  import opened Sums
  import opened Accrual
  import opened Installments
  import opened Fees
  import opened Ledger
  import opened LedgerInvariants
  import opened LedgerSoundness
  import opened LedgerStall
  import LedgerReplay
  import LedgerReversals
  import opened RateChange

  /** No fees, caps, ratios or grace; every address configured. */
  const PLAIN := Config(None, None, 0, 0, 0, 10_000, None, 0, 10_000, true, true, true, false, None, None, None, 0)

  // ---- A ledger with one line ---------------------------------------------

  function Solo(b: Address, line: Line): Book {
    Book(map[b := line], [b], line.utilized, Flag(line.status == Active), Flag(line.status == Defaulted))
  }

  predicate Alone(s: State, b: Address, line: Line) {
    s.book == Solo(b, line)
  }

  predicate Unopened(s: State) {
    s.book == Book(map[], [], 0, 0, 0)
  }

  lemma SoloConserved(b: Address, line: Line)
    requires InI128(line.utilized)
    ensures TotalConserved(Solo(b, line).lines, [b], line.utilized)
  {
    var f := DebtIn(Solo(b, line).lines);
    assert [b][..0] == [];
    SumOfAppend(f, [], b);
    assert SumOf(f, [b]) == line.utilized;
    assert PartialSumsFit(Solo(b, line).lines, []);
  }

  lemma SoloWrite(b: Address, was: Line, line: Line, pending: int)
    requires InI128(was.utilized) && InI128(line.utilized) && InI128(line.utilized - was.utilized)
    requires pending == Flag(line.status == Defaulted)
    ensures Persist(Solo(b, was).(pendingAuctions := pending), b, line, was.utilized, Some(was.status)) == Ok(Solo(b, line))
  {
    SoloConserved(b, line);
    assert Solo(b, was).lines[b := line] == Solo(b, line).lines;
  }

  /** What the line of a lone borrower accrues to without a schedule. */
  lemma CurrentAlone(s: State, cfg: Config, b: Address, line: Line, now: u64)
    requires Alone(s, b, line)
    ensures now <= line.lastAccrual ==> Current(s, cfg, b, now) == Ok(line)
    ensures b !in s.schedules ==> Current(s, cfg, b, now) == Accrue(line, Env(now, false, Surcharge(cfg), cfg.grace))
  {
  }

  lemma OpenAlone(s: State, cfg: Config, b: Address, limit: int, rate: Bps, now: u64)
    requires Unopened(s) && 0 < limit && LimitInBounds(cfg, limit)
    ensures var r := Step(s, Call(OpenLine(b, limit, rate, 0), now, cfg));
      r.Ok? && Alone(r.value, b, NewLine(limit, rate, 0, now))
      && r.value == s.(book := r.value.book, events := r.value.events, schedules := s.schedules - {b})
  {
    var line := NewLine(limit, rate, 0, now);
    assert s.book.lines[b := line] == Solo(b, line).lines;
    assert s.book.ids + [b] == [b];
    assert Persist(s.book, b, line, 0, None) == Ok(Solo(b, line));
    assert Open(s, cfg, b, limit, rate, 0, now).Ok?;
  }

  lemma ReopenAlone(s: State, cfg: Config, b: Address, was: Line, limit: int, rate: Bps, now: u64)
    requires Alone(s, b, was) && was.status != Active && was.status != Closed && was.status != Defaulted
    requires 0 < limit && LimitInBounds(cfg, limit) && InI128(was.utilized)
    ensures var r := Step(s, Call(OpenLine(b, limit, rate, 0), now, cfg));
      r.Ok? && Alone(r.value, b, Reopened(was, limit, rate, 0, now)) && r.value.schedules == s.schedules - {b}
  {
    var line := Reopened(was, limit, rate, 0, now);
    SoloWrite(b, was, line, 0);
    assert Open(s, cfg, b, limit, rate, 0, now).Ok?;
  }

  lemma FinishAlone(s: State, cfg: Config, b: Address, line: Line, amount: int, now: u64)
    requires Alone(s, b, line) && line.status == Active
    requires InI128(line.utilized) && InI128(amount) && InI128(line.utilized + amount)
    requires cfg.hasToken && amount <= Source(s, cfg)
    ensures var r := FinishDraw(s, cfg, b, line, line.utilized, amount, now);
      && r.Ok? && Alone(r.value, b, line.(utilized := line.utilized + amount))
      && r.value.custody == IntoSource(s, cfg, -amount).custody && r.value.reserve == IntoSource(s, cfg, -amount).reserve
      && r.value.vault == s.vault && r.value.schedules == s.schedules
      && r.value.audit == s.audit.(drawn := RecordDraw(s.audit.drawn, (b, now), amount))
  {
    SoloWrite(b, line, line.(utilized := line.utilized + amount), 0);
  }

  lemma DrawAlone(s: State, cfg: Config, b: Address, line: Line, amount: i128, now: u64)
    requires Alone(s, b, line) && now <= line.lastAccrual && line.status == Active
    requires 0 < amount && 0 <= line.utilized && line.utilized + amount <= line.limit && InI128(line.limit)
    requires cfg.exposureCap.None? && cfg.minRatioBps == 0 && cfg.hasToken && amount <= Source(s, cfg)
    ensures var r := Step(s, Call(DrawCredit(b, amount, 0), now, cfg));
      && r.Ok? && Alone(r.value, b, line.(utilized := line.utilized + amount))
      && r.value.custody == IntoSource(s, cfg, -amount).custody && r.value.reserve == IntoSource(s, cfg, -amount).reserve
      && r.value.vault == s.vault && r.value.schedules == s.schedules
      && r.value.audit == s.audit.(drawn := RecordDraw(s.audit.drawn, (b, now), amount))
  {
    CurrentAlone(s, cfg, b, line, now);
    FinishAlone(Billed(s, b, line), cfg, b, line, amount, now);
    assert RequiredCollateral(line.utilized + amount, 0) == Ok(0);
    assert AdmitDraw(cfg, line, amount, 0).Ok?;
    assert Capped(s, cfg, b, line, amount, now) == Ok(Billed(s, b, line));
    assert Step(s, Call(DrawCredit(b, amount, 0), now, cfg)) == Draw(s, cfg, b, Ok(line), amount, 0, now);
  }

  /** A line entrypoint that passes its checks, on a lone line. */
  lemma LineOpAlone(s: State, call: Call, line: Line, cur: Line)
    requires IsLineOp(call.op) && Alone(s, call.op.b, line) && Read(s, call) == Ok(cur) && Grown(line, cur)
    requires Precheck(s, call).Pass? && Admit(s, call, cur).Pass?
    requires Auctions(Flag(line.status == Defaulted), call, cur.status, Next(call, cur).status)
          == Flag(Next(call, cur).status == Defaulted)
    requires InI128(line.utilized) && InI128(Next(call, cur).utilized) && InI128(Next(call, cur).utilized - line.utilized)
    ensures var r := Step(s, call);
      && r.Ok? && r.value.book == Solo(call.op.b, Next(call, cur))
      && r.value == Record(s, call, Next(call, cur)).(book := r.value.book, events := r.value.events)
  {
    SoloWrite(call.op.b, line, Next(call, cur), Auctions(Flag(line.status == Defaulted), call, cur.status, Next(call, cur).status));
    assert Stored(s, call, cur) == Ok(Solo(call.op.b, Next(call, cur)));
  }

  lemma MaterializeAlone(s: State, b: Address, line: Line, cur: Line)
    requires Alone(s, b, line) && line.status == Active && 0 < line.utilized <= I128_MAX && Grown(line, cur) && InI128(cur.utilized)
    ensures var r := Materialize(s, b, Ok(cur));
      r.Ok? && Alone(r.value, b, cur)
  {
    SoloWrite(b, line, cur, 0);
    assert Solo(b, line).(pendingAuctions := 0) == s.book;
  }

  /** An accrual batch of the one active line. */
  lemma AccrueAlone(s: State, cfg: Config, b: Address, line: Line, cur: Line, now: u64)
    requires Alone(s, b, line) && line.status == Active && 0 < line.utilized <= I128_MAX
    requires Current(s, cfg, b, now) == Ok(cur) && Grown(line, cur) && InI128(cur.utilized)
    ensures var r := Step(s, Call(AccrueBatch([b]), now, cfg));
      r.Ok? && Alone(r.value, b, cur)
  {
    BatchOfOne(s, cfg, b, now);
    MaterializeAlone(s, b, line, cur);
  }

  lemma BatchOfOne(s: State, cfg: Config, b: Address, now: u64)
    ensures Step(s, Call(AccrueBatch([b]), now, cfg)) == AccrueOne(s, cfg, ActiveOnly, b, now)
  {
    assert [b][..0] == [];
    assert AccrueEach(s, cfg, ActiveOnly, [], now) == Ok(s);
    assert AccrueEach(s, cfg, ActiveOnly, [b], now) == AccrueOne(s, cfg, ActiveOnly, b, now);
  }

  lemma RepayOf(s: State, cfg: Config, b: Address, line: Line, amount: i128, t: u64)
    requires b in s.book.lines && line.status != Closed && cfg.hasToken && 0 < amount
    ensures Repay(s, cfg, b, Ok(line), amount, t)
         == FinishRepay(Billed(s, b, line), cfg, b, line, s.book.lines[b].utilized, RepaymentOf(line, amount), t)
  {
  }

  /** What a repayment of a line that needs no accrual comes down to. */
  lemma RepayIsFinish(s: State, cfg: Config, b: Address, line: Line, amount: i128, t: u64)
    requires Alone(s, b, line) && line.status != Closed && t <= line.lastAccrual && cfg.hasToken && 0 < amount
    ensures Step(s, Call(RepayCredit(b, amount), t, cfg))
         == FinishRepay(Billed(s, b, line), cfg, b, line, line.utilized, RepaymentOf(line, amount), t)
  {
    CurrentAlone(s, cfg, b, line, t);
    RepayOf(s, cfg, b, line, amount, t);
    assert Step(s, Call(RepayCredit(b, amount), t, cfg)) == Repay(s, cfg, b, Current(s, cfg, b, t), amount, t);
  }

  // ---- A reversal below zero ----------------------------------------------

  /** A run with one more call. */
  lemma Extended(calls: seq<Call>, s: State, call: Call, reserve: int, custody: int)
    returns (longer: seq<Call>, next: State)
    requires s == Exec(Genesis(reserve, custody), calls)
    ensures longer == calls + [call] && next == Apply(s, call) == Exec(Genesis(reserve, custody), longer)
  {
    longer, next := calls + [call], Apply(s, call);
    assert longer[..|calls|] == calls;
  }

  function Reversal(b: Address, d: i128, now: u64): Call {
    Call(ReverseDrawn(b, d, now), now, PLAIN)
  }

  /** A line on which nothing is owed, with a draw of `d` still to reverse. */
  predicate Reversible(s: State, b: Address, line: Line, d: i128, now: u64) {
    && Alone(s, b, line) && line.utilized == 0 && line.accrued == 0 && line.status == Active && line.lastAccrual == now
    && (b, now) in s.audit.drawn && s.audit.drawn[(b, now)] == d && (b, now) !in s.audit.reversed
  }

  lemma OpenedAndDrawn(b: Address, d: i128, rate: Bps, now: u64, reserve: int, custody: int)
    returns (calls: seq<Call>, s: State)
    requires 0 < d <= reserve
    ensures s == Exec(Genesis(reserve, custody), calls) && Alone(s, b, NewLine(d, rate, 0, now).(utilized := d))
    ensures s.audit == Audit(map[(b, now) := d], map[]) && LedgerReplay.Tracks(s, b, LedgerReplay.Debt)
    ensures s.reserve == reserve - d
  {
    var open, draw := Call(OpenLine(b, d, rate, 0), now, PLAIN), Call(DrawCredit(b, d, 0), now, PLAIN);
    calls, s := [], Genesis(reserve, custody);
    OpenAlone(s, PLAIN, b, d, rate, now);
    LedgerReplay.ApplyTracks(s, open, b, LedgerReplay.Debt);
    calls, s := Extended(calls, s, open, reserve, custody);
    DrawAlone(s, PLAIN, b, NewLine(d, rate, 0, now), d, now);
    LedgerReplay.ApplyTracks(s, draw, b, LedgerReplay.Debt);
    calls, s := Extended(calls, s, draw, reserve, custody);
  }

  /** Open at `rate`, draw `d`, forgive `d`, all at one moment. */
  lemma DrawnAndForgiven(b: Address, d: i128, rate: Bps, now: u64, custody: int) returns (calls: seq<Call>, s: State)
    requires 0 < d
    ensures s == Exec(Genesis(d, custody), calls) && Reversible(s, b, NewLine(d, rate, 0, now), d, now)
    ensures LedgerReplay.Tracks(s, b, LedgerReplay.Debt)
  {
    calls, s := OpenedAndDrawn(b, d, rate, now, d, custody);
    var forgive := Call(ForgiveDebt(b, d), now, PLAIN);
    ForgiveAlone(s, b, NewLine(d, rate, 0, now).(utilized := d), d, now);
    LedgerReplay.ApplyTracks(s, forgive, b, LedgerReplay.Debt);
    calls, s := Extended(calls, s, forgive, d, custody);
  }

  /** Then reverse the draw: every call succeeds, and the line and the global total
      are left owing minus `d`, the line otherwise as opened. */
  lemma UncoveredReversalIsReachable(b: Address, d: i128, rate: Bps, now: u64, custody: int)
    returns (calls: seq<Call>, s: State, q: State)
    requires 0 < d
    ensures s == Exec(Genesis(d, custody), calls) && Sound(s) && Step(s, Reversal(b, d, now)) == Ok(q)
    ensures Alone(q, b, NewLine(d, rate, 0, now).(utilized := -d)) && q.book.totalUtilized == -d
  {
    var line := NewLine(d, rate, 0, now);
    calls, s := DrawnAndForgiven(b, d, rate, now, custody);
    AloneIsSound(s, b, line);
    q := ReversedAlone(s, b, line, d, now);
  }

  lemma AloneIsSound(s: State, b: Address, line: Line)
    requires Alone(s, b, line) && SoundLine(line)
    ensures Sound(s)
  {
  }

  lemma ReversedAlone(s: State, b: Address, line: Line, d: i128, now: u64) returns (q: State)
    requires Reversible(s, b, line, d, now) && 0 < d
    ensures Step(s, Reversal(b, d, now)) == Ok(q) && Alone(q, b, line.(utilized := -d))
  {
    ReverseAlone(s, b, line, d, now);
    q := Step(s, Reversal(b, d, now)).value;
  }

  /** Two basis-point seconds later such a line is stalled, whatever the
      configuration. */
  lemma StalledAlone(s: State, b: Address, line: Line, cfg: Config, later: u64)
    requires Alone(s, b, line) && InI128(line.utilized) && line.utilized < 0 && line.status == Active
    requires line.lastAccrual < later && 2 <= line.rate * (later - line.lastAccrual)
    ensures Stalled(s, cfg, b, later)
  {
  }

  /** Or repay any amount right after the reversal: the log accounts for the debt
      up to then, the repayment takes no token and publishes none, and yet line and
      global total rise by `d` to zero, which the log no longer explains. */
  lemma NegativeRepaymentIsUnrecorded(b: Address, d: i128, rate: Bps, now: u64, custody: int, amount: i128)
    returns (calls: seq<Call>, s: State, r: Result<State>)
    requires 0 < d && 0 < amount
    ensures s == Exec(Genesis(d, custody), calls) && LedgerReplay.Tracks(s, b, LedgerReplay.Debt) && s.book.totalUtilized == -d
    ensures r == Step(s, Call(RepayCredit(b, amount), now, PLAIN)) && r.Ok?
    ensures r.value.custody == s.custody && r.value.reserve == s.reserve && r.value.events == s.events + [Repaid(b, 0)]
    ensures r.value.book.totalUtilized == 0 && !LedgerReplay.Tracks(r.value, b, LedgerReplay.Debt)
  {
    var line := NewLine(d, rate, 0, now);
    calls, s := DrawnAndForgiven(b, d, rate, now, custody);
    ReverseAlone(s, b, line, d, now);
    LedgerReplay.ApplyTracks(s, Reversal(b, d, now), b, LedgerReplay.Debt);
    calls, s := Extended(calls, s, Reversal(b, d, now), d, custody);
    r := Step(s, Call(RepayCredit(b, amount), now, PLAIN));
    RepayNegativeAlone(s, b, line.(utilized := -d), d, amount, now, r);
    RepayNegativeUntracked(s, b, line.(utilized := -d), amount, now, r);
  }

  lemma RepayNegativeAlone(s: State, b: Address, line: Line, d: i128, amount: i128, now: u64, r: Result<State>)
    requires Alone(s, b, line) && line.utilized + d == 0 < d && line.accrued == 0 && line.status == Active && now <= line.lastAccrual
    requires 0 < amount && r == Step(s, Call(RepayCredit(b, amount), now, PLAIN))
    ensures r.Ok? && Alone(r.value, b, line.(utilized := 0)) && r.value.custody == s.custody && r.value.reserve == s.reserve
    ensures r.value.events == s.events + [Repaid(b, 0)]
  {
    var a := RepaymentOf(line, amount);
    RepayIsFinish(s, PLAIN, b, line, amount, now);
    LedgerReplay.RepaidDebt(line, amount);
    FinishNothing(Billed(s, b, line), b, line, d, now);
    assert Billed(s, b, line).events == s.events;
  }

  lemma FinishNothing(s: State, b: Address, line: Line, d: i128, now: u64)
    requires Alone(s, b, line) && line.utilized + d == 0 < d && line.accrued == 0 && line.status == Active
    ensures var r := FinishRepay(s, PLAIN, b, line, -d, Allocation(0, 0, 0), now);
      && r.Ok? && Alone(r.value, b, line.(utilized := 0)) && r.value.custody == s.custody && r.value.reserve == s.reserve
      && r.value.events == s.events + [Repaid(b, 0)]
  {
    SoloWrite(b, line, line.(utilized := 0), 0);
    assert TakePayment(s, PLAIN, Allocation(0, 0, 0)) == Ok(s);
    assert RepaidLine(line, Allocation(0, 0, 0)) == line.(utilized := 0);
    assert Solo(b, line).(pendingAuctions := 0) == s.book;
  }

  lemma RepayNegativeUntracked(s: State, b: Address, line: Line, amount: i128, now: u64, r: Result<State>)
    requires Alone(s, b, line) && line.utilized < 0 && now <= line.lastAccrual && LedgerReplay.Tracks(s, b, LedgerReplay.Debt)
    requires r == Step(s, Call(RepayCredit(b, amount), now, PLAIN)) && r.Ok?
    ensures !LedgerReplay.Tracks(r.value, b, LedgerReplay.Debt)
  {
    CurrentAlone(s, PLAIN, b, line, now);
    LedgerReplay.StepTracks(s, Call(RepayCredit(b, amount), now, PLAIN), b, LedgerReplay.Debt);
  }

  lemma ForgiveAlone(s: State, b: Address, line: Line, d: i128, now: u64)
    requires Alone(s, b, line) && line.utilized == d > 0 && line.accrued == 0 && line.status == Active && now <= line.lastAccrual
    ensures var r := Step(s, Call(ForgiveDebt(b, d), now, PLAIN));
      r.Ok? && Alone(r.value, b, line.(utilized := 0)) && r.value.audit == s.audit
  {
    var call := Call(ForgiveDebt(b, d), now, PLAIN);
    CurrentAlone(s, PLAIN, b, line, now);
    assert Next(call, line) == line.(utilized := 0);
    LineOpAlone(s, call, line, line);
  }

  lemma ReverseAlone(s: State, b: Address, line: Line, d: i128, now: u64)
    requires Alone(s, b, line) && line.utilized == 0 && line.status == Active && now <= line.lastAccrual && 0 < d
    requires (b, now) in s.audit.drawn && s.audit.drawn[(b, now)] == d && (b, now) !in s.audit.reversed
    ensures var r := Step(s, Call(ReverseDrawn(b, d, now), now, PLAIN));
      r.Ok? && Alone(r.value, b, line.(utilized := -d))
  {
    CurrentAlone(s, PLAIN, b, line, now);
    LineOpAlone(s, Call(ReverseDrawn(b, d, now), now, PLAIN), line, line);
  }

  /** A second draw at the same moment replaces the record of the first, but not
      what was reversed of it: after a full reversal of `d`, nothing of a further
      draw of `e` up to `d` can be reversed. */
  lemma SecondDrawCannotBeReversed(b: Address, d: i128, e: i128, rate: Bps, now: u64, custody: int, amount: i128)
    returns (calls: seq<Call>, s: State)
    requires 0 < e <= d && 2 * d <= I128_MAX && 0 < amount
    ensures s == Exec(Genesis(2 * d, custody), calls)
    ensures LedgerReversals.DrawnAt(s, (b, now)) == e <= LedgerReversals.OnRecord(s, (b, now)) == d
    ensures Step(s, Reversal(b, amount, now)) == Err(OverLimit)
  {
    var line := NewLine(d, rate, 0, now);
    calls, s := OpenedAndDrawn(b, d, rate, now, 2 * d, custody);
    ReverseAll(s, b, line.(utilized := d), d, now);
    calls, s := Extended(calls, s, Reversal(b, d, now), 2 * d, custody);
    DrawAlone(s, PLAIN, b, line, e, now);
    calls, s := Extended(calls, s, Call(DrawCredit(b, e, 0), now, PLAIN), 2 * d, custody);
    NothingLeftToReverse(s, b, line.(utilized := e), amount, now);
  }

  lemma ReverseAll(s: State, b: Address, line: Line, d: i128, now: u64)
    requires Alone(s, b, line) && line.utilized == d > 0 && line.status == Active && line.lastAccrual == now
    requires s.audit == Audit(map[(b, now) := d], map[])
    ensures var r := Step(s, Reversal(b, d, now));
      && r.Ok? && Alone(r.value, b, line.(utilized := 0)) && r.value.reserve == s.reserve
      && r.value.audit.reversed == map[(b, now) := d]
  {
    CurrentAlone(s, PLAIN, b, line, now);
    LineOpAlone(s, Reversal(b, d, now), line, line);
  }

  lemma NothingLeftToReverse(s: State, b: Address, line: Line, amount: i128, now: u64)
    requires Alone(s, b, line) && line.lastAccrual == now && 0 < amount
    requires (b, now) in s.audit.drawn && s.audit.drawn[(b, now)] <= LedgerReversals.OnRecord(s, (b, now))
    ensures Step(s, Reversal(b, amount, now)) == Err(OverLimit)
  {
    CurrentAlone(s, PLAIN, b, line, now);
  }

  // ---- Terms that reach back ----------------------------------------------

  /** A line drawn to one unit per second and basis point. */
  function Unit(rate: Bps, now: u64): Line {
    NewLine(BPS_YEAR, rate, 0, now).(utilized := BPS_YEAR)
  }

  /** Open at `rate` and draw `BPS_YEAR` tokens at once. */
  function Started(cfg: Config, b: Address, rate: Bps, now: u64): State {
    Apply(Apply(Genesis(BPS_YEAR, 0), Call(OpenLine(b, BPS_YEAR, rate, 0), now, cfg)), Call(DrawCredit(b, BPS_YEAR, 0), now, cfg))
  }

  predicate Simple(cfg: Config) {
    cfg == PLAIN.(grace := cfg.grace, rateLimits := cfg.rateLimits)
  }

  lemma StartedAlone(cfg: Config, b: Address, rate: Bps, now: u64)
    requires Simple(cfg)
    ensures Alone(Started(cfg, b, rate, now), b, Unit(rate, now)) && b !in Started(cfg, b, rate, now).schedules
  {
    var s0, line := Genesis(BPS_YEAR, 0), NewLine(BPS_YEAR, rate, 0, now);
    OpenAlone(s0, cfg, b, BPS_YEAR, rate, now);
    var s1 := Apply(s0, Call(OpenLine(b, BPS_YEAR, rate, 0), now, cfg));
    DrawAlone(s1, cfg, b, line, BPS_YEAR, now);
  }

  lemma UnitInterest(rate: Bps, secs: u64)
    ensures Prorate(BPS_YEAR, rate, secs) == Ok(rate * secs)
  {
    MulNonNeg(rate, secs);
    MulMono(rate, 10_000, secs);
    assert BPS_YEAR * rate * secs == BPS_YEAR * (rate * secs);
    DivUnique(BPS_YEAR * (rate * secs), BPS_YEAR, rate * secs);
  }

  lemma UnitGrows(line: Line, env: Env)
    requires line.utilized == BPS_YEAR && line.accrued == 0 && line.status == Active && line.lastAccrual < env.now
    requires !env.delinquent
    ensures Accrue(line, env).Ok? && Grown(line, Accrue(line, env).value)
    ensures Accrue(line, env).value.utilized == BPS_YEAR + line.rate * (env.now - line.lastAccrual) <= I128_MAX
  {
    var secs := env.now - line.lastAccrual;
    UnitInterest(line.rate, secs);
    MulNonNeg(line.rate, secs);
    MulMono(line.rate, 10_000, secs);
    AccrueGrows(line, env);
  }

  /** What `b` owes after an accrual batch, if the call succeeds. */
  function DebtAfter(s: State, cfg: Config, b: Address, now: u64): Option<int> {
    var r := Step(s, Call(AccrueBatch([b]), now, cfg));
    if r.Ok? && b in r.value.book.lines then Some(r.value.book.lines[b].utilized) else None
  }

  lemma DebtAccrued(s: State, cfg: Config, b: Address, line: Line, cur: Result<Line>, now: u64)
    requires Alone(s, b, line) && line.status == Active && 0 < line.utilized <= I128_MAX
    requires Current(s, cfg, b, now) == cur && cur.Ok? && Grown(line, cur.value) && InI128(cur.value.utilized)
    ensures DebtAfter(s, cfg, b, now) == Some(cur.value.utilized)
  {
    AccrueAlone(s, cfg, b, line, cur.value, now);
  }

  /** Accruing an active line of `BPS_YEAR` tokens. */
  lemma UnitAccrues(s: State, cfg: Config, b: Address, line: Line, now: u64, debt: int)
    requires Simple(cfg) && Alone(s, b, line) && b !in s.schedules
    requires line.utilized == BPS_YEAR && line.accrued == 0 && line.status == Active && line.lastAccrual < now
    requires debt == BPS_YEAR + line.rate * (now - line.lastAccrual)
    ensures DebtAfter(s, cfg, b, now) == Some(debt)
  {
    var env := Env(now, false, Surcharge(cfg), cfg.grace);
    CurrentAlone(s, cfg, b, line, now);
    UnitGrows(line, env);
    DebtAccrued(s, cfg, b, line, Accrue(line, env), now);
  }

  /** Repricing a debt that has accrued nothing leaves its checkpoint behind. */
  lemma RepriceAlone(s: State, b: Address, line: Line, now: u64)
    requires Alone(s, b, line) && b !in s.schedules
    requires line == Unit(0, line.lastAccrual) && line.lastAccrual < now
    ensures var r := Step(s, Reprice(b, now));
      r.Ok? && Alone(r.value, b, line.(rate := 1)) && r.value.schedules == s.schedules
  {
    var call := Reprice(b, now);
    CurrentAlone(s, PLAIN, b, line, now);
    assert Read(s, call) == Ok(line);
    assert Next(call, line) == line.(rate := 1);
    LineOpAlone(s, call, line, line);
  }

  function Reprice(b: Address, now: u64): Call {
    Call(UpdateRiskParameters(b, BPS_YEAR, 1, 0), now, PLAIN)
  }

  lemma RepricedDebt(s: State, b: Address, t: u64, at: u64, now: u64)
    requires Alone(s, b, Unit(0, t)) && b !in s.schedules && t < at < now
    ensures DebtAfter(Apply(s, Reprice(b, at)), PLAIN, b, now) == Some(BPS_YEAR + (now - t))
  {
    RepriceAlone(s, b, Unit(0, t), at);
    UnitAccrues(Apply(s, Reprice(b, at)), PLAIN, b, Unit(0, t).(rate := 1), now, BPS_YEAR + (now - t));
  }

  /** A line at rate zero from `t`, repriced to one basis point at `at`, owes at
      `now` a unit for every second since `t`, not since `at`. */
  lemma IdleTimeIsBackdated(b: Address, t: u64, at: u64, now: u64)
    requires t < at < now
    ensures DebtAfter(Apply(Started(PLAIN, b, 0, t), Reprice(b, at)), PLAIN, b, now) == Some(BPS_YEAR + (now - t))
  {
    StartedAlone(PLAIN, b, 0, t);
    RepricedDebt(Started(PLAIN, b, 0, t), b, t, at, now);
  }

  lemma SuspendAlone(s: State, cfg: Config, b: Address, line: Line)
    requires Simple(cfg) && Alone(s, b, line) && line.status == Active && line.suspendedAt == 0 && InI128(line.utilized)
    ensures var r := Step(s, Call(SelfSuspendLine(b), line.lastAccrual, cfg));
      && r.Ok? && r.value.schedules == s.schedules
      && Alone(r.value, b, line.(status := SelfSuspended, suspendedAt := line.lastAccrual))
  {
    CurrentAlone(s, cfg, b, line, line.lastAccrual);
    LineOpAlone(s, Call(SelfSuspendLine(b), line.lastAccrual, cfg), line, line);
  }

  /** Suspended at once, still at one basis point. */
  function Held(t: u64): Line {
    Unit(1, t).(status := SelfSuspended, suspendedAt := t)
  }

  function Paused(cfg: Config, b: Address, t: u64): State {
    Apply(Started(cfg, b, 1, t), Call(SelfSuspendLine(b), t, cfg))
  }

  lemma PausedAlone(cfg: Config, b: Address, t: u64)
    requires Simple(cfg)
    ensures Alone(Paused(cfg, b, t), b, Held(t)) && b !in Paused(cfg, b, t).schedules
  {
    StartedAlone(cfg, b, 1, t);
    SuspendAlone(Started(cfg, b, 1, t), cfg, b, Unit(1, t));
  }

  lemma HeldCredits(s: State, b: Address, t: u64, at: u64)
    requires Alone(s, b, Held(t)) && b !in s.schedules && t < at
    ensures b in s.book.lines && CreditsSomething(s.book.lines[b], EnvFor(s, PLAIN, b, at))
  {
    UnitInterest(1, at - t);
  }

  function Reopen(b: Address, now: u64): Call {
    Call(OpenLine(b, BPS_YEAR, 2, 0), now, PLAIN)
  }

  lemma ReopenedDebt(s: State, b: Address, t: u64, at: u64, now: u64)
    requires Alone(s, b, Held(t)) && b !in s.schedules && t < at < now
    ensures DebtAfter(Apply(s, Reopen(b, at)), PLAIN, b, now) == Some(BPS_YEAR + 2 * (now - t))
  {
    ReopenAlone(s, PLAIN, b, Held(t), BPS_YEAR, 2, at);
    UnitAccrues(Apply(s, Reopen(b, at)), PLAIN, b, Reopened(Held(t), BPS_YEAR, 2, 0, at), now, BPS_YEAR + 2 * (now - t));
  }

  /** Re-opening never accrues: although the old rate of one basis point has whole
      units pending at `at`, every second since `t` is charged at the new rate of
      two. */
  lemma ReopeningIsBackdated(b: Address, t: u64, at: u64, now: u64)
    requires t < at < now
    ensures var s := Paused(PLAIN, b, t);
      && b in s.book.lines && CreditsSomething(s.book.lines[b], EnvFor(s, PLAIN, b, at))
      && DebtAfter(Apply(s, Reopen(b, at)), PLAIN, b, now) == Some(BPS_YEAR + 2 * (now - t))
  {
    var s := Paused(PLAIN, b, t);
    PausedAlone(PLAIN, b, t);
    HeldCredits(s, b, t, at);
    ReopenedDebt(s, b, t, at, now);
  }

  function Waived(w: u64): Config {
    PLAIN.(grace := Some(Grace(w, FullWaiver, 0)))
  }

  function Resume(b: Address, now: u64, w: u64): Call {
    Call(SelfUnsuspendLine(b), now, Waived(w))
  }

  /** Ending a suspension inside a full waiver leaves the checkpoint at its start. */
  lemma UnsuspendAlone(s: State, b: Address, t: u64, w: u64)
    requires Alone(s, b, Held(t)) && b !in s.schedules && 0 < w && t + w <= U64_MAX
    ensures Current(s, Waived(w), b, t + w) == Ok(Held(t))
    ensures var r := Step(s, Resume(b, t + w, w));
      r.Ok? && Alone(r.value, b, Unit(1, t)) && r.value.schedules == s.schedules
  {
    var call := Resume(b, t + w, w);
    CurrentAlone(s, Waived(w), b, Held(t), t + w);
    assert Read(s, call) == Ok(Held(t));
    assert Next(call, Held(t)) == Unit(1, t);
    LineOpAlone(s, call, Held(t), Held(t));
  }

  lemma ResumedDebt(s: State, b: Address, t: u64, w: u64, now: u64)
    requires Alone(s, b, Held(t)) && b !in s.schedules && 0 < w && t + w < now
    ensures DebtAfter(Apply(s, Resume(b, t + w, w)), Waived(w), b, now) == Some(BPS_YEAR + (now - t))
  {
    UnsuspendAlone(s, b, t, w);
    UnitAccrues(Apply(s, Resume(b, t + w, w)), Waived(w), b, Unit(1, t), now, BPS_YEAR + (now - t));
  }

  /** A full waiver of `w` seconds is lost when the suspension ends inside it: at
      the end nothing is owed for it, but at `now` every second since `t` is. */
  lemma WaiverIsLost(b: Address, t: u64, w: u64, now: u64)
    requires 0 < w && t + w < now
    ensures var s := Paused(Waived(w), b, t);
      && Current(s, Waived(w), b, t + w) == Ok(Held(t))
      && DebtAfter(Apply(s, Resume(b, t + w, w)), Waived(w), b, now) == Some(BPS_YEAR + (now - t))
  {
    var s := Paused(Waived(w), b, t);
    PausedAlone(Waived(w), b, t);
    UnsuspendAlone(s, b, t, w);
    ResumedDebt(s, b, t, w, now);
  }

  // ---- A rate beyond its limits -------------------------------------------

  function Limited(limits: RateLimits): Config {
    PLAIN.(rateLimits := Some(limits))
  }

  function ReopenAt(b: Address, rate: Bps, now: u64, limits: RateLimits): Call {
    Call(OpenLine(b, BPS_YEAR, rate, 0), now, Limited(limits))
  }

  /** Whatever the limits, suspending a line and opening it again takes its rate
      from one basis point to any other at once. */
  lemma ReopeningEscapesLimits(b: Address, t: u64, rate: Bps, limits: RateLimits, s: State, q: State)
    requires s == Paused(Limited(limits), b, t) && q == Apply(s, ReopenAt(b, rate, t, limits))
    ensures b in s.book.lines && s.book.lines[b].rate == 1
    ensures b in q.book.lines && q.book.lines[b].rate == rate && q.book.lines[b].status == Active
  {
    PausedAlone(Limited(limits), b, t);
    ReopenAlone(s, Limited(limits), b, Held(t), BPS_YEAR, rate, t);
  }

  // ---- Fees paid out to a borrower ----------------------------------------

  /** The default source, with a late fee of `f` per installment. */
  function Dues(f: nat): Config {
    PLAIN.(selfSourced := true, legacyFlat := f)
  }

  /** The arrears: `d` of principal, scheduled as one installment due at zero. */
  predicate InArrears(s: State, b: Address, line: Line, d: i128) {
    && Alone(s, b, line) && line.utilized == d && line.accrued == 0 && line.status == Active
    && b in s.schedules && s.schedules[b] == Schedule(d, 1, 0) && s.vault == EMPTY_VAULT
  }

  lemma LateFeeDue(s: State, b: Address, d: i128, f: i128, t: u64)
    requires b in s.schedules && s.schedules[b] == Schedule(d, 1, 0) && 0 < d && 0 < t && 0 < f && s.vault == EMPTY_VAULT
    ensures var r := ChargeLateFee(s, Dues(f), b, d, t);
      && r.Ok? && r.value.book == s.book && r.value.custody == s.custody + f
      && r.value.vault.treasury == f && r.value.vault.pending.None?
  {
    DivUnique(d, d, 1);
    assert InstallmentsPaid(d, d) == 1;
    DivUnique(t - 1, 1, t - 1);
    assert OverdueCount(t, 0, 1, 1) == 1;
    assert AdvanceSchedule(ScheduleOf(s, b), d, f, t).Ok?;
    DivUnique(20_000 * f + 10_000, 20_000, f);
    assert TreasuryPart(f, 10_000) == f;
  }

  lemma RepayFinishes(s: State, b: Address, line: Line, d: i128, f: i128, t: u64)
    requires InArrears(s, b, line, d) && 0 < d && 0 < t && 0 < f
    ensures var r := FinishRepay(s, Dues(f), b, line, d, Allocation(d, 0, d), t);
      && r.Ok? && Alone(r.value, b, line.(utilized := 0))
      && r.value.custody == s.custody + d + f
      && r.value.vault.treasury == f && r.value.vault.pending.None?
  {
    var a, next := Allocation(d, 0, d), line.(utilized := 0);
    SoloWrite(b, line, next, 0);
    var s1 := s.(custody := s.custody + d);
    assert TakePayment(s, Dues(f), a) == Ok(s1);
    assert RepaidLine(line, a) == next;
    assert Solo(b, line).(pendingAuctions := 0) == s1.book;
    LateFeeDue(s1.(book := Solo(b, next)), b, d, f, t);
  }

  lemma RepayLateAlone(s: State, b: Address, line: Line, d: i128, f: i128, t: u64)
    requires InArrears(s, b, line, d) && 0 < d && 0 < t && 0 < f && t <= line.lastAccrual
    ensures var r := Step(s, Call(RepayCredit(b, d), t, Dues(f)));
      && r.Ok? && Alone(r.value, b, line.(utilized := 0))
      && r.value.custody == s.custody + d + f
      && r.value.vault.treasury == f && r.value.vault.pending.None?
  {
    RepayIsFinish(s, Dues(f), b, line, d, t);
    assert RepaymentOf(line, d) == Allocation(d, 0, d);
    RepayFinishes(Billed(s, b, line), b, line, d, f, t);
  }

  /** What collecting the fee leaves. */
  predicate Collected(s: State, b: Address, limit: i128, f: i128, t: u64, custody: int) {
    Alone(s, b, NewLine(limit, 0, 0, t)) && s.custody == custody && s.vault.treasury == f && s.vault.pending.None?
  }

  /** Every call of the run is made at `t` with fee `f`. */
  ghost predicate Uniform(calls: seq<Call>, f: nat, t: u64) {
    forall c :: c in calls ==> c.cfg == Dues(f) && c.now == t
  }

  lemma FallsInArrears(b: Address, limit: i128, d: i128, f: nat, t: u64, reserve: int, custody: int)
    returns (calls: seq<Call>, s: State)
    requires 0 < d <= limit && d <= custody
    ensures s == Exec(Genesis(reserve, custody), calls) && Uniform(calls, f, t)
    ensures InArrears(s, b, NewLine(limit, 0, 0, t).(utilized := d), d) && s.custody == custody - d
  {
    var cfg, line := Dues(f), NewLine(limit, 0, 0, t);
    s, calls := Genesis(reserve, custody), [];
    OpenAlone(s, cfg, b, limit, 0, t);
    calls, s := Extended(calls, s, Call(OpenLine(b, limit, 0, 0), t, cfg), reserve, custody);
    DrawAlone(s, cfg, b, line, d, t);
    calls, s := Extended(calls, s, Call(DrawCredit(b, d, 0), t, cfg), reserve, custody);
    calls, s := Extended(calls, s, Call(SetRepaymentSchedule(b, d, 1, 0), t, cfg), reserve, custody);
  }

  /** Open, draw `d` from the contract's own balance, schedule it as overdue, and
      repay it with the late fee. */
  lemma FeeIsCollected(b: Address, limit: i128, d: i128, f: i128, t: u64, reserve: int, custody: int)
    returns (calls: seq<Call>, s: State)
    requires 0 < f && 0 < t && 0 < d <= limit && d <= custody
    ensures s == Exec(Genesis(reserve, custody), calls) && Uniform(calls, f, t)
    ensures Collected(s, b, limit, f, t, custody + f)
  {
    calls, s := FallsInArrears(b, limit, d, f, t, reserve, custody);
    RepayLateAlone(s, b, NewLine(limit, 0, 0, t).(utilized := d), d, f, t);
    calls, s := Extended(calls, s, Call(RepayCredit(b, d), t, Dues(f)), reserve, custody);
  }

  lemma ProposeAlone(s: State, f: nat, t: u64)
    requires s.vault.pending.None?
    ensures Step(s, Call(ProposeWithdrawal, t, Dues(f)))
         == Ok(s.(vault := s.vault.(pending := Some(Proposal(s.vault.treasury, t, SatAdd64(t, TIMELOCK_SECONDS))))))
  {
  }

  lemma ExecuteFails(s: State, f: nat, at: u64)
    requires 0 < f && s.custody == 0 && s.vault.treasury == f
    requires s.vault.pending.Some? && s.vault.pending.value.amount == f && s.vault.pending.value.executeAfter <= at
    ensures Step(s, Call(ExecuteWithdrawal, at, Dues(f))) == Err(TokenTransferFailed)
  {
  }

  /** Propose the withdrawal of the fee, then draw the whole balance. */
  lemma BalanceIsDrawn(b: Address, limit: i128, f: i128, t: u64, reserve: int, custody: int, run: seq<Call>, s: State)
    returns (calls: seq<Call>, q: State)
    requires 0 < f && 0 < limit && Collected(s, b, limit, f, t, limit)
    requires s == Exec(Genesis(reserve, custody), run) && Uniform(run, f, t)
    ensures q == Exec(Genesis(reserve, custody), calls) && Uniform(calls, f, t)
    ensures q.vault.treasury == f && q.vault.pending == Some(Proposal(f, t, SatAdd64(t, TIMELOCK_SECONDS))) && q.custody == 0
  {
    ProposeAlone(s, f, t);
    calls, q := Extended(run, s, Call(ProposeWithdrawal, t, Dues(f)), reserve, custody);
    DrawAlone(q, Dues(f), b, NewLine(limit, 0, 0, t), limit, t);
    calls, q := Extended(calls, q, Call(DrawCredit(b, limit, 0), t, Dues(f)), reserve, custody);
  }

  /** With the default source: a run collects a fee of `f`, proposes its withdrawal
      and makes one draw of the whole contract balance.  However much later, the
      mature withdrawal fails, with `f` on the accumulator and nothing behind it. */
  lemma FeesCanBeDrawn(b: Address, f: i128, reserve: int, custody: i128, t: u64, at: u64) returns (calls: seq<Call>, q: State)
    requires 0 < f && 0 < t && 1 <= custody && custody + f <= I128_MAX && SatAdd64(t, TIMELOCK_SECONDS) <= at
    ensures q == Exec(Genesis(reserve, custody), calls) && Uniform(calls, f, t)
    ensures q.vault.treasury == f && q.vault.pending == Some(Proposal(f, t, SatAdd64(t, TIMELOCK_SECONDS))) && q.custody == 0
    ensures Step(q, Call(ExecuteWithdrawal, at, Dues(f))) == Err(TokenTransferFailed)
  {
    var run, s := FeeIsCollected(b, custody + f, custody, f, t, reserve, custody);
    calls, q := BalanceIsDrawn(b, custody + f, f, t, reserve, custody, run, s);
    ExecuteFails(q, f, at);
  }
}
