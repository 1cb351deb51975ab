/** The bounds on every line, which all calls keep except an uncovered reversal. */
module LedgerSoundness {
  import opened Prelude
  import opened Accrual
  import opened Ledger
  import opened LedgerInvariants

  /** Interest is part of the debt, and the debt is a representable amount. */
  predicate SoundLine(line: Line) {
    0 <= line.accrued <= line.utilized <= I128_MAX
  }

  ghost predicate Sound(s: State) {
    forall b :: b in s.book.lines ==> SoundLine(s.book.lines[b])
  }

  /** A reversal is covered when it takes back no more than the principal owed. */
  predicate Covered(line: Line, amount: int) {
    amount <= line.utilized - line.accrued
  }

  predicate CoveredCall(s: State, call: Call) {
    call.op.ReverseDrawn? && Read(s, call).Ok? ==> Covered(Read(s, call).value, call.op.amount)
  }

  ghost predicate CoveredRun(s: State, calls: seq<Call>) {
    |calls| == 0
    || (CoveredRun(s, calls[..|calls| - 1]) && CoveredCall(Exec(s, calls[..|calls| - 1]), calls[|calls| - 1]))
  }

  lemma GrownIsSound(was: Line, line: Line)
    requires SoundLine(was) && Grown(was, line)
    ensures SoundLine(line)
  {
  }

  /** Every line entrypoint stores a sound line; a reversal exactly when covered. */
  lemma NextIsSound(s: State, call: Call, line: Line)
    requires IsLineOp(call.op) && Precheck(s, call).Pass? && Admit(s, call, line).Pass? && SoundLine(line)
    ensures call.op.ReverseDrawn? ==> (SoundLine(Next(call, line)) <==> Covered(line, call.op.amount))
    ensures !call.op.ReverseDrawn? ==> SoundLine(Next(call, line))
  {
  }

  lemma LineStepSound(s: State, call: Call, read: Result<Line>)
    requires IsLineOp(call.op) && IsCurrent(s, call.op.b, read) && LineStep(s, call, read).Ok? && Sound(s)
    ensures var q := LineStep(s, call, read).value;
      if call.op.ReverseDrawn? then Sound(q) <==> Covered(read.value, call.op.amount) else Sound(q)
  {
    var b := call.op.b;
    LineStepShape(s, call, read);
    GrownIsSound(s.book.lines[b], read.value);
    NextIsSound(s, call, read.value);
    var q := LineStep(s, call, read).value;
    assert q.book.lines == s.book.lines[b := Next(call, read.value)];
    assert b in q.book.lines;
  }

  lemma MaterializeSound(s: State, b: Address, cur: Result<Line>)
    requires Sound(s) && b in s.book.lines && IsCurrent(s, b, cur) && Materialize(s, b, cur).Ok?
    ensures Sound(Materialize(s, b, cur).value)
  {
    GrownIsSound(s.book.lines[b], cur.value);
  }

  lemma {:induction false} AccrueEachSound(s: State, cfg: Config, scope: Scope, bs: seq<Address>, now: u64)
    requires Sound(s) && AccrueEach(s, cfg, scope, bs, now).Ok?
    ensures Sound(AccrueEach(s, cfg, scope, bs, now).value)
  {
    if |bs| > 0 {
      var b := bs[|bs| - 1];
      AccrueEachSound(s, cfg, scope, bs[..|bs| - 1], now);
      var before := AccrueEach(s, cfg, scope, bs[..|bs| - 1], now).value;
      CurrentIsCurrent(before, cfg, b, now);
      if InScope(before, scope, b) {
        MaterializeSound(before, b, Current(before, cfg, b, now));
      }
    }
  }

  lemma FinishDrawSound(s1: State, cfg: Config, b: Address, line: Line, wasUtilized: int, amount: int, now: u64)
    requires Sound(s1) && SoundLine(line) && 0 < amount && line.utilized + amount <= I128_MAX
    requires FinishDraw(s1, cfg, b, line, wasUtilized, amount, now).Ok?
    ensures Sound(FinishDraw(s1, cfg, b, line, wasUtilized, amount, now).value)
  {
  }

  lemma CappedSound(s: State, cfg: Config, b: Address, line: Line, amount: int, now: u64)
    requires Sound(s) && b in s.book.lines && Capped(s, cfg, b, line, amount, now).Ok?
    ensures Sound(Capped(s, cfg, b, line, amount, now).value)
  {
    UnderCapShape(Billed(s, b, line), cfg, b, line.utilized - s.book.lines[b].utilized, amount, now);
    if cfg.exposureCap.Some? {
      AccrueEachSound(Billed(s, b, line), cfg, Except(b), s.book.ids, now);
    }
  }

  lemma DrawSound(s: State, cfg: Config, b: Address, cur: Result<Line>, amount: int, collateral: int, now: u64)
    requires Sound(s) && IsCurrent(s, b, cur) && Draw(s, cfg, b, cur, amount, collateral, now).Ok?
    ensures Sound(Draw(s, cfg, b, cur, amount, collateral, now).value)
  {
    DrawShape(s, cfg, b, cur, amount, collateral, now);
    CappedSound(s, cfg, b, cur.value, amount, now);
    GrownIsSound(s.book.lines[b], cur.value);
    FinishDrawSound(Capped(s, cfg, b, cur.value, amount, now).value, cfg, b, cur.value, s.book.lines[b].utilized, amount, now);
  }

  lemma RepaidIsSound(line: Line, amount: int)
    requires SoundLine(line) && 0 < amount
    ensures SoundLine(RepaidLine(line, RepaymentOf(line, amount)))
    ensures RepaidLine(line, RepaymentOf(line, amount)).utilized == line.utilized - RepaymentOf(line, amount).paid
  {
  }

  lemma RepayStores(s: State, cfg: Config, b: Address, cur: Result<Line>, amount: int, now: u64)
    requires (cur.Ok? ==> b in s.book.lines) && Repay(s, cfg, b, cur, amount, now).Ok?
    ensures cur.Ok? && 0 < amount
    ensures Repay(s, cfg, b, cur, amount, now).value.book.lines
         == s.book.lines[b := RepaidLine(cur.value, RepaymentOf(cur.value, amount))]
  {
    var fee, late := RepayShape(s, cfg, b, cur, amount, now);
  }

  lemma RepaySound(s: State, cfg: Config, b: Address, cur: Result<Line>, amount: int, now: u64)
    requires Sound(s) && IsCurrent(s, b, cur) && Repay(s, cfg, b, cur, amount, now).Ok?
    ensures Sound(Repay(s, cfg, b, cur, amount, now).value)
  {
    RepayStores(s, cfg, b, cur, amount, now);
    GrownIsSound(s.book.lines[b], cur.value);
    RepaidIsSound(cur.value, amount);
  }

  lemma OpenSound(s: State, cfg: Config, b: Address, limit: int, rate: u32, score: u32, now: u64)
    requires Sound(s) && Open(s, cfg, b, limit, rate, score, now).Ok?
    ensures Sound(Open(s, cfg, b, limit, rate, score, now).value)
  {
  }

  /** Every successful call but an uncovered reversal keeps every line sound. */
  lemma StepKeepsSound(s: State, call: Call)
    requires Sound(s) && CoveredCall(s, call)
    ensures Step(s, call).Ok? ==> Sound(Step(s, call).value)
  {
    var Call(op, now, cfg) := call;
    if Step(s, call).Err? {
    } else if IsLineOp(op) {
      ReadIsCurrent(s, call);
      LineStepSound(s, call, Read(s, call));
    } else if IsSideOp(op) {
      assert SideStep(s, call).value.book == s.book;
    } else {
      match op
      case OpenLine(b, limit, rate, score) => OpenSound(s, cfg, b, limit, rate, score, now);
      case DrawCredit(b, amount, collateral) =>
        CurrentIsCurrent(s, cfg, b, now);
        DrawSound(s, cfg, b, Current(s, cfg, b, now), amount, collateral, now);
      case RepayCredit(b, amount) =>
        CurrentIsCurrent(s, cfg, b, now);
        RepaySound(s, cfg, b, Current(s, cfg, b, now), amount, now);
      case AccrueBatch(bs) => AccrueEachSound(s, cfg, ActiveOnly, bs, now);
    }
  }

  /** `0 <= accrued_interest <= utilized_amount` in every state reached without an
      uncovered reversal. */
  lemma {:induction false} SoundnessHolds(reserve: int, custody: int, calls: seq<Call>)
    requires CoveredRun(Genesis(reserve, custody), calls)
    ensures Sound(Exec(Genesis(reserve, custody), calls))
  {
    if |calls| > 0 {
      var before := Exec(Genesis(reserve, custody), calls[..|calls| - 1]);
      SoundnessHolds(reserve, custody, calls[..|calls| - 1]);
      if Step(before, calls[|calls| - 1]).Ok? {
        StepKeepsSound(before, calls[|calls| - 1]);
      }
    }
  }

  /** `reverse_draw` does not check the principal, and the bound survives a
      successful reversal exactly when the caller reversed no more than that. */
  lemma ReversalKeepsSoundIffCovered(s: State, call: Call)
    requires Sound(s) && call.op.ReverseDrawn?
    ensures Step(s, call).Ok? ==> (Sound(Step(s, call).value) <==> CoveredCall(s, call))
  {
    if Step(s, call).Ok? {
      ReadIsCurrent(s, call);
      LineStepShape(s, call, Read(s, call));
      LineStepSound(s, call, Read(s, call));
    }
  }
}
