/** The two loops over many lines: what `accrue_batch` and the accrual before a
    capped draw do to every line at once. */
module LedgerLoops {
  import opened Prelude
  import opened Sums
  import opened Accrual
  import opened Ledger
  import opened LedgerInvariants
  import opened LedgerSoundness

  // ---- One line, accrued twice --------------------------------------------

  lemma CurrentReadsOneLine(s: State, t: State, cfg: Config, x: Address, now: u64)
    requires x in s.book.lines && x in t.book.lines
    requires t.book.lines[x] == s.book.lines[x] && t.schedules == s.schedules
    ensures Current(t, cfg, x, now) == Current(s, cfg, x, now)
  {
  }

  /** Accruing is idempotent at one timestamp. */
  lemma CurrentIsStable(s: State, t: State, cfg: Config, x: Address, now: u64)
    requires x in s.book.lines && x in t.book.lines && t.schedules == s.schedules
    requires Current(s, cfg, x, now) == Ok(t.book.lines[x])
    ensures Current(t, cfg, x, now) == Ok(t.book.lines[x])
  {
    var env, again := EnvFor(s, cfg, x, now), EnvFor(t, cfg, x, now);
    AccrueIsIdempotent(s.book.lines[x], env, again);
  }

  /** Scope does not change by accruing. */
  lemma GrownKeepsScope(s: State, t: State, scope: Scope, x: Address)
    requires x in s.book.lines && x in t.book.lines
    requires Grown(s.book.lines[x], t.book.lines[x])
    requires InScope(s, scope, x)
    ensures InScope(t, scope, x)
  {
  }

  /** Whom a loop concerns: a batch active lines with debt, a draw everyone else. */
  predicate Concerns(scope: Scope, x: Address, line: Line) {
    match scope
    case ActiveOnly => line.status == Active && 0 < line.utilized
    case Except(drawer) => x != drawer
  }

  /** `t` is what the loop makes of line `x` of `s`, given whether `x` was listed. */
  predicate AccruedAt(s: State, t: State, cfg: Config, scope: Scope, listed: bool, now: u64, x: Address) {
    && t.schedules == s.schedules
    && (x in t.book.lines <==> x in s.book.lines)
    && (x in s.book.lines ==>
          if Concerns(scope, x, s.book.lines[x]) && listed then Current(s, cfg, x, now) == Ok(t.book.lines[x])
          else t.book.lines[x] == s.book.lines[x])
  }

  lemma MaterializeWrites(s: State, b: Address, cur: Result<Line>)
    requires b in s.book.lines && IsCurrent(s, b, cur) && Materialize(s, b, cur).Ok?
    ensures var q := Materialize(s, b, cur).value;
      cur.Ok? && q.book.lines == s.book.lines[b := cur.value] && q.schedules == s.schedules
  {
  }

  lemma AccrueOneAt(s: State, before: State, cfg: Config, scope: Scope, listed: bool, b: Address, now: u64, x: Address)
    requires AccruedAt(s, before, cfg, scope, listed, now, x)
    requires AccrueOne(before, cfg, scope, b, now).Ok?
    ensures AccruedAt(s, AccrueOne(before, cfg, scope, b, now).value, cfg, scope, listed || b == x, now, x)
  {
    CurrentIsCurrent(s, cfg, x, now);
    CurrentIsCurrent(before, cfg, b, now);
    if InScope(before, scope, b) {
      MaterializeWrites(before, b, Current(before, cfg, b, now));
    }
    if b == x && x in s.book.lines {
      if InScope(s, scope, x) && listed {
        GrownKeepsScope(s, before, scope, x);
        CurrentIsStable(s, before, cfg, x, now);
      } else {
        CurrentReadsOneLine(s, before, cfg, x, now);
      }
    }
  }

  /** The loop leaves each line as if it alone had been accrued once, however
      often and wherever it is listed. */
  lemma {:induction false} AccrueEachAt(s: State, cfg: Config, scope: Scope, bs: seq<Address>, now: u64, x: Address)
    requires AccrueEach(s, cfg, scope, bs, now).Ok?
    ensures AccruedAt(s, AccrueEach(s, cfg, scope, bs, now).value, cfg, scope, x in bs, now, x)
  {
    if |bs| > 0 {
      var init, b := bs[..|bs| - 1], bs[|bs| - 1];
      AccrueEachAt(s, cfg, scope, init, now, x);
      AccrueOneAt(s, AccrueEach(s, cfg, scope, init, now).value, cfg, scope, x in init, b, now, x);
      assert x in bs <==> x in init || b == x;
    }
  }

  /** Nothing but lines, aggregates and events moves. */
  lemma {:induction false} AccrueEachFrame(s: State, cfg: Config, scope: Scope, bs: seq<Address>, now: u64)
    requires AccrueEach(s, cfg, scope, bs, now).Ok?
    ensures var q := AccrueEach(s, cfg, scope, bs, now).value;
      q == s.(book := q.book, events := q.events)
    ensures Indexed(s.book) ==> AccrueEach(s, cfg, scope, bs, now).value.book.ids == s.book.ids
  {
    if |bs| > 0 {
      var init := bs[..|bs| - 1];
      AccrueEachFrame(s, cfg, scope, init, now);
      if Indexed(s.book) {
        AccrueEachDomain(s, cfg, scope, init, now);
      }
    }
  }

  lemma AccrueEachDomain(s: State, cfg: Config, scope: Scope, bs: seq<Address>, now: u64)
    requires AccrueEach(s, cfg, scope, bs, now).Ok?
    ensures AccrueEach(s, cfg, scope, bs, now).value.book.lines.Keys == s.book.lines.Keys
  {
    var q := AccrueEach(s, cfg, scope, bs, now).value;
    forall x
      ensures x in q.book.lines <==> x in s.book.lines
    {
      AccrueEachAt(s, cfg, scope, bs, now, x);
    }
  }

  // ---- A draw under a global cap ------------------------------------------

  /** Line `x` is the same before and after, but for interest up to this moment,
      of which none is left to accrue. */
  predicate BroughtUpToDate(s: State, q: State, cfg: Config, now: u64, x: Address) {
    && (x in q.book.lines <==> x in s.book.lines)
    && (x in s.book.lines ==> Current(s, cfg, x, now) == Ok(q.book.lines[x]) && Current(q, cfg, x, now) == Ok(q.book.lines[x]))
  }

  /** After a successful draw under an exposure cap, the stored total is the sum
      of all lines and at most the cap, and every other line has been accrued up
      to this moment, so nothing more is owed than was counted. */
  lemma CappedDrawIsExact(s: State, cfg: Config, b: Address, amount: i128, collateral: int, now: u64, q: State, x: Address)
    requires Accounting(s) && cfg.exposureCap.Some?
    ensures Step(s, Call(DrawCredit(b, amount, collateral), now, cfg)) == Ok(q) ==>
      && q.book.totalUtilized == Debts(q.book) <= cfg.exposureCap.value
      && (x != b ==> BroughtUpToDate(s, q, cfg, now, x))
      && Current(s, cfg, b, now).Ok? && b in q.book.lines
      && q.book.lines[b].utilized == Current(s, cfg, b, now).value.utilized + amount
  {
    var cur := Current(s, cfg, b, now);
    CurrentIsCurrent(s, cfg, b, now);
    if Draw(s, cfg, b, cur, amount, collateral, now) == Ok(q) {
      DrawUnderCap(s, cfg, b, cur, amount, collateral, now, q, x);
    }
  }

  lemma DrawUnderCap(s: State, cfg: Config, b: Address, cur: Result<Line>, amount: int,
                     collateral: int, now: u64, q: State, x: Address)
    requires Accounting(s) && cfg.exposureCap.Some? && IsCurrent(s, b, cur)
    requires Draw(s, cfg, b, cur, amount, collateral, now) == Ok(q)
    ensures cur.Ok? && b in q.book.lines && q.book.lines[b].utilized == cur.value.utilized + amount
    ensures q.book.totalUtilized == Debts(q.book) <= cfg.exposureCap.value
    ensures x != b ==> BroughtUpToDate(s, q, cfg, now, x)
  {
    DrawShape(s, cfg, b, cur, amount, collateral, now);
    DrawKeeps(s, cfg, b, cur, amount, collateral, now);
    CapHolds(s, cfg, b, cur.value, amount, now);
    CappedAt(s, cfg, b, cur.value, amount, now, x);
    FinishDrawAt(Capped(s, cfg, b, cur.value, amount, now).value, cfg, b, cur.value, s.book.lines[b].utilized, amount, now);
    if x in s.book.lines && x != b {
      CurrentIsStable(s, q, cfg, x, now);
    }
  }

  lemma CapHolds(s: State, cfg: Config, b: Address, line: Line, amount: int, now: u64)
    requires b in s.book.lines && cfg.exposureCap.Some? && Capped(s, cfg, b, line, amount, now).Ok?
    ensures Capped(s, cfg, b, line, amount, now).value.book.totalUtilized
            + line.utilized + amount - s.book.lines[b].utilized <= cfg.exposureCap.value
  {
    UnderCapShape(Billed(s, b, line), cfg, b, line.utilized - s.book.lines[b].utilized, amount, now);
  }

  lemma CappedAt(s: State, cfg: Config, b: Address, line: Line, amount: int, now: u64, x: Address)
    requires Indexed(s.book) && b in s.book.lines && cfg.exposureCap.Some? && Capped(s, cfg, b, line, amount, now).Ok?
    ensures var s1 := Capped(s, cfg, b, line, amount, now).value;
      && s1.schedules == s.schedules
      && (x in s1.book.lines <==> x in s.book.lines)
      && (x in s.book.lines && x != b ==> Current(s, cfg, x, now) == Ok(s1.book.lines[x]))
  {
    var billed := Billed(s, b, line);
    UnderCapShape(billed, cfg, b, line.utilized - s.book.lines[b].utilized, amount, now);
    AccrueEachAt(billed, cfg, Except(b), s.book.ids, now, x);
    if x in s.book.lines {
      CurrentReadsOneLine(s, billed, cfg, x, now);
    }
  }

  lemma FinishDrawAt(s1: State, cfg: Config, b: Address, line: Line, wasUtilized: int, amount: int, now: u64)
    requires FinishDraw(s1, cfg, b, line, wasUtilized, amount, now).Ok?
    ensures var q := FinishDraw(s1, cfg, b, line, wasUtilized, amount, now).value;
      && q.schedules == s1.schedules
      && q.book.lines == s1.book.lines[b := line.(utilized := line.utilized + amount)]
      && q.book.totalUtilized == s1.book.totalUtilized + line.utilized + amount - wasUtilized
  {
  }

  // ---- A batch depends only on who is listed ------------------------------

  lemma PartialDebts(lines: map<Address, Line>, ids: seq<Address>)
    requires forall x :: x in lines ==> 0 <= lines[x].utilized
    requires SumOf(DebtIn(lines), ids) <= I128_MAX
    ensures 0 <= SumOf(DebtIn(lines), ids) && PartialSumsFit(lines, ids)
  {
    if |ids| > 0 {
      PartialDebts(lines, ids[..|ids| - 1]);
    }
  }

  lemma ConservedAfter(k: Book, b: Address, line: Line)
    requires Indexed(k) && k.totalUtilized == Debts(k) && b in k.lines && SoundLine(line)
    requires forall x :: x in k.lines ==> SoundLine(k.lines[x])
    requires k.totalUtilized + line.utilized - k.lines[b].utilized <= I128_MAX
    ensures TotalConserved(k.lines[b := line], k.ids, k.totalUtilized + line.utilized - k.lines[b].utilized)
    ensures 0 <= k.totalUtilized + line.utilized - k.lines[b].utilized
  {
    SumOfOneChange(DebtIn(k.lines), DebtIn(k.lines[b := line]), k.ids, b);
    PartialDebts(k.lines[b := line], k.ids);
  }

  /** Storing an accrued line can only fail for want of room in the total. */
  lemma MaterializeSucceeds(s: State, b: Address, line: Line)
    requires BookOk(s.book) && Sound(s) && b in s.book.lines && SoundLine(line)
    requires s.book.totalUtilized + line.utilized - s.book.lines[b].utilized <= I128_MAX
    ensures Materialize(s, b, Ok(line)).Ok?
  {
    ConservedAfter(s.book, b, line);
    var delta := line.utilized - s.book.lines[b].utilized;
    assert InI128(delta);
    assert CheckedI128(s.book.totalUtilized + delta).Ok?;
    assert EnsureId(s.book.ids, b) == Ok(s.book.ids);
  }

  /** What the batch credits to line `x`. */
  function Credited(s: State, cfg: Config, scope: Scope, bs: seq<Address>, now: u64): Address -> int {
    (x: Address) => if x in bs then CreditOf(s, cfg, scope, x, now) else 0
  }

  function CreditOf(s: State, cfg: Config, scope: Scope, x: Address, now: u64): int {
    if InScope(s, scope, x) && Current(s, cfg, x, now).Ok?
    then Current(s, cfg, x, now).value.utilized - s.book.lines[x].utilized else 0
  }

  lemma CreditIsNonNeg(s: State, cfg: Config, scope: Scope, x: Address, now: u64)
    ensures 0 <= CreditOf(s, cfg, scope, x, now)
  {
    CurrentIsCurrent(s, cfg, x, now);
  }

  lemma SumOfPlus(f: Address -> int, g: Address -> int, h: Address -> int, s: seq<Address>)
    requires forall x :: x in s ==> h(x) == f(x) + g(x)
    ensures SumOf(h, s) == SumOf(f, s) + SumOf(g, s)
  {
    if |s| > 0 {
      SumOfPlus(f, g, h, s[..|s| - 1]);
    }
  }

  lemma BatchDebts(s: State, cfg: Config, scope: Scope, bs: seq<Address>, now: u64, q: State)
    requires AccrueEach(s, cfg, scope, bs, now) == Ok(q)
    ensures SumOf(DebtIn(q.book.lines), s.book.ids) == Debts(s.book) + SumOf(Credited(s, cfg, scope, bs, now), s.book.ids)
  {
    forall x | x in s.book.ids
      ensures DebtIn(q.book.lines)(x) == DebtIn(s.book.lines)(x) + Credited(s, cfg, scope, bs, now)(x)
    {
      AccrueEachAt(s, cfg, scope, bs, now, x);
    }
    SumOfPlus(DebtIn(s.book.lines), Credited(s, cfg, scope, bs, now), DebtIn(q.book.lines), s.book.ids);
  }

  /** The global total grows by the interest of each listed line, counted once. */
  lemma BatchTotal(s: State, cfg: Config, scope: Scope, bs: seq<Address>, now: u64)
    requires Accounting(s) && AccrueEach(s, cfg, scope, bs, now).Ok?
    ensures AccrueEach(s, cfg, scope, bs, now).value.book.totalUtilized
         == s.book.totalUtilized + SumOf(Credited(s, cfg, scope, bs, now), s.book.ids)
  {
    AccrueEachKeeps(s, cfg, scope, bs, now);
    AccrueEachFrame(s, cfg, scope, bs, now);
    BatchDebts(s, cfg, scope, bs, now, AccrueEach(s, cfg, scope, bs, now).value);
  }

  /** Listing one more borrower adds its credit, unless it was listed already. */
  lemma CreditOfOneMore(s: State, cfg: Config, scope: Scope, init: seq<Address>, b: Address, now: u64)
    requires Indexed(s.book)
    ensures SumOf(Credited(s, cfg, scope, init + [b], now), s.book.ids)
         == SumOf(Credited(s, cfg, scope, init, now), s.book.ids)
            + if b in init then 0 else CreditOf(s, cfg, scope, b, now)
    ensures SumOf(Credited(s, cfg, scope, init, now), s.book.ids)
         <= SumOf(Credited(s, cfg, scope, init + [b], now), s.book.ids)
  {
    var f, g := Credited(s, cfg, scope, init, now), Credited(s, cfg, scope, init + [b], now);
    forall x | x != b
      ensures f(x) == g(x)
    {
    }
    CreditIsNonNeg(s, cfg, scope, b, now);
    SumOfOneChange(f, g, s.book.ids, b);
  }

  /** Accruing `b` from `p`, itself part of a batch over `s`. */
  lemma OneMoreAt(s: State, p: State, cfg: Config, scope: Scope, listed: bool, b: Address, now: u64)
    requires AccruedAt(s, p, cfg, scope, listed, now, b) && InScope(p, scope, b)
    requires InScope(s, scope, b) ==> Current(s, cfg, b, now).Ok?
    ensures Current(p, cfg, b, now).Ok?
    ensures Current(p, cfg, b, now).value.utilized - p.book.lines[b].utilized
         == if listed then 0 else CreditOf(s, cfg, scope, b, now)
  {
    if listed {
      CurrentIsStable(s, p, cfg, b, now);
    } else {
      CurrentReadsOneLine(s, p, cfg, b, now);
    }
  }

  /** A batch can succeed: every listed line in scope accrues, and their interest
      fits in the total. */
  ghost predicate Affordable(s: State, cfg: Config, scope: Scope, bs: seq<Address>, now: u64) {
    && (forall x :: x in bs && InScope(s, scope, x) ==> Current(s, cfg, x, now).Ok?)
    && s.book.totalUtilized + SumOf(Credited(s, cfg, scope, bs, now), s.book.ids) <= I128_MAX
  }

  lemma {:induction false} AffordableSucceeds(s: State, cfg: Config, scope: Scope, bs: seq<Address>, now: u64)
    requires Accounting(s) && Sound(s) && Affordable(s, cfg, scope, bs, now)
    ensures AccrueEach(s, cfg, scope, bs, now).Ok?
  {
    if |bs| > 0 {
      var init, b := bs[..|bs| - 1], bs[|bs| - 1];
      assert bs == init + [b];
      CreditOfOneMore(s, cfg, scope, init, b, now);
      AffordableSucceeds(s, cfg, scope, init, now);
      var p := AccrueEach(s, cfg, scope, init, now).value;
      if InScope(p, scope, b) {
        AccrueEachAt(s, cfg, scope, init, now, b);
        OneMoreAt(s, p, cfg, scope, b in init, b, now);
        BatchTotal(s, cfg, scope, init, now);
        AccrueEachKeeps(s, cfg, scope, init, now);
        AccrueEachSound(s, cfg, scope, init, now);
        CurrentIsCurrent(p, cfg, b, now);
        GrownIsSound(p.book.lines[b], Current(p, cfg, b, now).value);
        MaterializeSucceeds(p, b, Current(p, cfg, b, now).value);
      }
    }
  }

  /** Exactly when a batch succeeds: no conserved-total check inside the loop can
      fail on its own. */
  lemma BatchSucceedsIff(s: State, cfg: Config, scope: Scope, bs: seq<Address>, now: u64)
    requires Accounting(s) && Sound(s)
    ensures AccrueEach(s, cfg, scope, bs, now).Ok? <==> Affordable(s, cfg, scope, bs, now)
  {
    if AccrueEach(s, cfg, scope, bs, now).Ok? {
      BatchTotal(s, cfg, scope, bs, now);
      AccrueEachKeeps(s, cfg, scope, bs, now);
      forall x | x in bs && InScope(s, scope, x)
        ensures Current(s, cfg, x, now).Ok?
      {
        AccrueEachAt(s, cfg, scope, bs, now, x);
      }
    }
    if Affordable(s, cfg, scope, bs, now) {
      AffordableSucceeds(s, cfg, scope, bs, now);
    }
  }

  /** The entrypoint takes at most fifty borrowers, and is otherwise the loop. */
  lemma BatchEntrypoint(s: State, cfg: Config, bs: seq<Address>, now: u64)
    ensures Step(s, Call(AccrueBatch(bs), now, cfg))
         == if |bs| <= 50 then AccrueEach(s, cfg, ActiveOnly, bs, now) else Err(InvalidAmount)
  {
  }

  /** The book after a batch is determined by which borrowers it lists: order and
      repetition change neither whether it succeeds nor any line or aggregate. */
  lemma BatchIsOrderFree(s: State, cfg: Config, scope: Scope, bs: seq<Address>, cs: seq<Address>, now: u64)
    requires Accounting(s) && Sound(s)
    requires forall x :: x in bs <==> x in cs
    ensures AccrueEach(s, cfg, scope, bs, now).Ok? <==> AccrueEach(s, cfg, scope, cs, now).Ok?
    ensures AccrueEach(s, cfg, scope, bs, now).Ok? ==>
      var p, q := AccrueEach(s, cfg, scope, bs, now).value, AccrueEach(s, cfg, scope, cs, now).value;
      p == q.(events := p.events)
  {
    BatchSucceedsIff(s, cfg, scope, bs, now);
    BatchSucceedsIff(s, cfg, scope, cs, now);
    SumOfSame(Credited(s, cfg, scope, bs, now), Credited(s, cfg, scope, cs, now), s.book.ids);
    if AccrueEach(s, cfg, scope, bs, now).Ok? {
      SameListSameBook(s, cfg, scope, bs, cs, now);
    }
  }

  lemma SumOfSame(f: Address -> int, g: Address -> int, s: seq<Address>)
    requires forall x :: f(x) == g(x)
    ensures SumOf(f, s) == SumOf(g, s)
  {
    SumOfMono(f, g, s);
    SumOfMono(g, f, s);
  }

  lemma SameListSameBook(s: State, cfg: Config, scope: Scope, bs: seq<Address>, cs: seq<Address>, now: u64)
    requires Accounting(s) && forall x :: x in bs <==> x in cs
    requires AccrueEach(s, cfg, scope, bs, now).Ok? && AccrueEach(s, cfg, scope, cs, now).Ok?
    ensures var p, q := AccrueEach(s, cfg, scope, bs, now).value, AccrueEach(s, cfg, scope, cs, now).value;
      p == q.(events := p.events)
  {
    var p, q := AccrueEach(s, cfg, scope, bs, now).value, AccrueEach(s, cfg, scope, cs, now).value;
    forall x
      ensures x in p.book.lines <==> x in q.book.lines
      ensures x in p.book.lines ==> p.book.lines[x] == q.book.lines[x]
    {
      AccrueEachAt(s, cfg, scope, bs, now, x);
      AccrueEachAt(s, cfg, scope, cs, now, x);
    }
    assert p.book.lines == q.book.lines;
    AccrueEachFrame(s, cfg, scope, bs, now);
    AccrueEachFrame(s, cfg, scope, cs, now);
    AccrueEachKeeps(s, cfg, scope, bs, now);
    AccrueEachKeeps(s, cfg, scope, cs, now);
  }
}
