/** Liquidation over whole runs: partial settlements never clear a defaulted line,
    decay its debt no faster than the close factor allows, and settle once each. */
module LedgerSettlement {
  import opened Prelude
  import opened Arith
  import opened Accrual
  import opened Ledger
  import opened LedgerInvariants
  import opened LedgerLoops
  import LedgerSoundness

  // ---- A settlement is accepted once --------------------------------------

  predicate Settles(call: Call, b: Address, id: SettlementId) {
    call.op.SettleLiquidation? && call.op.b == b && call.op.id == id
  }

  lemma DrawKeepsMarkers(s: State, cfg: Config, b: Address, cur: Result<Line>, amount: int, collateral: int, now: u64)
    requires (cur.Ok? ==> b in s.book.lines) && Draw(s, cfg, b, cur, amount, collateral, now).Ok?
    ensures Draw(s, cfg, b, cur, amount, collateral, now).value.settled == s.settled
  {
    DrawShape(s, cfg, b, cur, amount, collateral, now);
    var billed := Billed(s, b, cur.value);
    UnderCapShape(billed, cfg, b, cur.value.utilized - s.book.lines[b].utilized, amount, now);
    if cfg.exposureCap.Some? {
      AccrueEachFrame(billed, cfg, Except(b), s.book.ids, now);
    }
  }

  /** Markers are never removed; a settlement needs its marker absent and leaves
      it behind. */
  lemma StepKeepsMarkers(s: State, call: Call, b: Address, id: SettlementId)
    requires Step(s, call).Ok?
    ensures s.settled <= Step(s, call).value.settled
    ensures Settles(call, b, id) ==> (b, id) !in s.settled && (b, id) in Step(s, call).value.settled
  {
    var Call(op, now, cfg) := call;
    if IsLineOp(op) {
      ReadIsCurrent(s, call);
      LineStepShape(s, call, Read(s, call));
      LineStepMarks(s, call, Read(s, call), b, id);
    } else if IsSideOp(op) {
      assert SideStep(s, call).value.settled == s.settled;
    } else {
      match op
      case OpenLine(b, limit, rate, score) =>
      case DrawCredit(b, amount, collateral) =>
        CurrentIsCurrent(s, cfg, b, now);
        DrawKeepsMarkers(s, cfg, b, Current(s, cfg, b, now), amount, collateral, now);
      case RepayCredit(b, amount) => RepayKeepsMarkers(s, cfg, b, Current(s, cfg, b, now), amount, now);
      case AccrueBatch(bs) => AccrueEachFrame(s, cfg, ActiveOnly, bs, now);
    }
  }

  lemma RepayKeepsMarkers(s: State, cfg: Config, b: Address, cur: Result<Line>, amount: int, now: u64)
    requires (cur.Ok? ==> b in s.book.lines) && Repay(s, cfg, b, cur, amount, now).Ok?
    ensures Repay(s, cfg, b, cur, amount, now).value.settled == s.settled
  {
    var fee, late := RepayShape(s, cfg, b, cur, amount, now);
  }

  lemma LineStepMarks(s: State, call: Call, read: Result<Line>, b: Address, id: SettlementId)
    requires IsLineOp(call.op) && (read.Ok? ==> call.op.b in s.book.lines) && LineStep(s, call, read).Ok?
    ensures Settles(call, b, id) ==> (b, id) !in s.settled && (b, id) in LineStep(s, call, read).value.settled
  {
  }

  lemma ApplyKeepsMarkers(s: State, call: Call)
    ensures s.settled <= Apply(s, call).settled
  {
    if Step(s, call).Ok? {
      StepKeepsMarkers(s, call, 0, 0);
    }
  }

  lemma {:induction false} MarkersStay(s: State, calls: seq<Call>, i: nat, j: nat)
    requires i <= j <= |calls|
    ensures Exec(s, calls[..i]).settled <= Exec(s, calls[..j]).settled
    decreases j
  {
    if i < j {
      MarkersStay(s, calls, i, j - 1);
      assert calls[..j][..j - 1] == calls[..j - 1];
      ApplyKeepsMarkers(Exec(s, calls[..j - 1]), calls[j - 1]);
    }
  }

  /** In any run from any state, a (borrower, settlement id) pair settles at most
      once. */
  lemma SettlesAtMostOnce(s: State, calls: seq<Call>, i: nat, j: nat, b: Address, id: SettlementId)
    requires i < j < |calls| && Settles(calls[i], b, id) && Settles(calls[j], b, id)
    ensures Step(Exec(s, calls[..i]), calls[i]).Err? || Step(Exec(s, calls[..j]), calls[j]).Err?
  {
    var before := Exec(s, calls[..i]);
    if Step(before, calls[i]).Ok? {
      StepKeepsMarkers(before, calls[i], b, id);
      assert calls[..i + 1][..i] == calls[..i];
      assert Exec(s, calls[..i + 1]) == Step(before, calls[i]).value;
      MarkersStay(s, calls, i + 1, j);
      if Step(Exec(s, calls[..j]), calls[j]).Ok? {
        StepKeepsMarkers(Exec(s, calls[..j]), calls[j], b, id);
      }
    }
  }

  // ---- Decay --------------------------------------------------------------

  /** Everything but the ways, other than a settlement at close factor `c` or
      less, to lower the debt of `b` or take it out of default. */
  predicate NoOtherRelief(call: Call, b: Address, c: Bps) {
    match call.op
    case OpenLine(x, _, _, _) => x != b
    case RepayCredit(x, _) => x != b
    case ForgiveDebt(x, _) => x != b
    case ReverseDrawn(x, _, _) => x != b
    case CloseLine(x, _) => x != b
    case ReinstateLine(x, _) => x != b
    case SettleLiquidation(x, _, _, factor) => x == b ==> factor <= c
    case _ => true
  }

  predicate InDefault(s: State, b: Address) {
    b in s.book.lines && s.book.lines[b].status == Defaulted && 0 < s.book.lines[b].utilized
  }

  predicate SettlesLine(call: Call, b: Address) {
    call.op.SettleLiquidation? && call.op.b == b
  }

  /** One step keeps `b` in default; its debt does not fall, or falls by a
      settlement to no less than `1 - c`. */
  predicate Decays(s: State, q: State, call: Call, b: Address, c: Bps)
    requires InDefault(s, b)
  {
    && InDefault(q, b)
    && (if SettlesLine(call, b) then 10_000 * q.book.lines[b].utilized >= (10_000 - c) * s.book.lines[b].utilized
        else q.book.lines[b].utilized >= s.book.lines[b].utilized)
  }

  lemma CloseFactorArithmetic(u: int, cur: int, factor: int, c: int, recovered: int)
    requires 0 < u <= cur && 0 <= factor <= c < 10_000 && recovered <= cur * factor / 10_000
    ensures 10_000 * (cur - recovered) >= (10_000 - c) * u && 0 < cur - recovered
    ensures cur * factor / 10_000 < cur
  {
    DivMod(cur * factor, 10_000);
    MulMono(factor, c, cur);
    MulMono(u, cur, 10_000 - c);
    MulMono(1, u, 10_000 - c);
    assert (10_000 - c) * cur == 10_000 * cur - cur * c;
  }

  lemma LineOpOnDefaulted(s: State, call: Call, read: Result<Line>, b: Address, c: Bps)
    requires IsLineOp(call.op) && IsCurrent(s, call.op.b, read) && LineStep(s, call, read).Ok?
    requires InDefault(s, b) && call.op.b == b && NoOtherRelief(call, b, c) && c < 10_000
    ensures Decays(s, LineStep(s, call, read).value, call, b, c)
  {
    var line := read.value;
    LineStepShape(s, call, read);
    assert line.status == Defaulted && s.book.lines[b].utilized <= line.utilized;
    assert call.op.UpdateRiskParameters? || call.op.SettleLiquidation?;
    if call.op.SettleLiquidation? {
      var factor := call.op.closeFactorBps;
      CloseFactorArithmetic(s.book.lines[b].utilized, line.utilized, factor, c, call.op.recovered);
    }
  }

  lemma CappedOnDefaulted(s: State, cfg: Config, x: Address, line: Line, amount: int, now: u64, b: Address)
    requires InDefault(s, b) && x in s.book.lines && Capped(s, cfg, x, line, amount, now).Ok?
    ensures var q := Capped(s, cfg, x, line, amount, now).value;
      InDefault(q, b) && q.book.lines[b].utilized >= s.book.lines[b].utilized
  {
    var billed := Billed(s, x, line);
    UnderCapShape(billed, cfg, x, line.utilized - s.book.lines[x].utilized, amount, now);
    if cfg.exposureCap.Some? {
      LoopOnDefaulted(billed, cfg, Except(x), s.book.ids, now, b);
    }
  }

  lemma DrawOnDefaulted(s: State, cfg: Config, x: Address, cur: Result<Line>, amount: int, collateral: int, now: u64, b: Address)
    requires InDefault(s, b) && IsCurrent(s, x, cur) && Draw(s, cfg, x, cur, amount, collateral, now).Ok?
    ensures var q := Draw(s, cfg, x, cur, amount, collateral, now).value;
      InDefault(q, b) && q.book.lines[b].utilized >= s.book.lines[b].utilized
  {
    DrawShape(s, cfg, x, cur, amount, collateral, now);
    assert x != b by {
      assert DrawStatus(cur.value.status).Pass?;
    }
    CappedOnDefaulted(s, cfg, x, cur.value, amount, now, b);
    FinishDrawAt(Capped(s, cfg, x, cur.value, amount, now).value, cfg, x, cur.value, s.book.lines[x].utilized, amount, now);
  }

  lemma LoopOnDefaulted(s: State, cfg: Config, scope: Scope, bs: seq<Address>, now: u64, b: Address)
    requires InDefault(s, b) && AccrueEach(s, cfg, scope, bs, now).Ok?
    ensures var q := AccrueEach(s, cfg, scope, bs, now).value;
      InDefault(q, b) && q.book.lines[b].utilized >= s.book.lines[b].utilized
  {
    AccrueEachAt(s, cfg, scope, bs, now, b);
    CurrentIsCurrent(s, cfg, b, now);
  }

  lemma OthersKeepLine(s: State, call: Call, b: Address)
    requires Step(s, call).Ok? && b in s.book.lines
    requires call.op.OpenLine? || call.op.RepayCredit? || IsLineOp(call.op)
    requires call.op.b != b
    ensures b in Step(s, call).value.book.lines && Step(s, call).value.book.lines[b] == s.book.lines[b]
  {
    if IsLineOp(call.op) {
      ReadIsCurrent(s, call);
      LineStepShape(s, call, Read(s, call));
    } else if call.op.RepayCredit? {
      CurrentIsCurrent(s, call.cfg, call.op.b, call.now);
      LedgerSoundness.RepayStores(s, call.cfg, call.op.b, Current(s, call.cfg, call.op.b, call.now), call.op.amount, call.now);
    }
  }

  lemma StepOnDefaulted(s: State, call: Call, b: Address, c: Bps)
    requires InDefault(s, b) && NoOtherRelief(call, b, c) && c < 10_000
    ensures Step(s, call).Ok? ==> Decays(s, Step(s, call).value, call, b, c)
  {
    var Call(op, now, cfg) := call;
    if Step(s, call).Err? {
    } else if IsSideOp(op) {
      assert SideStep(s, call).value.book == s.book;
    } else if op.DrawCredit? {
      CurrentIsCurrent(s, cfg, op.b, now);
      DrawOnDefaulted(s, cfg, op.b, Current(s, cfg, op.b, now), op.amount, op.collateral, now, b);
    } else if op.AccrueBatch? {
      LoopOnDefaulted(s, cfg, ActiveOnly, op.bs, now, b);
    } else if op.b != b {
      OthersKeepLine(s, call, b);
    } else {
      ReadIsCurrent(s, call);
      LineOpOnDefaulted(s, call, Read(s, call), b, c);
    }
  }

  /** `u` is at least `(1 - c)^n` of `u0`. */
  predicate AtLeastShare(u: int, u0: int, n: nat, c: Bps) {
    Pow(10_000, n) * u >= Pow(10_000 - c, n) * u0
  }

  lemma DecayArithmetic(p: int, d: int, u: int, u': int, u0: int, c: int)
    requires 0 <= c < 10_000 && p * u >= d * u0 && 10_000 * u' >= (10_000 - c) * u && 0 < p
    ensures (10_000 * p) * u' >= ((10_000 - c) * d) * u0
  {
    MulMono((10_000 - c) * u, 10_000 * u', p);
    MulMono(d * u0, p * u, 10_000 - c);
    assert 10_000 * u' * p == (10_000 * p) * u' && (10_000 - c) * u * p == p * u * (10_000 - c);
    assert d * u0 * (10_000 - c) == ((10_000 - c) * d) * u0;
  }

  lemma PowIsPositive(n: nat)
    ensures 0 < Pow(10_000, n)
  {
    if n > 0 {
      PowIsPositive(n - 1);
    }
  }

  lemma ShareAfterSettlement(u: int, u': int, u0: int, n: nat, c: Bps)
    requires AtLeastShare(u, u0, n, c) && c < 10_000 && 10_000 * u' >= (10_000 - c) * u
    ensures AtLeastShare(u', u0, n + 1, c)
  {
    PowIsPositive(n);
    DecayArithmetic(Pow(10_000, n), Pow(10_000 - c, n), u, u', u0, c);
  }

  lemma ShareAfterGrowth(u: int, u': int, u0: int, n: nat, c: Bps)
    requires AtLeastShare(u, u0, n, c) && u <= u'
    ensures AtLeastShare(u', u0, n, c)
  {
    PowIsPositive(n);
    MulMono(u, u', Pow(10_000, n));
  }

  lemma NoDecay(u: int, c: Bps)
    ensures AtLeastShare(u, u, 0, c)
  {
  }

  predicate Settled(s: State, call: Call, b: Address) {
    SettlesLine(call, b) && Step(s, call).Ok?
  }

  lemma OneCallOnDefaulted(s: State, call: Call, b: Address, c: Bps, u0: int, n: nat)
    requires InDefault(s, b) && NoOtherRelief(call, b, c) && c < 10_000
    requires AtLeastShare(s.book.lines[b].utilized, u0, n, c)
    ensures InDefault(Apply(s, call), b)
    ensures AtLeastShare(Apply(s, call).book.lines[b].utilized, u0, if Settled(s, call, b) then n + 1 else n, c)
  {
    if Step(s, call).Ok? {
      StepOnDefaulted(s, call, b, c);
      var u, u' := s.book.lines[b].utilized, Step(s, call).value.book.lines[b].utilized;
      if SettlesLine(call, b) {
        ShareAfterSettlement(u, u', u0, n, c);
      } else {
        ShareAfterGrowth(u, u', u0, n, c);
      }
    }
  }

  /** How many settlements of `b` the run made. */
  function Settlements(s: State, calls: seq<Call>, b: Address): nat {
    if |calls| == 0 then 0
    else
      var init, call := calls[..|calls| - 1], calls[|calls| - 1];
      Settlements(s, init, b) + if Settled(Exec(s, init), call, b) then 1 else 0
  }

  /** However many partial settlements a run makes, with close factors of at most
      `c` and no other relief, the line stays in default with a positive debt of
      at least `(1 - c)^n` of what it was. */
  lemma {:induction false} PartialSettlementsNeverClear(s: State, calls: seq<Call>, b: Address, c: Bps)
    requires InDefault(s, b) && c < 10_000
    requires forall i :: 0 <= i < |calls| ==> NoOtherRelief(calls[i], b, c)
    ensures InDefault(Exec(s, calls), b)
    ensures AtLeastShare(Exec(s, calls).book.lines[b].utilized, s.book.lines[b].utilized, Settlements(s, calls, b), c)
  {
    if |calls| > 0 {
      var init, call := calls[..|calls| - 1], calls[|calls| - 1];
      PartialSettlementsNeverClear(s, init, b, c);
      assert NoOtherRelief(call, b, c);
      var before, n := Exec(s, init), Settlements(s, init, b);
      OneCallOnDefaulted(before, call, b, c, s.book.lines[b].utilized, n);
      assert Exec(s, calls) == Apply(before, call);
      assert Settlements(s, calls, b) == if Settled(before, call, b) then n + 1 else n;
    } else {
      NoDecay(s.book.lines[b].utilized, c);
    }
  }
}
