/** The state machine of a line, and what a draw must satisfy. */
module LedgerLifecycle {
  import opened Prelude
  import opened Arith
  import opened Accrual
  import opened Ledger
  import opened LedgerInvariants
  import opened LedgerLoops
  import opened LedgerSettlement
  import LedgerSoundness

  /** The edges of the state machine: which call may take line `b` from the
      status of `was` to that of `line`, and under which condition. */
  predicate MayMove(call: Call, b: Address, was: Line, line: Line) {
    var from, to := was.status, line.status;
    match call.op
    case OpenLine(x, _, _, _) => x == b && from != Active && to == Active
    case SuspendLine(x) => x == b && from == Active && to == Suspended
    case SelfSuspendLine(x) => x == b && from == Active && to == SelfSuspended
    case UnsuspendLine(x) => x == b && (from == Suspended || from == SelfSuspended) && to == Active
    case SelfUnsuspendLine(x) => x == b && from == SelfSuspended && to == Active
    case CloseLine(x, closer) =>
      x == b && from != Closed && to == Closed && (closer == Admin || (closer == Borrower && was.utilized == 0))
    case DefaultLine(x) => x == b && from != Closed && from != Defaulted && to == Defaulted
    case ReinstateLine(x, target) => x == b && from == Defaulted && to == target && (to == Active || to == Restricted)
    case UpdateRiskParameters(x, limit, _, _) =>
      && x == b && line.limit == limit
      && ((from == Active && to == Restricted && limit < line.utilized)
          || (from == Restricted && to == Active && line.utilized <= limit))
    case SettleLiquidation(x, _, _, _) => x == b && from == Defaulted && to == Closed && line.utilized == 0
    case _ => false
  }

  predicate Moves(s: State, q: State, call: Call, b: Address)
    requires b in s.book.lines
  {
    && b in q.book.lines
    && (s.book.lines[b].status == q.book.lines[b].status || MayMove(call, b, s.book.lines[b], q.book.lines[b]))
  }

  lemma LoopKeepsStatus(s: State, cfg: Config, scope: Scope, bs: seq<Address>, now: u64, b: Address)
    requires b in s.book.lines && AccrueEach(s, cfg, scope, bs, now).Ok?
    ensures b in AccrueEach(s, cfg, scope, bs, now).value.book.lines
    ensures AccrueEach(s, cfg, scope, bs, now).value.book.lines[b].status == s.book.lines[b].status
  {
    AccrueEachAt(s, cfg, scope, bs, now, b);
    CurrentIsCurrent(s, cfg, b, now);
  }

  lemma CappedKeepsStatus(s: State, cfg: Config, x: Address, line: Line, amount: int, now: u64, b: Address)
    requires b in s.book.lines && x in s.book.lines && Capped(s, cfg, x, line, amount, now).Ok?
    ensures b in Capped(s, cfg, x, line, amount, now).value.book.lines
    ensures Capped(s, cfg, x, line, amount, now).value.book.lines[b].status == s.book.lines[b].status
  {
    var billed := Billed(s, x, line);
    UnderCapShape(billed, cfg, x, line.utilized - s.book.lines[x].utilized, amount, now);
    if cfg.exposureCap.Some? {
      LoopKeepsStatus(billed, cfg, Except(x), s.book.ids, now, b);
    }
  }

  lemma DrawKeepsStatus(s: State, cfg: Config, x: Address, cur: Result<Line>, amount: int, collateral: int, now: u64, b: Address)
    requires b in s.book.lines && IsCurrent(s, x, cur) && Draw(s, cfg, x, cur, amount, collateral, now).Ok?
    ensures b in Draw(s, cfg, x, cur, amount, collateral, now).value.book.lines
    ensures Draw(s, cfg, x, cur, amount, collateral, now).value.book.lines[b].status == s.book.lines[b].status
  {
    DrawShape(s, cfg, x, cur, amount, collateral, now);
    CappedKeepsStatus(s, cfg, x, cur.value, amount, now, b);
    FinishDrawAt(Capped(s, cfg, x, cur.value, amount, now).value, cfg, x, cur.value, s.book.lines[x].utilized, amount, now);
  }

  lemma LineOpMoves(s: State, call: Call, read: Result<Line>)
    requires IsLineOp(call.op) && IsCurrent(s, call.op.b, read) && LineStep(s, call, read).Ok?
    requires call.op.CloseLine? && read.Ok? ==> read.value == s.book.lines[call.op.b]
    ensures Moves(s, LineStep(s, call, read).value, call, call.op.b)
  {
    LineStepShape(s, call, read);
  }

  /** No call moves a line except along these edges: a closed line only comes back
      by being opened, default is entered by one call and left by four, the
      borrower cannot lift an admin's suspension, and no repayment, draw or accrual
      ever changes a status. */
  lemma StatusFollowsMachine(s: State, call: Call, b: Address)
    requires b in s.book.lines
    ensures Step(s, call).Ok? ==> Moves(s, Step(s, call).value, call, b)
  {
    var Call(op, now, cfg) := call;
    if Step(s, call).Err? {
    } else if IsSideOp(op) {
      assert SideStep(s, call).value.book == s.book;
    } else if op.DrawCredit? {
      CurrentIsCurrent(s, cfg, op.b, now);
      DrawKeepsStatus(s, cfg, op.b, Current(s, cfg, op.b, now), op.amount, op.collateral, now, b);
    } else if op.AccrueBatch? {
      LoopKeepsStatus(s, cfg, ActiveOnly, op.bs, now, b);
    } else if op.b != b {
      OthersKeepLine(s, call, b);
    } else if op.RepayCredit? {
      CurrentIsCurrent(s, cfg, b, now);
      LedgerSoundness.RepayStores(s, cfg, b, Current(s, cfg, b, now), op.amount, now);
    } else if IsLineOp(op) {
      ReadIsCurrent(s, call);
      LineOpMoves(s, call, Read(s, call));
    } else {
      OpenMoves(s, cfg, b, op.limit, op.rate, op.score, now);
    }
  }

  lemma OpenMoves(s: State, cfg: Config, b: Address, limit: int, rate: u32, score: u32, now: u64)
    requires b in s.book.lines && Open(s, cfg, b, limit, rate, score, now).Ok?
    ensures Moves(s, Open(s, cfg, b, limit, rate, score, now).value, Call(OpenLine(b, limit, rate, score), now, cfg), b)
  {
  }

  /** Re-opening a line clears its debt if and only if there was none or the line
      was closed; otherwise debt and checkpoint carry over. */
  lemma ReopeningClearsIff(s: State, cfg: Config, b: Address, limit: int, rate: u32, score: u32, now: u64)
    requires b in s.book.lines
    ensures Open(s, cfg, b, limit, rate, score, now).Ok? ==>
      var was, line := s.book.lines[b], Open(s, cfg, b, limit, rate, score, now).value.book.lines[b];
      && (line.utilized == 0 <==> was.status == Closed || was.utilized == 0)
      && (was.status != Closed ==>
            line.utilized == was.utilized && line.accrued == was.accrued && line.lastAccrual == was.lastAccrual)
  {
    if Open(s, cfg, b, limit, rate, score, now).Ok? {
      assert Open(s, cfg, b, limit, rate, score, now).value.book.lines[b] == Reopened(s.book.lines[b], limit, rate, score, now);
    }
  }

  // ---- What a draw satisfies ----------------------------------------------

  lemma CeilingIsExact(utilized: int, ratio: u32, collateral: int)
    requires 0 <= utilized && RequiredCollateral(utilized, ratio).Ok?
    ensures RequiredCollateral(utilized, ratio).value <= collateral <==> utilized * ratio <= 10_000 * collateral
  {
    MulNonNeg(utilized, ratio);
    DivMod(utilized * ratio, 10_000);
  }

  /** A draw passes its checks if and only if the line is active or restricted, the
      new debt is within its limit and backed by collateral at the required ratio,
      and both it and its product with the ratio are representable. */
  lemma DrawIsWithinLimits(cfg: Config, line: Line, amount: int, collateral: int)
    requires 0 <= line.utilized && 0 < amount
    ensures var debt := line.utilized + amount;
      AdmitDraw(cfg, line, amount, collateral).Ok? <==>
        && (line.status == Active || line.status == Restricted)
        && debt <= line.limit
        && debt * cfg.minRatioBps <= 10_000 * collateral
        && InI128(debt) && InI128(debt * cfg.minRatioBps)
  {
    if RequiredCollateral(line.utilized + amount, cfg.minRatioBps).Ok? {
      CeilingIsExact(line.utilized + amount, cfg.minRatioBps, collateral);
    }
  }

  // ---- What reaches the debt and the treasury -----------------------------

  /** A recovery or a forgiveness takes exactly the amount, clamped to the debt,
      and touches the principal only once no interest is left. */
  lemma RecoveryIsInterestFirst(line: Line, amount: int)
    requires 0 <= line.accrued <= line.utilized && 0 < amount
    ensures var after := Recover(line, amount);
      && 0 <= after.accrued <= after.utilized
      && line.utilized - after.utilized == Min(amount, line.utilized)
      && (after.utilized - after.accrued < line.utilized - line.accrued ==> after.accrued == 0)
      && (after.utilized == 0 <==> line.utilized <= amount)
      && after == line.(utilized := after.utilized, accrued := after.accrued)
  {
  }

  /** The protocol fee is the floor of its share of the interest, and since a rate
      is at most 100 %, never more than the interest, so the clamp never binds. */
  lemma ProtocolFeeIsFloor(totalDebt: int, accrued: int, amount: int, bps: Bps)
    requires 0 <= accrued <= totalDebt && 0 < amount
    ensures var a := AllocateRepayment(totalDebt, accrued, amount);
      ProtocolFee(a, bps).Ok? ==>
        var fee := ProtocolFee(a, bps).value;
        && 10_000 * fee <= a.interest * bps < 10_000 * fee + 10_000
        && 0 <= fee <= a.interest
  {
    var a := AllocateRepayment(totalDebt, accrued, amount);
    MulNonNeg(a.interest, bps);
    MulMono(bps, 10_000, a.interest);
    DivMod(a.interest * bps, 10_000);
    DivNonNeg(a.interest * bps, 10_000);
  }
}
