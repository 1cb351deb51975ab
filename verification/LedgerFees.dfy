/** Which accumulator every fee reached, and what the fees were charged on. */
module LedgerFees {
  import opened Prelude
  import opened Accrual
  import opened Fees
  import opened Ledger
  import opened LedgerInvariants
  import opened LedgerReplay
  import opened LedgerInstallments

  // ---- The two accumulators -----------------------------------------------

  /** What the treasury holds and was paid. */
  function TreasuryGot(s: State): int {
    s.vault.treasury + PaidOut(s.vault.payouts)
  }

  function BountyGot(s: State): int {
    s.vault.bounty + s.vault.bountyPaid
  }

  /** A fee, under the treasury's share at that moment. */
  datatype Fee = Fee(amount: int, share: u32)

  function Collected(fees: seq<Fee>): int {
    if |fees| == 0 then 0 else Collected(fees[..|fees| - 1]) + fees[|fees| - 1].amount
  }

  function TreasuryDue(fees: seq<Fee>): int {
    if |fees| == 0 then 0
    else TreasuryDue(fees[..|fees| - 1]) + TreasuryPart(fees[|fees| - 1].amount, fees[|fees| - 1].share)
  }

  function BountyDue(fees: seq<Fee>): int {
    if |fees| == 0 then 0
    else BountyDue(fees[..|fees| - 1]) + BountyPart(fees[|fees| - 1].amount, fees[|fees| - 1].share)
  }

  lemma DueOneMore(fees: seq<Fee>, f: Fee)
    ensures Collected(fees + [f]) == Collected(fees) + f.amount
    ensures TreasuryDue(fees + [f]) == TreasuryDue(fees) + TreasuryPart(f.amount, f.share)
    ensures BountyDue(fees + [f]) == BountyDue(fees) + BountyPart(f.amount, f.share)
  {
    assert (fees + [f])[..|fees|] == fees;
  }

  /** From `s` to `q` exactly these fees were collected, and each was split. */
  predicate Splits(s: State, q: State, fees: seq<Fee>) {
    && q.vault.collected - s.vault.collected == Collected(fees)
    && TreasuryGot(q) - TreasuryGot(s) == TreasuryDue(fees)
    && BountyGot(q) - BountyGot(s) == BountyDue(fees)
  }

  /** A fee is split between the accumulators, rounded half up, and nothing else in
      the vault moves. */
  lemma FeeIsSplit(v: Vault, fee: nat, share: u32, w: Vault)
    requires AccrueFee(v, fee, share) == Ok(w)
    ensures w == v.(collected := v.collected + fee, treasury := w.treasury, bounty := w.bounty)
    ensures w.treasury == v.treasury + TreasuryPart(fee, share) && w.bounty == v.bounty + BountyPart(fee, share)
  {
  }

  lemma PairDue(f: Fee, g: Fee)
    ensures Collected([f, g]) == f.amount + g.amount
    ensures TreasuryDue([f, g]) == TreasuryPart(f.amount, f.share) + TreasuryPart(g.amount, g.share)
    ensures BountyDue([f, g]) == BountyPart(f.amount, f.share) + BountyPart(g.amount, g.share)
  {
    DueOneMore([], f);
    DueOneMore([f], g);
    assert [f] + [g] == [f, g];
  }

  lemma TwoFeesAreSplit(s: State, q: State, fee: nat, late: nat, share: u32, mid: Vault)
    requires AccrueFee(s.vault, fee, share) == Ok(mid) && AccrueFee(mid, late, share) == Ok(q.vault)
    ensures Splits(s, q, [Fee(fee, share), Fee(late, share)])
  {
    FeeIsSplit(s.vault, fee, share, mid);
    FeeIsSplit(mid, late, share, q.vault);
    PairDue(Fee(fee, share), Fee(late, share));
  }

  lemma RepaySplits(s: State, cfg: Config, b: Address, cur: Result<Line>, amount: int, now: u64, q: State)
    returns (fee: nat, late: nat)
    requires IsCurrent(s, b, cur) && Repay(s, cfg, b, cur, amount, now) == Ok(q)
    ensures cur.Ok? && ProtocolFee(RepaymentOf(cur.value, amount), cfg.protocolFee) == Ok(fee)
    ensures LateFees(q.events, b) == LateFees(s.events, b) + late
    ensures Splits(s, q, [Fee(fee, cfg.feeShare), Fee(late, cfg.feeShare)])
  {
    var a := RepaymentOf(cur.value, amount);
    var f, l := RepayShape(s, cfg, b, cur, amount, now);
    ProtocolFeeRange(a, cfg.protocolFee);
    fee, late := f, l;
    TwoFeesAreSplit(s, q, fee, late, cfg.feeShare, AccrueFee(s.vault, fee, cfg.feeShare).value);
    RepaymentEvents(s.events, b, s.book.lines[b], cur.value, late, a.paid, b);
  }

  /** The vault is touched by repayments and payouts alone. */
  lemma {:induction false} LoopKeepsVault(s: State, cfg: Config, scope: Scope, bs: seq<Address>, now: u64)
    requires AccrueEach(s, cfg, scope, bs, now).Ok?
    ensures AccrueEach(s, cfg, scope, bs, now).value.vault == s.vault
  {
    if |bs| > 0 {
      LoopKeepsVault(s, cfg, scope, bs[..|bs| - 1], now);
    }
  }

  lemma DrawKeepsVault(s: State, cfg: Config, b: Address, cur: Result<Line>, amount: int, collateral: int, now: u64)
    requires IsCurrent(s, b, cur) && Draw(s, cfg, b, cur, amount, collateral, now).Ok?
    ensures Draw(s, cfg, b, cur, amount, collateral, now).value.vault == s.vault
  {
    DrawShape(s, cfg, b, cur, amount, collateral, now);
    var billed, pending := Billed(s, b, cur.value), cur.value.utilized - s.book.lines[b].utilized;
    UnderCapShape(billed, cfg, b, pending, amount, now);
    if cfg.exposureCap.Some? {
      LoopKeepsVault(billed, cfg, Except(b), s.book.ids, now);
    }
    FinishDrawShape(Capped(s, cfg, b, cur.value, amount, now).value, cfg, b, cur.value, s.book.lines[b].utilized, amount, now);
  }

  lemma SideStepSplitsNothing(s: State, call: Call)
    requires IsSideOp(call.op) && SideStep(s, call).Ok?
    ensures Splits(s, SideStep(s, call).value, [])
  {
    if call.op.ExecuteWithdrawal? {
      PaidOutMore(s.vault.payouts, Payout(s.vault.pending.value, call.now));
    }
  }

  /** The fees a call collects on the way from `s` to `q`: of a repayment what its
      late fee event says, and the rest of what the contract took in for itself. */
  function FeesOf(call: Call, s: State, q: State): seq<Fee> {
    if !call.op.RepayCredit? then []
    else
      var late := LateFees(q.events, call.op.b) - LateFees(s.events, call.op.b);
      [Fee(q.vault.collected - s.vault.collected - late, call.cfg.feeShare), Fee(late, call.cfg.feeShare)]
  }

  lemma NothingToSplit(share: u32)
    ensures Collected([Fee(0, share), Fee(0, share)]) == 0
    ensures TreasuryDue([Fee(0, share), Fee(0, share)]) == 0 && BountyDue([Fee(0, share), Fee(0, share)]) == 0
  {
    PairDue(Fee(0, share), Fee(0, share));
  }

  lemma FeesAre(call: Call, s: State, q: State, fee: int, late: int)
    requires call.op.RepayCredit? && LateFees(q.events, call.op.b) == LateFees(s.events, call.op.b) + late
    requires Splits(s, q, [Fee(fee, call.cfg.feeShare), Fee(late, call.cfg.feeShare)])
    ensures FeesOf(call, s, q) == [Fee(fee, call.cfg.feeShare), Fee(late, call.cfg.feeShare)]
    ensures Splits(s, q, FeesOf(call, s, q))
  {
    PairDue(Fee(fee, call.cfg.feeShare), Fee(late, call.cfg.feeShare));
  }

  lemma RepayStep(s: State, call: Call, q: State)
    requires call.op.RepayCredit? && Step(s, call) == Ok(q)
    ensures Repay(s, call.cfg, call.op.b, Current(s, call.cfg, call.op.b, call.now), call.op.amount, call.now) == Ok(q)
    ensures IsCurrent(s, call.op.b, Current(s, call.cfg, call.op.b, call.now))
  {
    CurrentIsCurrent(s, call.cfg, call.op.b, call.now);
  }

  /** A successful repayment collects the protocol fee on the interest part of the
      payment and the late fee. */
  lemma RepayCollects(s: State, call: Call, q: State) returns (fee: nat, late: nat)
    requires call.op.RepayCredit? && Step(s, call) == Ok(q)
    ensures Current(s, call.cfg, call.op.b, call.now).Ok?
    ensures ProtocolFee(RepaymentOf(Current(s, call.cfg, call.op.b, call.now).value, call.op.amount), call.cfg.protocolFee) == Ok(fee)
    ensures FeesOf(call, s, q) == [Fee(fee, call.cfg.feeShare), Fee(late, call.cfg.feeShare)]
    ensures Splits(s, q, FeesOf(call, s, q))
  {
    var Call(op, now, cfg) := call;
    RepayStep(s, call, q);
    fee, late := RepaySplits(s, cfg, op.b, Current(s, cfg, op.b, now), op.amount, now, q);
    FeesAre(call, s, q, fee, late);
  }

  lemma OthersCollectNothing(s: State, call: Call, q: State)
    requires !call.op.RepayCredit? && Step(s, call) == Ok(q)
    ensures Splits(s, q, [])
  {
    var Call(op, now, cfg) := call;
    if IsLineOp(op) {
      ReadIsCurrent(s, call);
      LineStepShape(s, call, Read(s, call));
    } else if IsSideOp(op) {
      SideStepSplitsNothing(s, call);
    } else if op.OpenLine? {
      OpenShape(s, cfg, op.b, op.limit, op.rate, op.score, now);
    } else if op.DrawCredit? {
      CurrentIsCurrent(s, cfg, op.b, now);
      DrawKeepsVault(s, cfg, op.b, Current(s, cfg, op.b, now), op.amount, op.collateral, now);
    } else {
      LoopKeepsVault(s, cfg, ActiveOnly, op.bs, now);
    }
  }

  lemma ApplyCollects(s: State, call: Call, q: State)
    requires q == Apply(s, call)
    ensures Splits(s, q, FeesOf(call, s, q))
  {
    if Step(s, call).Err? {
      NothingToSplit(call.cfg.feeShare);
    } else if call.op.RepayCredit? {
      var fee, late := RepayCollects(s, call, q);
    } else {
      OthersCollectNothing(s, call, q);
    }
  }

  /** The fees of a run, in order. */
  function FeeLog(s: State, calls: seq<Call>): seq<Fee> {
    if |calls| == 0 then []
    else FeeLog(s, calls[..|calls| - 1]) + FeesOf(calls[|calls| - 1], Exec(s, calls[..|calls| - 1]), Exec(s, calls))
  }

  lemma {:induction false} DueAppends(fees: seq<Fee>, more: seq<Fee>)
    ensures Collected(fees + more) == Collected(fees) + Collected(more)
    ensures TreasuryDue(fees + more) == TreasuryDue(fees) + TreasuryDue(more)
    ensures BountyDue(fees + more) == BountyDue(fees) + BountyDue(more)
  {
    if |more| == 0 {
      assert fees + more == fees;
    } else {
      var init, last := more[..|more| - 1], more[|more| - 1];
      DueAppends(fees, init);
      DueOneMore(fees + init, last);
      assert fees + more == fees + init + [last];
    }
  }

  lemma SplitsTwice(s: State, t: State, q: State, fees: seq<Fee>, more: seq<Fee>)
    requires Splits(s, t, fees) && Splits(t, q, more)
    ensures Splits(s, q, fees + more)
  {
    DueAppends(fees, more);
  }

  /** Over any run from any state, what the treasury holds and was paid grows by its
      part of every fee collected, and what the bounty holds and was paid by the
      other part. */
  lemma {:induction false} FeesReachAccumulators(s: State, calls: seq<Call>)
    ensures Splits(s, Exec(s, calls), FeeLog(s, calls))
  {
    if |calls| > 0 {
      var init, call := calls[..|calls| - 1], calls[|calls| - 1];
      var before := Exec(s, init);
      FeesReachAccumulators(s, init);
      ApplyCollects(before, call, Apply(before, call));
      SplitsTwice(s, before, Apply(before, call), FeeLog(s, init), FeesOf(call, before, Apply(before, call)));
    }
  }
}
