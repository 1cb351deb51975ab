/** The installment schedule: the closed-form overdue count and the late fees
    charged over a run of repayments. */
module Installments {
  import opened Prelude
  import opened Arith
  import opened Accrual

  /** `overdue_installment_count`, in constant time. */
  function OverdueCount(now: u64, nextDue: u64, period: u64, paid: u64): (n: u64)
    ensures n <= paid
  {
    if paid == 0 || period == 0 || now <= nextDue then 0
    else
      DivNonNeg(now - nextDue - 1, period);
      Min((now - nextDue - 1) / period + 1, paid)
  }

  /** The `period`-spaced due dates from `due` on that lie before `now`. */
  function DueBefore(now: int, due: int, period: int): (n: nat)
    requires 0 < period
  {
    if now <= due then 0
    else
      DivNonNeg(now - due - 1, period);
      (now - due - 1) / period + 1
  }

  lemma DueBeforeMeaning(now: int, due: int, period: int, i: nat)
    requires 0 < period
    ensures i < DueBefore(now, due, period) <==> due + i * period < now
  {
    MulNonNeg(i, period);
    if due < now {
      var q := (now - due - 1) / period;
      DivMod(now - due - 1, period);
      if i <= q {
        MulMono(i, q, period);
      } else {
        MulMono(q + 1, i, period);
      }
    }
  }

  lemma DueBeforeShift(now: int, due: int, period: int, a: nat)
    requires 0 < period
    ensures DueBefore(now, due + a * period, period) == Max(DueBefore(now, due, period) - a, 0)
  {
    var k := DueBefore(now, due, period);
    var k' := DueBefore(now, due + a * period, period);
    ShiftedDate(due, a, k', period);
    DueBeforeMeaning(now, due + a * period, period, k');
    DueBeforeMeaning(now, due, period, a + k');
    if k' > 0 {
      ShiftedDate(due, a, k' - 1, period);
      DueBeforeMeaning(now, due + a * period, period, k' - 1);
      DueBeforeMeaning(now, due, period, a + k' - 1);
    }
  }

  lemma ShiftedDate(due: int, a: int, i: int, period: int)
    ensures due + a * period + i * period == due + (a + i) * period
  {
  }

  /** The integers of `[lo, hi)`. */
  function Interval(lo: int, hi: int): (s: set<int>)
    ensures forall i :: i in s <==> lo <= i < hi
    decreases hi - lo
  {
    if hi <= lo then {} else Interval(lo, hi - 1) + {hi - 1}
  }

  lemma IntervalSize(lo: int, hi: int)
    requires lo <= hi
    ensures |Interval(lo, hi)| == hi - lo
    decreases hi - lo
  {
    if lo < hi {
      IntervalSize(lo, hi - 1);
    }
  }

  /** Installment `i`, due `i` periods after `firstDue`, is overdue at `now`. */
  predicate IsOverdue(firstDue: int, period: int, i: int, now: int) {
    firstDue + i * period < now
  }

  /** The closed form counts exactly the paid installments that are overdue, the
      strict comparison included. */
  lemma OverdueCountIsExact(now: u64, nextDue: u64, period: u64, paid: u64)
    requires 0 < period
    ensures OverdueCount(now, nextDue, period, paid)
         == |set i | 0 <= i < paid && IsOverdue(nextDue, period, i, now)|
  {
    var n := Min(DueBefore(now, nextDue, period), paid);
    forall i | 0 <= i < paid
      ensures i < n <==> IsOverdue(nextDue, period, i, now)
    {
      DueBeforeMeaning(now, nextDue, period, i);
    }
    assert (set i | 0 <= i < paid && IsOverdue(nextDue, period, i, now)) == Interval(0, n);
    IntervalSize(0, n);
  }

  /** `next_due.saturating_add(paid.saturating_mul(period))`. */
  function Advance(nextDue: u64, period: u64, paid: u64): u64 {
    MulNonNeg(paid, period);
    SatAdd64(nextDue, Min(paid * period, U64_MAX))
  }

  lemma DueBeforeAdvances(now: u64, nextDue: u64, period: u64, a: u64, b: u64)
    requires 0 < period
    ensures OverdueCount(now, Advance(nextDue, period, a), period, b) == Min(Max(DueBefore(now, nextDue, period) - a, 0), b)
  {
    MulNonNeg(a, period);
    SaturationIsHarmless(now, nextDue + a * period, period, b);
    DueBeforeShift(now, nextDue, period, a);
  }

  /** Paying in two steps at one moment charges what one payment would. */
  lemma OverdueCountIsAdditive(now: u64, nextDue: u64, period: u64, a: u64, b: u64)
    requires 0 < period && a + b <= U64_MAX
    ensures OverdueCount(now, nextDue, period, a) + OverdueCount(now, Advance(nextDue, period, a), period, b)
         == OverdueCount(now, nextDue, period, a + b)
  {
    DueBeforeAdvances(now, nextDue, period, a, b);
    SaturationIsHarmless(now, nextDue, period, a);
    SaturationIsHarmless(now, nextDue, period, a + b);
  }

  /** A due date beyond the clock's range is as little overdue as the saturated one. */
  lemma SaturationIsHarmless(now: u64, due: int, period: u64, n: u64)
    requires 0 < period && 0 <= due
    ensures OverdueCount(now, Min(due, U64_MAX), period, n) == Min(DueBefore(now, due, period), n)
  {
  }

  // ---- Runs of repayments -------------------------------------------------

  datatype Payment = Payment(now: u64, installments: u64)

  function Settled(ps: seq<Payment>): nat {
    if |ps| == 0 then 0 else Settled(ps[..|ps| - 1]) + ps[|ps| - 1].installments
  }

  /** The stored due date after a run of repayments. */
  function DueAfter(firstDue: u64, period: u64, ps: seq<Payment>): u64 {
    if |ps| == 0 then firstDue
    else Advance(DueAfter(firstDue, period, ps[..|ps| - 1]), period, ps[|ps| - 1].installments)
  }

  /** The late installments the contract charges for over the run. */
  function Charged(firstDue: u64, period: u64, ps: seq<Payment>): nat {
    if |ps| == 0 then 0
    else
      var init, p := ps[..|ps| - 1], ps[|ps| - 1];
      Charged(firstDue, period, init)
      + OverdueCount(p.now, DueAfter(firstDue, period, init), period, p.installments)
  }

  /** The installments, numbered from the first, that were paid after their own
      due date `firstDue + i * period`. */
  function PaidLate(firstDue: u64, period: u64, ps: seq<Payment>): set<int> {
    if |ps| == 0 then {}
    else
      var init, p := ps[..|ps| - 1], ps[|ps| - 1];
      PaidLate(firstDue, period, init)
      + set i | Settled(init) <= i < Settled(ps) && IsOverdue(firstDue, period, i, p.now)
  }

  lemma DueAfterIsExact(firstDue: u64, period: u64, ps: seq<Payment>)
    requires 0 < period
    ensures 0 <= Settled(ps) * period
    ensures DueAfter(firstDue, period, ps) == Min(firstDue + Settled(ps) * period, U64_MAX)
  {
    MulNonNeg(Settled(ps), period);
    if |ps| > 0 {
      DueAfterIsExact(firstDue, period, ps[..|ps| - 1]);
      ShiftedDate(firstDue, Settled(ps[..|ps| - 1]), ps[|ps| - 1].installments, period);
      MulNonNeg(ps[|ps| - 1].installments, period);
    }
  }

  lemma PaidLateRange(firstDue: u64, period: u64, ps: seq<Payment>)
    ensures forall i :: i in PaidLate(firstDue, period, ps) ==> 0 <= i < Settled(ps)
  {
    if |ps| > 0 {
      PaidLateRange(firstDue, period, ps[..|ps| - 1]);
    }
  }

  lemma LateOfOnePayment(now: u64, firstDue: u64, period: u64, done: nat, n: u64)
    requires 0 < period
    ensures |set i | done <= i < done + n && IsOverdue(firstDue, period, i, now)|
         == Min(DueBefore(now, firstDue + done * period, period), n)
  {
    var k := DueBefore(now, firstDue, period);
    var upTo := Max(Min(k, done + n), done);
    forall i | done <= i < done + n
      ensures i < k <==> IsOverdue(firstDue, period, i, now)
    {
      DueBeforeMeaning(now, firstDue, period, i);
    }
    assert (set i | done <= i < done + n && IsOverdue(firstDue, period, i, now)) == Interval(done, upTo);
    IntervalSize(done, upTo);
    DueBeforeShift(now, firstDue, period, done);
  }

  /** Over any run of repayments each installment is charged at most once, and
      exactly when it was paid late, clock saturation included. */
  lemma {:induction false} ChargedIffPaidLate(firstDue: u64, period: u64, ps: seq<Payment>)
    requires 0 < period
    ensures Charged(firstDue, period, ps) == |PaidLate(firstDue, period, ps)|
  {
    if |ps| > 0 {
      var init, p := ps[..|ps| - 1], ps[|ps| - 1];
      ChargedIffPaidLate(firstDue, period, init);
      PaidLateRange(firstDue, period, init);
      var late := set i | Settled(init) <= i < Settled(ps) && IsOverdue(firstDue, period, i, p.now);
      LateOfOnePayment(p.now, firstDue, period, Settled(init), p.installments);
      DueAfterIsExact(firstDue, period, init);
      SaturationIsHarmless(p.now, firstDue + Settled(init) * period, period, p.installments);
      assert PaidLate(firstDue, period, init) !! late;
    }
  }

  // ---- One repayment ------------------------------------------------------

  /** The `as u64` cast of the installment quotient. */
  function InstallmentsPaid(principal: int, amountPerPeriod: int): u64
    requires 0 < principal && 0 < amountPerPeriod
  {
    principal / amountPerPeriod % 0x1_0000_0000_0000_0000
  }

  /** The cast loses nothing if and only if the principal pays for fewer than 2^64
      installments; at 2^64 of them it leaves none at all. */
  lemma CastIsExactIff(principal: int, amountPerPeriod: int)
    requires 0 < principal && 0 < amountPerPeriod
    ensures InstallmentsPaid(principal, amountPerPeriod) == principal / amountPerPeriod
       <==> principal < amountPerPeriod * 0x1_0000_0000_0000_0000
    ensures principal == amountPerPeriod * 0x1_0000_0000_0000_0000 ==> InstallmentsPaid(principal, amountPerPeriod) == 0
  {
    var q := principal / amountPerPeriod;
    DivMod(principal, amountPerPeriod);
    DivNonNeg(principal, amountPerPeriod);
    if q <= U64_MAX {
      MulMono(q + 1, 0x1_0000_0000_0000_0000, amountPerPeriod);
    } else {
      MulMono(0x1_0000_0000_0000_0000, q, amountPerPeriod);
      if principal == amountPerPeriod * 0x1_0000_0000_0000_0000 {
        DivUnique(principal, amountPerPeriod, 0x1_0000_0000_0000_0000);
      }
    }
  }

  /** `advance_repayment_schedule_after_repay`: the new schedule and the late fee. */
  function AdvanceSchedule(s: Option<Schedule>, principal: int, feePerInstallment: int, now: u64)
    : Result<(Option<Schedule>, int)>
  {
    if principal <= 0 || s.None? || s.value.amountPerPeriod <= 0 || s.value.period == 0 then Ok((s, 0))
    else
      var paid := InstallmentsPaid(principal, s.value.amountPerPeriod);
      if paid == 0 then Ok((s, 0))
      else
        var overdue := OverdueCount(now, s.value.nextDue, s.value.period, paid);
        var fee :- if feePerInstallment > 0 then CheckedI128(feePerInstallment * overdue) else Ok(0);
        Ok((Some(s.value.(nextDue := Advance(s.value.nextDue, s.value.period, paid))), fee))
  }

  /** The principal part of one repayment. */
  datatype Receipt = Receipt(now: u64, principal: int)

  /** The installments a receipt pays for; none when only interest was paid. */
  function PaymentOf(amountPerPeriod: int, r: Receipt): Payment
    requires 0 < amountPerPeriod
  {
    Payment(r.now, if r.principal <= 0 then 0 else InstallmentsPaid(r.principal, amountPerPeriod))
  }

  function PaymentsOf(amountPerPeriod: int, rs: seq<Receipt>): (ps: seq<Payment>)
    requires 0 < amountPerPeriod
    ensures |ps| == |rs|
  {
    if |rs| == 0 then [] else PaymentsOf(amountPerPeriod, rs[..|rs| - 1]) + [PaymentOf(amountPerPeriod, rs[|rs| - 1])]
  }

  predicate ValidSchedule(s: Schedule) {
    0 < s.amountPerPeriod && 0 < s.period
  }

  /** One pass through `advance_repayment_schedule_after_repay` counts as one
      payment, whichever of its early returns it takes. */
  lemma AdvanceScheduleStep(s: Schedule, r: Receipt, fee: nat)
    requires ValidSchedule(s) && AdvanceSchedule(Some(s), r.principal, fee, r.now).Ok?
    ensures var n := PaymentOf(s.amountPerPeriod, r).installments;
      AdvanceSchedule(Some(s), r.principal, fee, r.now)
      == Ok((Some(s.(nextDue := Advance(s.nextDue, s.period, n))), fee * OverdueCount(r.now, s.nextDue, s.period, n)))
  {
  }

  lemma AdvanceScheduleFee(s: Option<Schedule>, principal: int, fee: int, now: u64)
    requires AdvanceSchedule(s, principal, fee, now).Ok?
    ensures 0 <= AdvanceSchedule(s, principal, fee, now).value.1
  {
    if 0 < principal && s.Some? && 0 < s.value.amountPerPeriod && 0 < fee {
      var paid := InstallmentsPaid(principal, s.value.amountPerPeriod);
      MulNonNeg(fee, OverdueCount(now, s.value.nextDue, s.value.period, paid));
    }
  }

  /** A schedule and the late fees charged so far, or an overflow. */
  type Progress = Result<(Option<Schedule>, int)>

  type Advancer = (Option<Schedule>, Receipt) -> Progress

  function Fold(step: Advancer, s: Option<Schedule>, rs: seq<Receipt>): Progress {
    if |rs| == 0 then Ok((s, 0))
    else
      var (schedule, fees) :- Fold(step, s, rs[..|rs| - 1]);
      PlusFees(step(schedule, rs[|rs| - 1]), fees)
  }

  function PlusFees(r: Progress, fees: int): Progress {
    if r.Err? then r else Ok((r.value.0, fees + r.value.1))
  }

  lemma {:induction false} FoldMore(step: Advancer, s: Option<Schedule>, rs: seq<Receipt>, more: seq<Receipt>)
    requires Fold(step, s, rs).Ok?
    ensures var (mid, fees) := Fold(step, s, rs).value;
      Fold(step, s, rs + more) == PlusFees(Fold(step, mid, more), fees)
  {
    if |more| == 0 {
      assert rs + more == rs;
    } else {
      FoldMore(step, s, rs, more[..|more| - 1]);
      assert (rs + more)[..|rs + more| - 1] == rs + more[..|more| - 1];
    }
  }

  function Advancing(fee: nat): Advancer {
    (s: Option<Schedule>, r: Receipt) => AdvanceSchedule(s, r.principal, fee, r.now)
  }

  /** The schedule and the late fees after a run of receipts. */
  function AfterReceipts(s: Option<Schedule>, fee: nat, rs: seq<Receipt>): Progress {
    Fold(Advancing(fee), s, rs)
  }

  lemma AfterMoreReceipts(s: Option<Schedule>, fee: nat, rs: seq<Receipt>, more: seq<Receipt>)
    requires AfterReceipts(s, fee, rs).Ok?
    ensures var (mid, fees) := AfterReceipts(s, fee, rs).value;
      AfterReceipts(s, fee, rs + more) == PlusFees(AfterReceipts(mid, fee, more), fees)
  {
    FoldMore(Advancing(fee), s, rs, more);
  }

  lemma OneReceipt(s: Option<Schedule>, fee: nat, r: Receipt)
    ensures AfterReceipts(s, fee, [r]) == AdvanceSchedule(s, r.principal, fee, r.now)
  {
    assert [r][..0] == [];
    assert AfterReceipts(s, fee, []) == Ok((s, 0));
  }

  lemma OneReceiptMore(s: Schedule, fee: nat, rs: seq<Receipt>, r: Receipt, due: u64, fees: int)
    requires ValidSchedule(s) && AfterReceipts(Some(s), fee, rs + [r]).Ok?
    requires AfterReceipts(Some(s), fee, rs) == Ok((Some(s.(nextDue := due)), fees))
    ensures var p := PaymentOf(s.amountPerPeriod, r);
      AfterReceipts(Some(s), fee, rs + [r])
      == Ok((Some(s.(nextDue := Advance(due, s.period, p.installments))),
             fees + fee * OverdueCount(p.now, due, s.period, p.installments)))
  {
    var mid := s.(nextDue := due);
    AfterMoreReceipts(Some(s), fee, rs, [r]);
    OneReceipt(Some(mid), fee, r);
    AdvanceScheduleStep(mid, r, fee);
  }

  lemma {:induction false} FeesMatchCharged(s: Schedule, fee: nat, rs: seq<Receipt>, ps: seq<Payment>)
    requires ValidSchedule(s) && AfterReceipts(Some(s), fee, rs).Ok? && ps == PaymentsOf(s.amountPerPeriod, rs)
    ensures AfterReceipts(Some(s), fee, rs)
         == Ok((Some(s.(nextDue := DueAfter(s.nextDue, s.period, ps))), fee * Charged(s.nextDue, s.period, ps)))
  {
    if |rs| > 0 {
      var p, before, init := ps[|ps| - 1], ps[..|ps| - 1], rs[..|rs| - 1];
      assert rs == init + [rs[|rs| - 1]];
      var due, charged := DueAfter(s.nextDue, s.period, before), Charged(s.nextDue, s.period, before);
      FeesMatchCharged(s, fee, init, before);
      OneReceiptMore(s, fee, init, rs[|rs| - 1], due, fee * charged);
      Distribute(fee, charged, OverdueCount(p.now, due, s.period, p.installments));
    }
  }

  /** Over any run of receipts the late fees are the fee times the number of
      installments paid after their own due date, and the stored due date is the
      first one moved by every installment paid. */
  lemma FeesMatchPaidLate(s: Schedule, fee: nat, rs: seq<Receipt>)
    requires ValidSchedule(s) && AfterReceipts(Some(s), fee, rs).Ok?
    ensures var ps := PaymentsOf(s.amountPerPeriod, rs);
      AfterReceipts(Some(s), fee, rs).value
      == (Some(s.(nextDue := DueAfter(s.nextDue, s.period, ps))), fee * |PaidLate(s.nextDue, s.period, ps)|)
  {
    var ps := PaymentsOf(s.amountPerPeriod, rs);
    FeesMatchCharged(s, fee, rs, ps);
    ChargedIffPaidLate(s.nextDue, s.period, ps);
  }

  lemma Distribute(fee: nat, a: nat, b: nat)
    ensures fee * a + fee * b == fee * (a + b)
  {
  }
}
