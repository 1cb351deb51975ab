/** The weighted median of the oracle registry: what it is, why it is unique,
    optimal and safe under an honest majority. */
module WeightedMedian {
  import opened Prelude
  import opened Arith
  import opened Sums

  /** A fresh report with its oracle's weight. */
  datatype Report = Report(oracle: Address, value: u128, weight: u32)

  function All(): Report -> int {
    (r: Report) => r.weight
  }

  function Below(m: int): Report -> int {
    (r: Report) => if r.value < m then r.weight else 0
  }

  function AtMost(m: int): Report -> int {
    (r: Report) => if r.value <= m then r.weight else 0
  }

  function Of(oracles: set<Address>): Report -> int {
    (r: Report) => if r.oracle in oracles then r.weight else 0
  }

  /** Weighted absolute deviation from `x`, report by report. */
  function Deviation(x: int): Report -> int {
    (r: Report) => r.weight * (if r.value < x then x - r.value else r.value - x)
  }

  /** The lower weighted median: strictly less than half of the weight is below
      it, and at least half is at or below it. */
  ghost predicate IsLowerMedian(rs: seq<Report>, m: int) {
    && (exists r :: r in rs && r.value == m)
    && 2 * SumOf(Below(m), rs) < SumOf(All(), rs) <= 2 * SumOf(AtMost(m), rs)
  }

  lemma MedianIsUnique(rs: seq<Report>, m: int, m': int)
    requires IsLowerMedian(rs, m) && IsLowerMedian(rs, m')
    ensures m == m'
  {
    if m < m' {
      SumOfMono(AtMost(m), Below(m'), rs);
    } else if m' < m {
      SumOfMono(AtMost(m'), Below(m), rs);
    }
  }

  /** The median depends on the reports only as a multiset. */
  lemma MedianIgnoresOrder(rs: seq<Report>, ts: seq<Report>, m: int)
    requires multiset(rs) == multiset(ts)
    requires IsLowerMedian(rs, m)
    ensures IsLowerMedian(ts, m)
  {
    SumOfPermutation(Below(m), rs, ts);
    SumOfPermutation(All(), rs, ts);
    SumOfPermutation(AtMost(m), rs, ts);
    var r :| r in rs && r.value == m;
    assert r in multiset(ts);
  }

  // ---- Optimality ---------------------------------------------------------

  lemma TermRight(w: int, v: int, m: int, x: int, am: int)
    requires 0 <= w && m <= x && am == (if v <= m then w else 0)
    ensures (x - m) * (2 * am - w)
         <= w * (if v < x then x - v else v - x) - w * (if v < m then m - v else v - m)
  {
    if v <= m {
      assert w * (x - v) - w * (m - v) == (x - m) * w;
    } else if v < x {
      MulMono(0, x - v, w);
      assert w * (x - v) - w * (v - m) == 2 * (w * (x - v)) - (x - m) * w;
      assert (x - m) * (2 * am - w) == -((x - m) * w);
    } else {
      assert w * (v - x) - w * (v - m) == (x - m) * (2 * am - w);
    }
  }

  lemma TermLeft(w: int, v: int, m: int, x: int, b: int)
    requires 0 <= w && x <= m && b == (if v < m then w else 0)
    ensures (m - x) * (w - 2 * b)
         <= w * (if v < x then x - v else v - x) - w * (if v < m then m - v else v - m)
  {
    if v >= m {
      assert w * (v - x) - w * (v - m) == (m - x) * w;
    } else if v >= x {
      MulMono(0, v - x, w);
      assert w * (v - x) - w * (m - v) == 2 * (w * (v - x)) - (m - x) * w;
      assert (m - x) * (w - 2 * b) == -((m - x) * w);
    } else {
      assert w * (x - v) - w * (m - v) == (m - x) * (w - 2 * b);
    }
  }

  lemma GapRight(rs: seq<Report>, m: int, x: int)
    requires m <= x
    ensures (x - m) * (2 * SumOf(AtMost(m), rs) - SumOf(All(), rs))
         <= SumOf(Deviation(x), rs) - SumOf(Deviation(m), rs)
  {
    if |rs| > 0 {
      var r, t := rs[|rs| - 1], rs[..|rs| - 1];
      GapRight(t, m, x);
      TermRight(r.weight, r.value, m, x, AtMost(m)(r));
      Split(x - m, 2 * SumOf(AtMost(m), t) - SumOf(All(), t), 2 * AtMost(m)(r) - r.weight);
    }
  }

  lemma GapLeft(rs: seq<Report>, m: int, x: int)
    requires x <= m
    ensures (m - x) * (SumOf(All(), rs) - 2 * SumOf(Below(m), rs))
         <= SumOf(Deviation(x), rs) - SumOf(Deviation(m), rs)
  {
    if |rs| > 0 {
      var r, t := rs[|rs| - 1], rs[..|rs| - 1];
      GapLeft(t, m, x);
      TermLeft(r.weight, r.value, m, x, Below(m)(r));
      Split(m - x, SumOf(All(), t) - 2 * SumOf(Below(m), t), r.weight - 2 * Below(m)(r));
    }
  }

  lemma Split(k: int, a: int, b: int)
    ensures k * (a + b) == k * a + k * b
  {
  }

  /** The reported median is the least minimiser of the weighted absolute
      deviation: no value does better, and every smaller value does worse. */
  lemma MedianIsOptimal(rs: seq<Report>, m: int, x: int)
    requires IsLowerMedian(rs, m)
    ensures SumOf(Deviation(m), rs) <= SumOf(Deviation(x), rs)
    ensures x < m ==> SumOf(Deviation(m), rs) < SumOf(Deviation(x), rs)
  {
    if m <= x {
      GapRight(rs, m, x);
      MulNonNeg(x - m, 2 * SumOf(AtMost(m), rs) - SumOf(All(), rs));
    } else {
      GapLeft(rs, m, x);
      MulMono(1, SumOf(All(), rs) - 2 * SumOf(Below(m), rs), m - x);
    }
  }

  // ---- Honest majority ----------------------------------------------------

  lemma SumOfBelowAndAbove(rs: seq<Report>, m: int, honest: set<Address>, lo: int)
    requires forall r :: r in rs && r.oracle in honest ==> lo <= r.value
    requires m < lo
    ensures SumOf(AtMost(m), rs) + SumOf(Of(honest), rs) <= SumOf(All(), rs)
  {
    if |rs| > 0 {
      SumOfBelowAndAbove(rs[..|rs| - 1], m, honest, lo);
    }
  }

  /** When the honest oracles hold more than half of the fresh weight, the median
      lies between the least and the greatest honest report. */
  lemma HonestMajority(rs: seq<Report>, m: int, honest: set<Address>, lo: int, hi: int)
    requires IsLowerMedian(rs, m)
    requires 2 * SumOf(Of(honest), rs) > SumOf(All(), rs)
    requires forall r :: r in rs && r.oracle in honest ==> lo <= r.value <= hi
    ensures lo <= m <= hi
  {
    if hi < m {
      SumOfMono(Of(honest), Below(m), rs);
    } else if m < lo {
      SumOfBelowAndAbove(rs, m, honest, lo);
    }
  }

  // ---- The sorted scan ----------------------------------------------------

  ghost predicate SortedByValue(rs: seq<Report>) {
    forall i, j :: 0 <= i < j < |rs| ==> rs[i].value <= rs[j].value
  }

  lemma SumOfZero<T>(f: T -> int, s: seq<T>)
    requires forall x :: x in s ==> f(x) == 0
    ensures SumOf(f, s) == 0
  {
    if |s| > 0 {
      SumOfZero(f, s[..|s| - 1]);
    }
  }

  lemma BelowIsBefore(rs: seq<Report>, k: nat)
    requires SortedByValue(rs) && k < |rs|
    ensures SumOf(Below(rs[k].value), rs) <= SumOf(All(), rs[..k])
  {
    var f := Below(rs[k].value);
    assert rs == rs[..k] + rs[k..];
    SumOfConcat(f, rs[..k], rs[k..]);
    SumOfZero(f, rs[k..]);
    SumOfMono(f, All(), rs[..k]);
  }

  lemma BeforeIsAtMost(rs: seq<Report>, k: nat)
    requires SortedByValue(rs) && k < |rs|
    ensures SumOf(All(), rs[..k + 1]) <= SumOf(AtMost(rs[k].value), rs)
  {
    var f := AtMost(rs[k].value);
    assert rs == rs[..k + 1] + rs[k + 1..];
    SumOfConcat(f, rs[..k + 1], rs[k + 1..]);
    SumOfMono(All(), f, rs[..k + 1]);
    SumOfAtLeastZero(f, rs[k + 1..]);
  }

  /** At the first report where the running weight reaches half, the report's
      value is the lower median. */
  lemma CrossingIsMedian(rs: seq<Report>, k: nat)
    requires SortedByValue(rs) && k < |rs|
    requires 2 * SumOf(All(), rs[..k]) < SumOf(All(), rs) <= 2 * SumOf(All(), rs[..k + 1])
    ensures IsLowerMedian(rs, rs[k].value)
  {
    BelowIsBefore(rs, k);
    BeforeIsAtMost(rs, k);
    assert rs[k] in rs;
  }
}
