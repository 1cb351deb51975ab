/** Largest-remainder apportionment (`split_conserving`): the allocation rule,
    that it determines the answer, that it is optimal, and the loops that
    compute it. */
module Apportion {
  import opened Arith
  import opened Sums

  /** Floors `total * ws[i] / W` of the exact shares, where `W == Sum(ws)`. */
  function Floors(total: int, ws: seq<int>): (f: seq<int>)
    requires Sum(ws) > 0
    ensures |f| == |ws|
  {
    seq(|ws|, i requires 0 <= i < |ws| => total * ws[i] / Sum(ws))
  }

  /** Fractional claims `total * ws[i] mod W`, in units of `1 / W`. */
  function Claims(total: int, ws: seq<int>): (r: seq<int>)
    requires Sum(ws) > 0
    ensures |r| == |ws|
  {
    seq(|ws|, i requires 0 <= i < |ws| => total * ws[i] % Sum(ws))
  }

  /** Bucket `i` is served a leftover unit before bucket `j`. */
  predicate Beats(r: seq<int>, i: int, j: int)
    requires 0 <= i < |r| && 0 <= j < |r|
  {
    r[i] > r[j] || (r[i] == r[j] && i < j)
  }

  /** Largest-remainder allocation, said without an algorithm: nothing is lost,
      every bucket gets its floor or one more, and a bucket that got the extra
      unit beats every bucket that did not. */
  ghost predicate Allocation(total: int, f: seq<int>, r: seq<int>, parts: seq<int>)
    requires |f| == |r|
  {
    && |parts| == |f|
    && Sum(parts) == total
    && (forall i :: 0 <= i < |f| ==> parts[i] == f[i] || parts[i] == f[i] + 1)
    && (forall i, j :: 0 <= i < |f| && 0 <= j < |f| && parts[i] == f[i] + 1 && parts[j] == f[j]
          ==> Beats(r, i, j))
  }

  /** What `split_conserving` promises, including the degenerate branch in which
      no weight is positive and the first bucket takes everything. */
  ghost predicate Apportioned(total: int, ws: seq<int>, parts: seq<int>) {
    if Sum(ws) > 0 then Allocation(total, Floors(total, ws), Claims(total, ws), parts)
    else |parts| == |ws| > 0 && parts == [total] + seq(|ws| - 1, _ => 0)
  }

  /** Floors and claims are consistent: the claims add up to what flooring lost. */
  ghost predicate Consistent(total: int, W: int, f: seq<int>, r: seq<int>) {
    && W > 0
    && |f| == |r|
    && (forall i :: 0 <= i < |r| ==> 0 <= r[i] < W)
    && Sum(r) == W * (total - Sum(f))
  }

  lemma ShareOf(total: int, ws: seq<int>, i: int)
    requires 0 <= i < |ws| && Sum(ws) > 0
    ensures total * ws[i] == Sum(ws) * Floors(total, ws)[i] + Claims(total, ws)[i]
    ensures 0 <= Claims(total, ws)[i] < Sum(ws)
  {
    DivMod(total * ws[i], Sum(ws));
  }

  lemma ShareGap(total: int, ws: seq<int>, i: int)
    requires 0 <= i < |ws| && Sum(ws) > 0
    ensures Claims(total, ws)[i] == Scale(total, ws)[i] - Scale(Sum(ws), Floors(total, ws))[i]
    ensures 0 <= Claims(total, ws)[i] < Sum(ws)
  {
    ShareOf(total, ws, i);
  }

  lemma SharesAreConsistent(total: int, ws: seq<int>)
    requires Sum(ws) > 0
    ensures Consistent(total, Sum(ws), Floors(total, ws), Claims(total, ws))
  {
    var W, f, r := Sum(ws), Floors(total, ws), Claims(total, ws);
    forall i | 0 <= i < |ws|
      ensures r[i] == Scale(total, ws)[i] - Scale(W, f)[i] && 0 <= r[i] < W
    {
      ShareGap(total, ws, i);
    }
    assert Sum(r) == W * (total - Sum(f)) by {
      SumSub(Scale(total, ws), Scale(W, f), r);
      SumScale(total, ws);
      SumScale(W, f);
      Factor(W, total, Sum(f));
    }
  }

  lemma Factor(w: int, a: int, b: int)
    ensures w * (a - b) == a * w - w * b
  {
  }

  // ---- The rule determines the allocation --------------------------------

  /** The clauses of `Allocation` leave exactly one answer. */
  lemma AllocationIsUnique(total: int, f: seq<int>, r: seq<int>, p: seq<int>, q: seq<int>)
    requires |f| == |r|
    requires Allocation(total, f, r, p) && Allocation(total, f, r, q)
    ensures p == q
  {
    if p != q {
      SumExchange(p, q);
      var i :| 0 <= i < |p| && p[i] < q[i];
      var j :| 0 <= j < |p| && q[j] < p[j];
      assert false;
    }
  }

  /** `W * parts[i]` minus the exact share of bucket `i` times `W`. */
  function Deviation(W: int, f: seq<int>, r: seq<int>, parts: seq<int>): (e: seq<int>)
    requires |parts| == |f| == |r|
    ensures |e| == |f|
    ensures forall i :: 0 <= i < |f| ==> e[i] == Scale(W, Minus(parts, f))[i] - r[i]
  {
    Minus(Scale(W, Minus(parts, f)), r)
  }

  function Minus(x: seq<int>, y: seq<int>): (z: seq<int>)
    requires |x| == |y|
    ensures |z| == |x|
    ensures forall i :: 0 <= i < |x| ==> z[i] == x[i] - y[i]
  {
    seq(|x|, i requires 0 <= i < |x| => x[i] - y[i])
  }

  lemma DeviationsCancel(total: int, W: int, f: seq<int>, r: seq<int>, parts: seq<int>)
    requires Consistent(total, W, f, r) && |parts| == |f| && Sum(parts) == total
    ensures Sum(Deviation(W, f, r, parts)) == 0
  {
    var m := Minus(parts, f);
    SumSub(parts, f, m);
    SumScale(W, m);
    SumSub(Scale(W, m), r, Deviation(W, f, r, parts));
  }

  /** The leftover loop only reaches buckets with a positive fractional claim. */
  lemma ExtraUnitNeedsClaim(total: int, W: int, f: seq<int>, r: seq<int>, parts: seq<int>, k: int)
    requires Consistent(total, W, f, r) && Allocation(total, f, r, parts)
    requires 0 <= k < |f| && parts[k] == f[k] + 1
    ensures r[k] > 0
  {
    if r[k] == 0 {
      var e, m := Deviation(W, f, r, parts), Minus(parts, f);
      forall i | 0 <= i < |f|
        ensures e[i] >= 0 && (i == k ==> e[i] > 0)
      {
        assert m[i] == 0 || m[i] == 1;
        assert Scale(W, m)[i] == W * m[i];
        if parts[i] == f[i] {
          assert Beats(r, k, i);
        }
      }
      DeviationsCancel(total, W, f, r, parts);
      var zero := seq(|e|, _ => 0);
      SumConst(zero, 0);
      SumStrict(zero, e, k);
    }
  }

  /** The quota rule: every part is the floor or the ceiling of its exact share
      `total * ws[i] / W`, an exact share is met exactly, and a zero weight
      receives nothing. */
  lemma QuotaRule(total: int, ws: seq<int>, parts: seq<int>, i: int)
    requires Sum(ws) > 0 && Apportioned(total, ws, parts)
    requires 0 <= i < |ws|
    ensures total * ws[i] - Sum(ws) < Sum(ws) * parts[i] < total * ws[i] + Sum(ws)
    ensures total * ws[i] % Sum(ws) == 0 ==> Sum(ws) * parts[i] == total * ws[i]
    ensures ws[i] == 0 ==> parts[i] == 0
  {
    var W, f, r := Sum(ws), Floors(total, ws), Claims(total, ws);
    SharesAreConsistent(total, ws);
    ShareOf(total, ws, i);
    if parts[i] == f[i] + 1 {
      ExtraUnitNeedsClaim(total, W, f, r, parts, i);
      WithinOne(W, f[i], r[i], parts[i]);
    } else {
      WithinOne(W, f[i], r[i], parts[i]);
    }
    if ws[i] == 0 {
      ZeroShare(total, W);
    }
  }

  lemma WithinOne(W: int, q: int, r: int, p: int)
    requires W > 0 && 0 <= r < W
    requires p == q || (p == q + 1 && r > 0)
    ensures W * q + r - W < W * p < W * q + r + W
    ensures r == 0 ==> W * p == W * q + r
  {
    if p == q + 1 {
      assert W * (q + 1) == W * q + W;
    }
  }

  lemma ZeroShare(total: int, W: int)
    requires W > 0
    ensures total * 0 / W == 0 && total * 0 % W == 0
  {
    DivUnique(0, W, 0);
  }

  /** What flooring leaves over is less than the number of buckets, so the
      leftover loop visits no bucket twice. */
  lemma LeftoverBound(total: int, W: int, f: seq<int>, r: seq<int>)
    requires Consistent(total, W, f, r) && |f| > 0
    ensures 0 <= total - Sum(f) < |f|
  {
    var n, l := |f|, total - Sum(f);
    var top := seq(n, _ => W);
    SumConst(top, W);
    SumStrict(r, top, 0);
    var zero := seq(n, _ => 0);
    SumConst(zero, 0);
    SumMono(zero, r);
    MulOrder(W, l, n);
  }

  lemma MulOrder(W: int, l: int, n: int)
    requires W > 0 && 0 <= W * l < n * W
    ensures 0 <= l < n
  {
    if l < 0 {
      MulMono(l, -1, W);
    } else if l >= n {
      MulMono(n, l, W);
    }
  }

  // ---- Optimality ---------------------------------------------------------

  function Abs(x: int): nat {
    if x < 0 then -x else x
  }

  function Magnitudes(e: seq<int>): (m: seq<int>)
    ensures |m| == |e|
    ensures forall i :: 0 <= i < |e| ==> m[i] == Abs(e[i])
  {
    seq(|e|, i requires 0 <= i < |e| => Abs(e[i]))
  }

  /** Total absolute error `sum |W * parts[i] - total * ws[i]|`. */
  function TotalError(total: int, ws: seq<int>, parts: seq<int>): int
    requires |parts| == |ws|
  {
    Sum(Magnitudes(Minus(Scale(Sum(ws), parts), Scale(total, ws))))
  }

  lemma ErrorAt(total: int, W: int, w: int, part: int, f: int, r: int)
    requires total * w == W * f + r
    ensures W * part - total * w == W * (part - f) - r
  {
  }

  lemma ErrorIsDeviation(total: int, ws: seq<int>, parts: seq<int>)
    requires Sum(ws) > 0 && |parts| == |ws|
    ensures Minus(Scale(Sum(ws), parts), Scale(total, ws))
         == Deviation(Sum(ws), Floors(total, ws), Claims(total, ws), parts)
  {
    var W, f, r := Sum(ws), Floors(total, ws), Claims(total, ws);
    var x, y := Minus(Scale(W, parts), Scale(total, ws)), Deviation(W, f, r, parts);
    forall i | 0 <= i < |ws|
      ensures x[i] == y[i]
    {
      ShareOf(total, ws, i);
      ErrorAt(total, W, ws[i], parts[i], f[i], r[i]);
    }
  }

  /** Some claim separates the buckets that got an extra unit from the others. */
  lemma Threshold(W: int, f: seq<int>, r: seq<int>, parts: seq<int>, n: nat) returns (theta: int)
    requires n <= |f| == |r| == |parts| && W > 0
    requires forall i :: 0 <= i < |r| ==> 0 <= r[i] < W
    ensures 0 <= theta <= W
    ensures theta == W || (exists k :: 0 <= k < n && parts[k] == f[k] + 1 && r[k] == theta)
    ensures forall i :: 0 <= i < n && parts[i] == f[i] + 1 ==> theta <= r[i]
  {
    if n == 0 {
      theta := W;
    } else {
      theta := Threshold(W, f, r, parts, n - 1);
      if parts[n - 1] == f[n - 1] + 1 && r[n - 1] < theta {
        theta := r[n - 1];
      }
    }
  }

  /** With `a = W*d` and `t = theta*d`. */
  lemma LinearChoice(W: int, r: int, theta: int, e: int, a: int, t: int)
    requires 0 <= r < W && 0 <= theta <= W
    requires (e == 1 && theta <= r) || (e == 0 && r <= theta)
    requires (W <= a && theta <= t) || (a <= 0 && a <= t)
    ensures Abs((if e == 1 then W else 0) - r) - (if e == 1 then W - 2 * theta else 0) <= Abs(a - r) - a + 2 * t
  {
  }

  lemma ScaledSteps(W: int, theta: int, d: int)
    requires 0 <= theta <= W
    ensures (W <= W * d && theta <= theta * d) || (W * d <= 0 && W * d <= theta * d)
  {
    if d >= 1 {
      MulMono(1, d, W);
      MulMono(1, d, theta);
    } else {
      MulMono(d, 0, W);
      MulMono(theta, W, -d);
      assert theta * -d == -(theta * d) && W * -d == -(W * d);
    }
  }

  lemma PricePerUnit(W: int, theta: int, d: int)
    ensures (W - 2 * theta) * d == W * d - 2 * (theta * d)
  {
  }

  /** `|W*d - r| - (W - 2*theta)*d` is least at `d = e`, over every integer `d`. */
  lemma UnitChoiceIsBest(W: int, r: int, theta: int, e: int, d: int)
    requires 0 <= r < W && 0 <= theta <= W
    requires (e == 1 && theta <= r) || (e == 0 && r <= theta)
    ensures Abs(W * e - r) - (W - 2 * theta) * e <= Abs(W * d - r) - (W - 2 * theta) * d
  {
    ScaledSteps(W, theta, d);
    PricePerUnit(W, theta, d);
    LinearChoice(W, r, theta, e, W * d, theta * d);
    assert W * e == (if e == 1 then W else 0) && (W - 2 * theta) * e == (if e == 1 then W - 2 * theta else 0);
  }

  /** The bucket-by-bucket form of optimality, at the price `l = W - 2*theta`. */
  lemma BucketChoiceIsBest(W: int, r: int, f: int, theta: int, p: int, x: int)
    requires 0 <= r < W && 0 <= theta <= W
    requires (p == f + 1 && theta <= r) || (p == f && r <= theta)
    ensures Abs(W * (p - f) - r) - (W - 2 * theta) * p <= Abs(W * (x - f) - r) - (W - 2 * theta) * x
  {
    UnitChoiceIsBest(W, r, theta, p - f, x - f);
    var l := W - 2 * theta;
    assert l * p == l * (p - f) + l * f;
    assert l * x == l * (x - f) + l * f;
  }

  lemma BucketIsBest(total: int, W: int, f: seq<int>, r: seq<int>, p: seq<int>, x: seq<int>, theta: int, i: int)
    requires Consistent(total, W, f, r) && Allocation(total, f, r, p) && |x| == |f|
    requires 0 <= i < |f| && 0 <= theta <= W
    requires theta == W || (exists k :: 0 <= k < |f| && p[k] == f[k] + 1 && r[k] == theta)
    requires forall k :: 0 <= k < |f| && p[k] == f[k] + 1 ==> theta <= r[k]
    ensures Magnitudes(Deviation(W, f, r, p))[i] - (W - 2 * theta) * p[i]
         <= Magnitudes(Deviation(W, f, r, x))[i] - (W - 2 * theta) * x[i]
  {
    if p[i] == f[i] && theta < W {
      var k :| 0 <= k < |f| && p[k] == f[k] + 1 && r[k] == theta;
      assert Beats(r, k, i);
    }
    assert (p[i] == f[i] + 1 && theta <= r[i]) || (p[i] == f[i] && r[i] <= theta);
    BucketChoiceIsBest(W, r[i], f[i], theta, p[i], x[i]);
  }

  /** At price `l` per unit, no bucket of `x` is cheaper than that of `p`. */
  ghost predicate CheaperAt(l: int, pe: seq<int>, xe: seq<int>, p: seq<int>, x: seq<int>) {
    && |pe| == |xe| == |p| == |x|
    && forall i :: 0 <= i < |p| ==> pe[i] - l * p[i] <= xe[i] - l * x[i]
  }

  /** Charging both sides the same price per unit does not change who is cheaper. */
  lemma PriceOut(l: int, pe: seq<int>, xe: seq<int>, p: seq<int>, x: seq<int>)
    requires CheaperAt(l, pe, xe, p, x) && Sum(p) == Sum(x)
    ensures Sum(pe) <= Sum(xe)
  {
    var pz, xz := Minus(pe, Scale(l, p)), Minus(xe, Scale(l, x));
    SumMono(pz, xz);
    SumSub(pe, Scale(l, p), pz);
    SumSub(xe, Scale(l, x), xz);
    SumScale(l, p);
    SumScale(l, x);
  }

  lemma BucketsAreBest(total: int, W: int, f: seq<int>, r: seq<int>, p: seq<int>, x: seq<int>) returns (l: int)
    requires Consistent(total, W, f, r) && Allocation(total, f, r, p) && |x| == |f|
    ensures CheaperAt(l, Magnitudes(Deviation(W, f, r, p)), Magnitudes(Deviation(W, f, r, x)), p, x)
  {
    var theta := Threshold(W, f, r, p, |f|);
    l := W - 2 * theta;
    forall i | 0 <= i < |f|
      ensures Magnitudes(Deviation(W, f, r, p))[i] - l * p[i] <= Magnitudes(Deviation(W, f, r, x))[i] - l * x[i]
    {
      BucketIsBest(total, W, f, r, p, x, theta, i);
    }
  }

  lemma DeviationIsOptimal(total: int, W: int, f: seq<int>, r: seq<int>, p: seq<int>, x: seq<int>)
    requires Consistent(total, W, f, r) && Allocation(total, f, r, p)
    requires |x| == |f| && Sum(x) == total
    ensures Sum(Magnitudes(Deviation(W, f, r, p))) <= Sum(Magnitudes(Deviation(W, f, r, x)))
  {
    var l := BucketsAreBest(total, W, f, r, p, x);
    PriceOut(l, Magnitudes(Deviation(W, f, r, p)), Magnitudes(Deviation(W, f, r, x)), p, x);
  }

  /** The largest-remainder split has the least total error of ALL integer
      splits of `total`; in particular no transfer of units improves it. */
  lemma SplitIsOptimal(total: int, ws: seq<int>, parts: seq<int>, other: seq<int>)
    requires Sum(ws) > 0 && Apportioned(total, ws, parts)
    requires |other| == |ws| && Sum(other) == total
    ensures TotalError(total, ws, parts) <= TotalError(total, ws, other)
  {
    SharesAreConsistent(total, ws);
    ErrorIsDeviation(total, ws, parts);
    ErrorIsDeviation(total, ws, other);
    DeviationIsOptimal(total, Sum(ws), Floors(total, ws), Claims(total, ws), parts, other);
  }
}
