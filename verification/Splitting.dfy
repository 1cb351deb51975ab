/** The loops of `split_conserving`, proved to compute the allocation of
    `Apportion` without overflowing `u128`. */
module Splitting {
  import opened Prelude
  import opened Arith
  import opened Sums
  import opened Apportion
  import opened Accrual

  lemma Regroup(total: int, w: int, W: int, q: int, r: int, c: int)
    requires total == W * q + r
    requires W > 0 && W * c <= r * w < W * c + W
    ensures W * (q * w + c) <= total * w < W * (q * w + c) + W
    ensures total * w - W * (q * w + c) == r * w - W * c
  {
    assert total * w == W * (q * w) + r * w;
  }

  /** Splitting the product as `q*w + r*w/W` changes nothing. */
  lemma ShareSplit(total: int, w: int, W: int)
    requires 0 < W
    ensures total / W * w + total % W * w / W == total * w / W
    ensures total % W * w % W == total * w % W
  {
    var q, r := total / W, total % W;
    DivMod(total, W);
    DivMod(r * w, W);
    Regroup(total, w, W, q, r, r * w / W);
    DivUnique(total * w, W, q * w + r * w / W);
  }

  /** Every intermediate is non-negative and at most `total` or `W * w`. */
  lemma ShareFits(total: int, w: int, W: int)
    requires 0 <= total && 0 <= w <= W && 0 < W <= U64_MAX * U32_MAX && w <= U32_MAX
    ensures 0 <= total / W * w <= total
    ensures 0 <= total % W * w <= U128_MAX
    ensures 0 <= total * w / W <= total
    ensures 0 <= total % W * w / W
  {
    var q, r := total / W, total % W;
    DivMod(total, W);
    DivNonNeg(total, W);
    MulNonNeg(r, w);
    MulNonNeg(q, w);
    MulNonNeg(total, w);
    MulMono(w, W, q);
    MulMono(r, U64_MAX * U32_MAX, w);
    MulMono(w, U32_MAX, U64_MAX * U32_MAX);
    MulMono(w, W, total);
    DivBound(total * w, W, total);
    DivNonNeg(total * w, W);
    DivNonNeg(r * w, W);
  }

  /** `order` lists every bucket exactly once, each before the buckets it beats. */
  ghost predicate ServingOrder(r: seq<int>, order: seq<nat>, n: nat) {
    && n <= |r|
    && |order| == n
    && (forall k :: 0 <= k < n ==> order[k] < n)
    && (forall i :: 0 <= i < n ==> i in order)
    && (forall k, l :: 0 <= k < l < n ==> order[k] != order[l] && Beats(r, order[k], order[l]))
  }

  lemma InsertKeepsMembers(was: seq<nat>, i: nat, p: nat, j: nat)
    requires p <= |was| && (j == i || j in was)
    ensures j in was[..p] + [i] + was[p..]
  {
    var order := was[..p] + [i] + was[p..];
    if j == i {
      assert order[p] == i;
    } else {
      var k :| 0 <= k < |was| && was[k] == j;
      assert order[if k < p then k else k + 1] == j;
    }
  }

  lemma InsertKeepsOrder(r: seq<int>, was: seq<nat>, i: nat, p: nat)
    requires ServingOrder(r, was, i) && i < |r| && p <= i
    requires forall k :: 0 <= k < p ==> Beats(r, was[k], i)
    requires forall k :: p <= k < i ==> Beats(r, i, was[k])
    ensures ServingOrder(r, was[..p] + [i] + was[p..], i + 1)
  {
    var order := was[..p] + [i] + was[p..];
    forall j | 0 <= j <= i
      ensures j in order
    {
      InsertKeepsMembers(was, i, p, j);
    }
    forall k, l | 0 <= k < l <= i
      ensures order[k] != order[l] && Beats(r, order[k], order[l])
    {
      var k', l' := if k < p then k else k - 1, if l < p then l else l - 1;
      if k != p && l != p {
        assert order[k] == was[k'] && order[l] == was[l'];
      }
    }
  }

  lemma BeatsIsTransitive(r: seq<int>, was: seq<nat>, i: nat, p: nat)
    requires ServingOrder(r, was, i) && i < |r| && 0 < p <= i && Beats(r, was[p - 1], i)
    ensures forall k :: 0 <= k < p ==> Beats(r, was[k], i)
  {
    assert forall k :: 0 <= k < p - 1 ==> Beats(r, was[k], was[p - 1]);
  }

  /** `order.sort_by(..)`: descending claim, ties by ascending index.  The
      library sort is written here as an insertion sort. */
  method SortOrder(r: seq<int>) returns (order: seq<nat>)
    ensures ServingOrder(r, order, |r|)
  {
    order := [];
    for i := 0 to |r|
      invariant ServingOrder(r, order, i)
    {
      var p := i;
      while p > 0 && !Beats(r, order[p - 1], i)
        invariant 0 <= p <= i
        invariant forall k :: p <= k < i ==> Beats(r, i, order[k])
      {
        p := p - 1;
      }
      if p > 0 {
        BeatsIsTransitive(r, order, i, p);
      }
      InsertKeepsOrder(r, order, i, p);
      order := order[..p] + [i] + order[p..];
    }
  }

  /** The state of the leftover loop after `cursor` passes. */
  ghost predicate Served(f: seq<int>, order: seq<nat>, parts: seq<int>, cursor: int) {
    && |parts| == |f| == |order|
    && 0 <= cursor <= |f|
    && (forall k :: 0 <= k < |order| ==> order[k] < |f|)
    && (forall k :: 0 <= k < cursor ==> parts[order[k]] == f[order[k]] + 1)
    && (forall k :: cursor <= k < |order| ==> parts[order[k]] == f[order[k]])
    && Sum(parts) == Sum(f) + cursor
  }

  lemma ServeOne(r: seq<int>, f: seq<int>, order: seq<nat>, parts: seq<int>, cursor: int)
    requires ServingOrder(r, order, |r|) && |r| == |f|
    requires Served(f, order, parts, cursor) && cursor < |f|
    ensures Served(f, order, parts[order[cursor] := parts[order[cursor]] + 1], cursor + 1)
  {
    SumUpdate(parts, order[cursor], parts[order[cursor]] + 1);
  }

  lemma ServedIsAllocation(total: int, r: seq<int>, f: seq<int>, order: seq<nat>, parts: seq<int>)
    requires |r| == |f| && ServingOrder(r, order, |r|)
    requires Served(f, order, parts, total - Sum(f))
    ensures Allocation(total, f, r, parts)
    ensures forall i :: 0 <= i < |f| ==> f[i] <= parts[i]
  {
    forall i | 0 <= i < |f|
      ensures parts[i] == f[i] || parts[i] == f[i] + 1
    {
      assert i in order;
      var k :| 0 <= k < |order| && order[k] == i;
    }
    forall i, j | 0 <= i < |f| && 0 <= j < |f| && parts[i] == f[i] + 1 && parts[j] == f[j]
      ensures Beats(r, i, j)
    {
      assert i in order;
      var k :| 0 <= k < |order| && order[k] == i;
      assert j in order;
      var l :| 0 <= l < |order| && order[l] == j;
    }
  }

  lemma PrefixWeight(ws: seq<u32>, i: nat)
    requires i <= |ws|
    ensures 0 <= Sum(ws[..i]) <= i * U32_MAX
    ensures forall k :: 0 <= k < i ==> ws[k] <= Sum(ws[..i])
  {
    if i > 0 {
      PrefixWeight(ws, i - 1);
      assert ws[..i] == ws[..i - 1] + [ws[i - 1]];
      SumAppend(ws[..i - 1], ws[i - 1]);
    }
  }

  lemma AllZero(n: nat)
    ensures Sum(seq(n, _ => 0)) == 0
  {
    SumConst(seq(n, _ => 0), 0);
  }

  lemma ZeroTotal(ws: seq<int>)
    requires |ws| > 0
    ensures Apportioned(0, ws, seq(|ws|, _ => 0))
  {
    var z := seq(|ws|, _ => 0);
    if Sum(ws) > 0 {
      AllZero(|ws|);
      forall i | 0 <= i < |ws|
        ensures Floors(0, ws)[i] == 0
      {
        DivUnique(0 * ws[i], Sum(ws), 0);
      }
    } else {
      assert z == [0] + seq(|ws| - 1, _ => 0);
    }
  }

  /** A partial sum of non-negative terms is at most the whole sum. */
  lemma PartialSum(f: seq<int>, i: nat)
    requires i <= |f|
    requires forall k :: 0 <= k < |f| ==> 0 <= f[k]
    ensures 0 <= Sum(f[..i]) <= Sum(f)
  {
    if |f| > 0 {
      var l := |f| - 1;
      if i == |f| {
        PartialSum(f[..l], l);
        assert f[..i] == f && f[..l][..l] == f[..l];
      } else {
        PartialSum(f[..l], i);
        assert f[..l][..i] == f[..i];
      }
    }
  }

  lemma FloorIsNonNeg(total: int, ws: seq<u32>, i: nat)
    requires 0 <= total && i < |ws| && 0 < Sum(ws)
    ensures 0 <= Floors(total, ws)[i]
  {
    MulNonNeg(total, ws[i]);
    DivNonNeg(total * ws[i], Sum(ws));
  }

  /** The arithmetic of one pass of the apportionment loop. */
  lemma PassFits(total: int, ws: seq<u32>, i: nat)
    requires 0 <= total && i < |ws| <= U64_MAX && 0 < Sum(ws)
    ensures 0 <= total / Sum(ws) * ws[i] <= total
    ensures 0 <= total % Sum(ws) * ws[i] <= U128_MAX
    ensures 0 <= total % Sum(ws) * ws[i] / Sum(ws)
    ensures total / Sum(ws) * ws[i] + total % Sum(ws) * ws[i] / Sum(ws) == Floors(total, ws)[i]
    ensures total % Sum(ws) * ws[i] % Sum(ws) == Claims(total, ws)[i]
  {
    PrefixWeight(ws, |ws|);
    assert ws[..|ws|] == ws;
    MulMono(|ws|, U64_MAX, U32_MAX);
    ShareSplit(total, ws[i], Sum(ws));
    ShareFits(total, ws[i], Sum(ws));
  }

  /** The running total of one pass stays at most `total`. */
  lemma PassTotal(total: int, ws: seq<u32>, i: nat)
    requires 0 <= total && i < |ws| && 0 < Sum(ws)
    ensures 0 <= Floors(total, ws)[i]
    ensures 0 <= Sum(Floors(total, ws)[..i]) + Floors(total, ws)[i] <= total
    ensures Sum(Floors(total, ws)[..i]) + Floors(total, ws)[i] == Sum(Floors(total, ws)[..i + 1])
  {
    forall k | 0 <= k < |ws|
      ensures 0 <= Floors(total, ws)[k]
    {
      FloorIsNonNeg(total, ws, k);
    }
    FloorsBelowTotal(total, ws);
    StepOfSum(Floors(total, ws), i);
  }

  lemma StepOfSum(f: seq<int>, i: nat)
    requires i < |f| && forall k :: 0 <= k < |f| ==> 0 <= f[k]
    ensures 0 <= Sum(f[..i]) + f[i] == Sum(f[..i + 1]) <= Sum(f)
  {
    PartialSum(f, i + 1);
    assert f[..i + 1] == f[..i] + [f[i]];
    SumAppend(f[..i], f[i]);
  }

  lemma FloorsBelowTotal(total: int, ws: seq<int>)
    requires 0 < |ws| && 0 < Sum(ws)
    ensures 0 <= total - Sum(Floors(total, ws)) < |ws|
  {
    SharesAreConsistent(total, ws);
    LeftoverBound(total, Sum(ws), Floors(total, ws), Claims(total, ws));
  }

  /** The running sum of the weights fits in `u128`. */
  lemma WeightFits(ws: seq<u32>, i: nat)
    requires i < |ws| <= U64_MAX
    ensures 0 <= Sum(ws[..i]) + ws[i] == Sum(ws[..i + 1]) <= U128_MAX
  {
    PrefixWeight(ws, i + 1);
    assert ws[..i + 1] == ws[..i] + [ws[i]];
    SumAppend(ws[..i], ws[i]);
    MulMono(i + 1, U64_MAX, U32_MAX);
  }

  /** The apportionment loop: floors, claims and the running total. */
  method FloorAll(total: u128, weights: seq<u32>, totalWeight: u128)
    returns (floors: seq<int>, remainders: seq<int>, handedOut: u128)
    requires |weights| <= U64_MAX && 0 < totalWeight == Sum(weights)
    ensures floors == Floors(total, weights) && remainders == Claims(total, weights)
    ensures handedOut == Sum(floors)
  {
    ghost var F, R := Floors(total, weights), Claims(total, weights);
    floors, remainders, handedOut := [], [], 0;
    DivNonNeg(total, totalWeight);
    var q: u128, r := total / totalWeight, total % totalWeight;
    for i := 0 to |weights|
      invariant floors == F[..i] && remainders == R[..i]
      invariant handedOut == Sum(F[..i])
    {
      PassFits(total, weights, i);
      PassTotal(total, weights, i);
      var cross: u128 := r * weights[i];
      var part: u128 := q * weights[i] + cross / totalWeight;
      floors := floors + [part];
      remainders := remainders + [cross % totalWeight];
      handedOut := handedOut + part;
    }
  }

  /** The sum of the weights, which cannot overflow `u128`. */
  method TotalWeight(weights: seq<u32>) returns (totalWeight: u128)
    requires |weights| <= U64_MAX
    ensures totalWeight == Sum(weights)
  {
    totalWeight := 0;
    for i := 0 to |weights|
      invariant totalWeight == Sum(weights[..i])
    {
      WeightFits(weights, i);
      totalWeight := totalWeight + weights[i];
    }
    assert weights[..|weights|] == weights;
  }

  /** `cursor % n`; the bound says the cursor never wraps. */
  function Wrap(cursor: int, n: int): (c: int)
    requires 0 <= cursor < n
    ensures c == cursor
  {
    DivUnique(cursor, n, 0);
    cursor % n
  }

  /** The leftover loop: one unit at a time in serving order.  With fewer units
      than buckets the cursor never wraps. */
  method ServeLeftover(floors: seq<int>, remainders: seq<int>, leftover: int) returns (parts: seq<int>)
    requires |floors| == |remainders| && 0 <= leftover < |floors|
    ensures Allocation(Sum(floors) + leftover, floors, remainders, parts)
  {
    var order := SortOrder(remainders);
    var left, cursor := leftover, 0;
    parts := floors;
    while left > 0
      invariant Served(floors, order, parts, cursor)
      invariant 0 <= left == leftover - cursor
    {
      var bucket := order[Wrap(cursor, |floors|)];
      ServeOne(remainders, floors, order, parts, cursor);
      parts := parts[bucket := parts[bucket] + 1];
      left := left - 1;
      cursor := cursor + 1;
    }
    ServedIsAllocation(Sum(floors) + leftover, remainders, floors, order, parts);
  }

  /** Split `total` over `weights`.  Panics exactly on an empty weight list. */
  method SplitConserving(total: u128, weights: seq<u32>) returns (result: Result<seq<int>>)
    requires |weights| <= U64_MAX  // a slice length is a usize
    ensures result.Err? <==> weights == []
    ensures result.Ok? ==> Apportioned(total, weights, result.value)
  {
    var n := |weights|;
    if n == 0 {
      return Err(Panic);
    }
    if total == 0 {
      ZeroTotal(weights);
      return Ok(seq(n, _ => 0));
    }
    var totalWeight := TotalWeight(weights);
    if totalWeight == 0 {
      return Ok([total] + seq(n - 1, _ => 0));
    }
    var floors, remainders, handedOut := FloorAll(total, weights, totalWeight);
    FloorsBelowTotal(total, weights);
    var parts := ServeLeftover(floors, remainders, total - handedOut);
    return Ok(parts);
  }

  /** `prorate_interest_conserving`: the interest is floored once, and the
      recipients' shares add up to exactly that floor. */
  method ProrateInterestConserving(principal: u128, rate: Bps, secs: u64, weights: seq<u32>) returns (result: Result<seq<int>>)
    requires |weights| <= U64_MAX
    ensures result.Err? <==> weights == [] || Prorate(principal, rate, secs).Err?
    ensures result.Ok? ==>
      var exact := principal * rate * secs;
      && Apportioned(Sum(result.value), weights, result.value)
      && BPS_YEAR * Sum(result.value) <= exact < BPS_YEAR * Sum(result.value) + BPS_YEAR
  {
    var interest := Prorate(principal, rate, secs);
    if interest.Err? {
      return Err(Panic);
    }
    ProrateIsFloor(principal, rate, secs);
    ProrateFits(principal, rate, secs);
    result := SplitConserving(interest.value, weights);
    if result.Ok? {
      SplitAddsUp(interest.value, weights, result.value);
    }
  }

  lemma ProrateFits(principal: u128, rate: Bps, secs: u64)
    requires Prorate(principal, rate, secs).Ok?
    ensures 0 <= Prorate(principal, rate, secs).value <= U128_MAX
  {
    ProrateIsFloor(principal, rate, secs);
  }

  lemma SplitAddsUp(total: int, ws: seq<int>, parts: seq<int>)
    requires Apportioned(total, ws, parts)
    ensures Sum(parts) == total
  {
    if Sum(ws) <= 0 {
      var rest := seq(|ws| - 1, _ => 0);
      SumOfFirst(total, rest);
      AllZero(|ws| - 1);
    }
  }

  lemma SumOfFirst(x: int, rest: seq<int>)
    ensures Sum([x] + rest) == x + Sum(rest)
  {
    if |rest| == 0 {
      assert [x] + rest == [] + [x];
      SumAppend([], x);
    } else {
      SumOfFirst(x, rest[..|rest| - 1]);
      assert ([x] + rest)[..|rest|] == [x] + rest[..|rest| - 1];
    }
  }
}
