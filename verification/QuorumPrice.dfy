/** The quorum-of-K price: `compute_deviation_bps`, the selection sort and the
    sliding window of `resolve_quorum_price`. */
module QuorumPrice {
  import opened Prelude
  import opened Arith
  import opened Sums

  const MAX_ORACLE_FEEDS: int := 20

  /** `|new - last| * 10_000 / last`, `None` when undefined or when the product
      does not fit in `u128`, saturated at `u32::MAX`. */
  function DeviationBps(newPrice: int, lastPrice: int): Option<u32> {
    if lastPrice <= 0 then None
    else
      var diff := if newPrice < lastPrice then lastPrice - newPrice else newPrice - lastPrice;
      if diff * 10_000 > U128_MAX then None
      else
        DivNonNeg(diff * 10_000, lastPrice);
        Some(Min(diff * 10_000 / lastPrice, U32_MAX))
  }

  /** The window test of the scan: `unwrap_or(u32::MAX) <= max_deviation_bps`. */
  predicate Within(hi: int, lo: int, maxDev: u32) {
    var dev := DeviationBps(hi, lo);
    (if dev.Some? then dev.value else U32_MAX) <= maxDev
  }

  /** What the test means: the spread is less than `maxDev + 1` basis points of the
      lower price, or the configured tolerance has no bound at all. */
  predicate Tolerant(hi: int, lo: int, maxDev: u32) {
    maxDev == U32_MAX || ((hi - lo) * 10_000 <= U128_MAX && (hi - lo) * 10_000 < (maxDev + 1) * lo)
  }

  /** Division, overflow and saturation decide exactly this inequality. */
  lemma WithinIffTolerant(hi: int, lo: int, maxDev: u32)
    requires 0 < lo <= hi
    ensures Within(hi, lo, maxDev) <==> Tolerant(hi, lo, maxDev)
  {
    var spread := (hi - lo) * 10_000;
    DivMod(spread, lo);
    if spread / lo <= maxDev {
      MulMono(spread / lo, maxDev, lo);
    } else {
      MulMono(maxDev + 1, spread / lo, lo);
    }
  }

  /** Narrowing a pair keeps it within tolerance, overflow included. */
  lemma TolerantNarrows(hi: int, lo: int, hi': int, lo': int, maxDev: u32)
    requires 0 < lo <= lo' <= hi' <= hi
    requires Tolerant(hi, lo, maxDev)
    ensures Tolerant(hi', lo', maxDev)
  {
    MulMono(lo, lo', maxDev + 1);
  }

  // ---- What a quorum is ---------------------------------------------------

  /** Every two prices of the group are within tolerance of each other. */
  ghost predicate Agree(group: multiset<int>, maxDev: u32) {
    forall a, b :: a in group && b in group && b <= a ==> Tolerant(a, b, maxDev)
  }

  /** Some `k` of the submitted prices agree, wherever they stand in the list. */
  ghost predicate QuorumExists(prices: multiset<int>, k: nat, maxDev: u32) {
    exists group: multiset<int> :: group <= prices && |group| == k && Agree(group, maxDev)
  }

  ghost predicate Sorted(s: seq<int>) {
    forall i, j :: 0 <= i < j < |s| ==> s[i] <= s[j]
  }

  predicate WindowAt(s: seq<int>, k: nat, maxDev: u32, i: nat)
    requires 0 < k && i + k <= |s|
  {
    Tolerant(s[i + k - 1], s[i], maxDev)
  }

  lemma SubmultisetSize(a: multiset<int>, b: multiset<int>)
    requires a <= b
    ensures |a| <= |b|
  {
    assert b == a + (b - a);
  }

  lemma WindowAgrees(s: seq<int>, k: nat, maxDev: u32, i: nat)
    requires Sorted(s) && 0 < k && i + k <= |s| && WindowAt(s, k, maxDev, i)
    requires forall x :: x in s ==> 0 < x
    ensures multiset(s[i..i + k]) <= multiset(s)
    ensures |multiset(s[i..i + k])| == k && Agree(multiset(s[i..i + k]), maxDev)
  {
    var w := s[i..i + k];
    assert s == s[..i] + w + s[i + k..];
    forall a, b | a in multiset(w) && b in multiset(w) && b <= a
      ensures Tolerant(a, b, maxDev)
    {
      var p :| 0 <= p < |w| && w[p] == a;
      var q :| 0 <= q < |w| && w[q] == b;
      assert s[i + p] == a && s[i + q] == b && s[i] in s;
      TolerantNarrows(s[i + k - 1], s[i], a, b, maxDev);
    }
  }

  /** The greatest and the least member of a non-empty group. */
  lemma Extremes(group: multiset<int>) returns (lo: int, hi: int)
    requires |group| > 0
    ensures lo in group && hi in group
    ensures forall x :: x in group ==> lo <= x <= hi
    decreases |group|
  {
    if forall x :: x !in group {
      assert false;
    }
    var x :| x in group;
    var rest := group - multiset{x};
    assert forall y :: y in group ==> y == x || y in rest;
    lo, hi := x, x;
    if |rest| > 0 {
      var l, h := Extremes(rest);
      lo, hi := Min(x, l), Max(x, h);
    }
  }

  /** Boundaries of the block of a sorted list with values in `[lo, hi]`. */
  lemma Block(s: seq<int>, lo: int, hi: int) returns (i: nat, j: nat)
    requires Sorted(s) && lo <= hi
    ensures i <= j <= |s|
    ensures forall p :: 0 <= p < i ==> s[p] < lo
    ensures forall p :: i <= p < j ==> lo <= s[p] <= hi
    ensures forall p :: j <= p < |s| ==> hi < s[p]
  {
    i := 0;
    while i < |s| && s[i] < lo
      invariant i <= |s| && forall p :: 0 <= p < i ==> s[p] < lo
    {
      i := i + 1;
    }
    j := i;
    while j < |s| && s[j] <= hi
      invariant i <= j <= |s| && forall p :: i <= p < j ==> lo <= s[p] <= hi
    {
      j := j + 1;
    }
  }

  lemma GroupInBlock(s: seq<int>, group: multiset<int>, i: nat, j: nat, lo: int, hi: int)
    requires i <= j <= |s| && group <= multiset(s)
    requires forall x :: x in group ==> lo <= x <= hi
    requires forall p :: 0 <= p < i ==> s[p] < lo
    requires forall p :: j <= p < |s| ==> hi < s[p]
    ensures |group| <= j - i
  {
    var left, mid, right := s[..i], s[i..j], s[j..];
    assert s == left + mid + right;
    forall x | x in group
      ensures group[x] <= multiset(mid)[x]
    {
      assert x !in left && x !in right;
      assert multiset(s)[x] == multiset(left)[x] + multiset(mid)[x] + multiset(right)[x];
    }
    SubmultisetSize(group, multiset(mid));
  }

  /** Any agreeing group of `k` prices gives a tolerant window of `k` neighbours. */
  lemma GroupGivesWindow(s: seq<int>, k: nat, maxDev: u32, group: multiset<int>) returns (i: nat)
    requires Sorted(s) && 0 < k && forall x :: x in s ==> 0 < x
    requires group <= multiset(s) && |group| == k && Agree(group, maxDev)
    ensures i + k <= |s| && WindowAt(s, k, maxDev, i)
  {
    var lo, hi := Extremes(group);
    var j;
    i, j := Block(s, lo, hi);
    GroupInBlock(s, group, i, j, lo, hi);
    assert lo in multiset(s);
    assert lo in s;
    TolerantNarrows(hi, lo, s[i + k - 1], s[i], maxDev);
  }

  // ---- The resolved price -------------------------------------------------

  /** `price` is the lower median of the first tolerant window of the prices in
      ascending order. */
  ghost predicate Resolved(prices: multiset<int>, k: nat, maxDev: u32, price: int) {
    exists s: seq<int>, i: nat :: ResolvedAt(prices, k, maxDev, price, s, i)
  }

  ghost predicate ResolvedAt(prices: multiset<int>, k: nat, maxDev: u32, price: int, s: seq<int>, i: nat) {
    && 0 < k && i + k <= |s|
    && multiset(s) == prices && Sorted(s)
    && WindowAt(s, k, maxDev, i)
    && (forall j: nat :: j < i ==> !WindowAt(s, k, maxDev, j))
    && price == s[i + (k - 1) / 2]
  }

  lemma LastIsGreatest(s: seq<int>, t: seq<int>)
    requires Sorted(s) && multiset(s) == multiset(t) && |s| > 0 && |t| > 0
    ensures t[|t| - 1] <= s[|s| - 1]
  {
    assert t[|t| - 1] in multiset(t);
    assert t[|t| - 1] in s;
  }

  lemma DropLast(s: seq<int>)
    requires |s| > 0
    ensures multiset(s[..|s| - 1]) == multiset(s) - multiset{s[|s| - 1]}
  {
    assert s == s[..|s| - 1] + [s[|s| - 1]];
  }

  lemma Rejoin(s: seq<int>, t: seq<int>)
    requires |s| == |t| > 0 && s[..|s| - 1] == t[..|t| - 1] && s[|s| - 1] == t[|t| - 1]
    ensures s == t
  {
    assert s == s[..|s| - 1] + [s[|s| - 1]] && t == t[..|t| - 1] + [t[|t| - 1]];
  }

  lemma SameLast(s: seq<int>, t: seq<int>)
    requires Sorted(s) && Sorted(t) && multiset(s) == multiset(t) && |s| > 0
    ensures |s| == |t| && s[|s| - 1] == t[|t| - 1]
    ensures multiset(s[..|s| - 1]) == multiset(t[..|t| - 1])
  {
    assert |multiset(s)| == |s| && |multiset(t)| == |t|;
    LastIsGreatest(s, t);
    LastIsGreatest(t, s);
    DropLast(s);
    DropLast(t);
  }

  lemma {:induction false} SortedIsUnique(s: seq<int>, t: seq<int>)
    requires Sorted(s) && Sorted(t) && multiset(s) == multiset(t)
    ensures s == t
    decreases |s|
  {
    if |s| > 0 {
      SameLast(s, t);
      SortedIsUnique(s[..|s| - 1], t[..|t| - 1]);
      Rejoin(s, t);
    } else {
      assert |multiset(t)| == |t|;
    }
  }

  /** The canonical price depends on the submitted prices only as a multiset. */
  lemma PriceIsDetermined(prices: multiset<int>, k: nat, maxDev: u32, p: int, q: int)
    requires Resolved(prices, k, maxDev, p) && Resolved(prices, k, maxDev, q)
    ensures p == q
  {
    var s: seq<int>, i: nat :| ResolvedAt(prices, k, maxDev, p, s, i);
    var t: seq<int>, j: nat :| ResolvedAt(prices, k, maxDev, q, t, j);
    SortedIsUnique(s, t);
  }

  /** A price can be resolved exactly when some `k` of the prices agree. */
  lemma ResolvableIffQuorum(prices: multiset<int>, s: seq<int>, k: nat, maxDev: u32)
    requires multiset(s) == prices && Sorted(s) && 0 < k && forall x :: x in s ==> 0 < x
    ensures QuorumExists(prices, k, maxDev) <==> exists i: nat :: i + k <= |s| && WindowAt(s, k, maxDev, i)
  {
    if QuorumExists(prices, k, maxDev) {
      var group: multiset<int> :| group <= prices && |group| == k && Agree(group, maxDev);
      var i := GroupGivesWindow(s, k, maxDev, group);
    }
    if i: nat :| i + k <= |s| && WindowAt(s, k, maxDev, i) {
      WindowAgrees(s, k, maxDev, i);
    }
  }

  /** The price is the lower median of its window, and no tolerant window of the
      sorted prices has a lower one. */
  lemma PriceIsLowestMedian(prices: multiset<int>, k: nat, maxDev: u32, price: int) returns (s: seq<int>, i: nat, m: nat)
    requires Resolved(prices, k, maxDev, price)
    ensures multiset(s) == prices && Sorted(s) && 2 * m < k <= 2 * m + 2 && i + k <= |s| && price == s[i + m]
    ensures Tolerant(s[i + k - 1], s[i], maxDev)
    ensures forall j: nat :: j + k <= |s| && Tolerant(s[j + k - 1], s[j], maxDev) ==> i <= j && price <= s[j + m]
  {
    s, i :| ResolvedAt(prices, k, maxDev, price, s, i);
    m := (k - 1) / 2;
    forall j: nat | j + k <= |s| && Tolerant(s[j + k - 1], s[j], maxDev)
      ensures i <= j && price <= s[j + m]
    {
      assert WindowAt(s, k, maxDev, j);
    }
  }

  // ---- Dishonest feeds ----------------------------------------------------

  lemma WindowOfPrice(prices: multiset<int>, k: nat, maxDev: u32, price: int)
      returns (s: seq<int>, i: nat)
    requires Resolved(prices, k, maxDev, price) && forall x :: x in prices ==> 0 < x
    ensures ResolvedAt(prices, k, maxDev, price, s, i)
    ensures multiset(s[i..i + k]) <= prices && |multiset(s[i..i + k])| == k
    ensures price in multiset(s[i..i + k]) && Agree(multiset(s[i..i + k]), maxDev)
  {
    s, i :| ResolvedAt(prices, k, maxDev, price, s, i);
    forall x | x in s
      ensures 0 < x
    {
      assert x in multiset(s);
    }
    WindowAgrees(s, k, maxDev, i);
    assert s[i..i + k][(k - 1) / 2] == price;
  }

  /** More than `|dishonest|` submitted prices in a part of the window: one is honest. */
  lemma HonestMember(honest: multiset<int>, dishonest: multiset<int>, part: multiset<int>) returns (h: int)
    requires part <= honest + dishonest && |dishonest| < |part|
    ensures h in honest && h in part
  {
    if !(exists x :: x in honest && x in part) {
      forall x | x in part
        ensures part[x] <= dishonest[x]
      {
        assert part[x] <= (honest + dishonest)[x];
      }
      SubmultisetSize(part, dishonest);
    }
    h :| h in honest && h in part;
  }

  /** With fewer than `k` dishonest feeds, the price agrees with an honest one. */
  lemma PriceNearHonest(honest: multiset<int>, dishonest: multiset<int>, k: nat, maxDev: u32, price: int)
    requires Resolved(honest + dishonest, k, maxDev, price) && |dishonest| < k
    requires forall x :: x in honest + dishonest ==> 0 < x
    ensures exists h :: h in honest && Tolerant(Max(h, price), Min(h, price), maxDev)
  {
    var s, i := WindowOfPrice(honest + dishonest, k, maxDev, price);
    var h := HonestMember(honest, dishonest, multiset(s[i..i + k]));
  }

  lemma HonestBelow(honest: multiset<int>, dishonest: multiset<int>, s: seq<int>, m: nat)
    requires multiset(s) == honest + dishonest && |dishonest| <= m < |s|
    ensures exists j :: 0 <= j <= m && s[j] in honest
  {
    var low := s[..m + 1];
    assert s == low + s[m + 1..];
    var l := HonestMember(honest, dishonest, multiset(low));
    assert l in low;
  }

  lemma HonestAbove(honest: multiset<int>, dishonest: multiset<int>, s: seq<int>, m: nat)
    requires multiset(s) == honest + dishonest && m < |s| && |dishonest| < |s| - m
    ensures exists j :: m <= j < |s| && s[j] in honest
  {
    var high := s[m..];
    assert s == s[..m] + high;
    var h := HonestMember(honest, dishonest, multiset(high));
    assert h in high;
    var j :| 0 <= j < |high| && high[j] == h;
    assert s[m + j] == h;
  }

  /** With at most `(k - 1) / 2` dishonest feeds, the price lies between two
      honest ones. */
  lemma PriceBetweenHonest(honest: multiset<int>, dishonest: multiset<int>, k: nat, maxDev: u32, price: int)
    requires Resolved(honest + dishonest, k, maxDev, price) && |dishonest| <= (k - 1) / 2
    ensures exists l, h :: l in honest && h in honest && l <= price <= h
  {
    var s: seq<int>, i: nat :| ResolvedAt(honest + dishonest, k, maxDev, price, s, i);
    var m := i + (k - 1) / 2;
    HonestBelow(honest, dishonest, s, m);
    HonestAbove(honest, dishonest, s, m);
    var j :| 0 <= j <= m && s[j] in honest;
    var j' :| m <= j' < |s| && s[j'] in honest;
    assert s[j] <= price <= s[j'];
  }

  // ---- The algorithm ------------------------------------------------------

  ghost predicate Placed(s: seq<int>, i: int) {
    forall p, q :: 0 <= p < i && p < q < |s| ==> s[p] <= s[q]
  }

  lemma PlaceNext(s: seq<int>, i: nat, m: nat)
    requires i <= m < |s| && Placed(s, i)
    requires forall q :: i <= q < |s| ==> s[m] <= s[q]
    ensures Placed(Swapped(s, i, m), i + 1)
    ensures multiset(Swapped(s, i, m)) == multiset(s)
  {
    SwapIsPermutation(s, i, m);
  }

  method Exchange(a: array<int>, i: nat, j: nat)
    requires i < a.Length && j < a.Length
    modifies a
    ensures a[..] == Swapped(old(a[..]), i, j)
  {
    a[i], a[j] := a[j], a[i];
  }

  method SelectionSort(a: array<int>)
    modifies a
    ensures Sorted(a[..]) && multiset(a[..]) == multiset(old(a[..]))
  {
    for i := 0 to a.Length
      invariant Placed(a[..], i) && multiset(a[..]) == multiset(old(a[..]))
    {
      var m := i;
      for j := i + 1 to a.Length
        invariant i <= m < a.Length
        invariant forall q :: i <= q < j ==> a[m] <= a[q]
      {
        if a[j] < a[m] {
          m := j;
        }
      }
      PlaceNext(a[..], i, m);
      Exchange(a, i, m);
    }
  }

  method DeviationAllowed(hi: int, lo: int, maxDev: u32) returns (ok: bool)
    requires 0 < lo <= hi
    ensures ok == Tolerant(hi, lo, maxDev)
  {
    WithinIffTolerant(hi, lo, maxDev);
    ok := Within(hi, lo, maxDev);
  }

  /** The scan over every `k` neighbours of the sorted prices. */
  method ScanWindows(buf: array<int>, k: u32, maxDev: u32, ghost prices: multiset<int>) returns (r: Result<int>)
    requires Sorted(buf[..]) && multiset(buf[..]) == prices && 0 < k <= buf.Length
    requires forall x :: x in buf[..] ==> 0 < x
    ensures if QuorumExists(prices, k, maxDev) then r.Ok? && Resolved(prices, k, maxDev, r.value)
            else r == Err(OracleQuorumNotMet)
  {
    ghost var s := buf[..];
    ResolvableIffQuorum(prices, s, k, maxDev);
    for i := 0 to buf.Length - k + 1
      invariant forall j: nat :: j < i ==> !WindowAt(s, k, maxDev, j)
    {
      assert s[i] in s && s[i] <= s[i + k - 1];
      var ok := DeviationAllowed(buf[i + k - 1], buf[i], maxDev);
      if ok {
        assert ResolvedAt(prices, k, maxDev, s[i + (k - 1) / 2], s, i);
        return Ok(buf[i + (k - 1) / 2]);
      }
    }
    return Err(OracleQuorumNotMet);
  }

  /** `resolve_quorum_price`: validate, sort in place, return the lower median of
      the first tolerant window. */
  method ResolveQuorumPrice(prices: seq<int>, k: u32, maxDev: u32) returns (r: Result<int>)
    ensures |prices| == 0 || |prices| > MAX_ORACLE_FEEDS ==> r == Err(OraclePriceInvalid)
    ensures 0 < |prices| <= MAX_ORACLE_FEEDS ==>
      if k < 2 || k > |prices| then r == Err(OracleQuorumNotMet)
      else if exists p :: p in prices && p <= 0 then r == Err(OraclePriceInvalid)
      else if QuorumExists(multiset(prices), k, maxDev) then r.Ok? && Resolved(multiset(prices), k, maxDev, r.value)
      else r == Err(OracleQuorumNotMet)
  {
    var n := |prices|;
    if n == 0 || n > MAX_ORACLE_FEEDS {
      return Err(OraclePriceInvalid);
    }
    if k < 2 || k > n {
      return Err(OracleQuorumNotMet);
    }
    var buf := new int[n](_ => 0);
    for i := 0 to n
      invariant forall p :: 0 <= p < i ==> prices[p] > 0 && buf[p] == prices[p]
    {
      if prices[i] <= 0 {
        assert prices[i] in prices;
        return Err(OraclePriceInvalid);
      }
      buf[i] := prices[i];
    }
    assert buf[..] == prices;
    SelectionSort(buf);
    forall x | x in buf[..]
      ensures 0 < x
    {
      assert x in multiset(buf[..]);
      assert x in prices;
    }
    r := ScanWindows(buf, k, maxDev, multiset(prices));
  }
}
