/** Sums over sequences. */
module Sums {

  function SumOf<T>(f: T -> int, s: seq<T>): int {
    if |s| == 0 then 0 else SumOf(f, s[..|s| - 1]) + f(s[|s| - 1])
  }

  function Sum(s: seq<int>): int {
    if |s| == 0 then 0 else Sum(s[..|s| - 1]) + s[|s| - 1]
  }

  lemma SumAppend(s: seq<int>, x: int)
    ensures Sum(s + [x]) == Sum(s) + x
  {
    assert (s + [x])[..|s|] == s;
  }

  lemma SumOfAppend<T>(f: T -> int, s: seq<T>, x: T)
    ensures SumOf(f, s + [x]) == SumOf(f, s) + f(x)
  {
    assert (s + [x])[..|s|] == s;
  }

  lemma SumOfConcat<T>(f: T -> int, s: seq<T>, t: seq<T>)
    ensures SumOf(f, s + t) == SumOf(f, s) + SumOf(f, t)
  {
    if |t| == 0 {
      assert s + t == s;
    } else {
      SumOfConcat(f, s, t[..|t| - 1]);
      assert (s + t)[..|s + t| - 1] == s + t[..|t| - 1];
    }
  }

  lemma SumUpdate(s: seq<int>, i: nat, x: int)
    requires i < |s|
    ensures Sum(s[i := x]) == Sum(s) - s[i] + x
  {
    var l := |s| - 1;
    if i == l {
      assert s[i := x][..l] == s[..l];
    } else {
      SumUpdate(s[..l], i, x);
      assert s[i := x][..l] == s[..l][i := x];
    }
  }

  /** A sum does not depend on the order of its terms. */
  lemma SumOfPermutation<T>(f: T -> int, s: seq<T>, t: seq<T>)
    requires multiset(s) == multiset(t)
    ensures SumOf(f, s) == SumOf(f, t)
    decreases |s|
  {
    if |s| == 0 {
      assert |multiset(t)| == 0;
    } else {
      var x := s[|s| - 1];
      var s' := s[..|s| - 1];
      assert s == s' + [x];
      assert x in multiset(t);
      var k :| 0 <= k < |t| && t[k] == x;
      var t' := t[..k] + t[k + 1..];
      assert t == t[..k] + [x] + t[k + 1..];
      assert multiset(s') == multiset(s) - multiset{x};
      assert multiset(t') == multiset(t) - multiset{x};
      SumOfPermutation(f, s', t');
      SumOfConcat(f, t[..k] + [x], t[k + 1..]);
      SumOfAppend(f, t[..k], x);
      SumOfConcat(f, t[..k], t[k + 1..]);
    }
  }

  function Swapped<T>(s: seq<T>, i: nat, j: nat): seq<T>
    requires i < |s| && j < |s|
  {
    s[i := s[j]][j := s[i]]
  }

  lemma SwapIsPermutation<T>(s: seq<T>, i: nat, j: nat)
    requires i < |s| && j < |s|
    ensures multiset(Swapped(s, i, j)) == multiset(s)
  {
  }

  lemma SumOfMono<T>(f: T -> int, g: T -> int, s: seq<T>)
    requires forall x :: x in s ==> f(x) <= g(x)
    ensures SumOf(f, s) <= SumOf(g, s)
  {
    if |s| > 0 {
      SumOfMono(f, g, s[..|s| - 1]);
    }
  }

  lemma SumMono(s: seq<int>, t: seq<int>)
    requires |s| == |t|
    requires forall i :: 0 <= i < |s| ==> s[i] <= t[i]
    ensures Sum(s) <= Sum(t)
  {
    if |s| > 0 {
      SumMono(s[..|s| - 1], t[..|t| - 1]);
    }
  }

  /** Termwise no smaller and somewhere larger: the sum is larger. */
  lemma SumStrict(s: seq<int>, t: seq<int>, k: nat)
    requires |s| == |t| && k < |s| && s[k] < t[k]
    requires forall i :: 0 <= i < |s| ==> s[i] <= t[i]
    ensures Sum(s) < Sum(t)
  {
    var l := |s| - 1;
    if k == l {
      SumMono(s[..l], t[..l]);
    } else {
      SumStrict(s[..l], t[..l], k);
    }
  }

  /** Two different sequences with equal sums: one gains where the other loses. */
  lemma SumExchange(s: seq<int>, t: seq<int>)
    requires |s| == |t| && Sum(s) == Sum(t) && s != t
    ensures exists i :: 0 <= i < |s| && s[i] < t[i]
    ensures exists j :: 0 <= j < |s| && t[j] < s[j]
  {
    var m :| 0 <= m < |s| && s[m] != t[m];
    if forall i :: 0 <= i < |s| ==> s[i] <= t[i] {
      SumStrict(s, t, m);
    }
    if forall i :: 0 <= i < |s| ==> t[i] <= s[i] {
      SumStrict(t, s, m);
    }
  }

  lemma SumConst(s: seq<int>, c: int)
    requires forall i :: 0 <= i < |s| ==> s[i] == c
    ensures Sum(s) == |s| * c
  {
    if |s| > 0 {
      SumConst(s[..|s| - 1], c);
    }
  }

  lemma SumSub(x: seq<int>, y: seq<int>, z: seq<int>)
    requires |x| == |y| == |z|
    requires forall i :: 0 <= i < |x| ==> z[i] == x[i] - y[i]
    ensures Sum(z) == Sum(x) - Sum(y)
  {
    if |x| > 0 {
      SumSub(x[..|x| - 1], y[..|x| - 1], z[..|x| - 1]);
    }
  }

  function Scale(a: int, x: seq<int>): (z: seq<int>)
    ensures |z| == |x|
    ensures forall i :: 0 <= i < |x| ==> z[i] == a * x[i]
  {
    seq(|x|, i requires 0 <= i < |x| => a * x[i])
  }

  lemma SumScale(a: int, x: seq<int>)
    ensures Sum(Scale(a, x)) == a * Sum(x)
  {
    if |x| > 0 {
      var l := |x| - 1;
      SumScale(a, x[..l]);
      assert Scale(a, x)[..l] == Scale(a, x[..l]);
      assert a * Sum(x) == a * Sum(x[..l]) + a * x[l];
    }
  }

  /** No element occurs twice. */
  ghost predicate Distinct<T>(s: seq<T>) {
    |s| == 0 || (Distinct(s[..|s| - 1]) && s[|s| - 1] !in s[..|s| - 1])
  }

  /** Changing one term of a sum over distinct keys. */
  lemma SumOfOneChange<T>(f: T -> int, g: T -> int, s: seq<T>, k: T)
    requires Distinct(s) && forall x :: x in s && x != k ==> f(x) == g(x)
    ensures SumOf(g, s) == SumOf(f, s) + if k in s then g(k) - f(k) else 0
  {
    if |s| > 0 {
      var t := s[..|s| - 1];
      SumOfOneChange(f, g, t, k);
      assert k in s <==> k in t || k == s[|s| - 1];
    }
  }

  /** The sum of the values of a map. */
  ghost function MapSum<K>(m: map<K, int>): int {
    if m.Keys == {} then 0 else var k :| k in m; m[k] + MapSum(m - {k})
  }

  /** Any key may be taken out first. */
  lemma MapSumPick<K>(m: map<K, int>, k: K)
    requires k in m
    ensures MapSum(m) == m[k] + MapSum(m - {k})
  {
    var c :| c in m && MapSum(m) == m[c] + MapSum(m - {c});
    if c != k {
      MapSumPick(m - {c}, k);
      MapSumPick(m - {k}, c);
      assert m - {c} - {k} == m - {k} - {c};
    }
  }

  lemma MapSumUpdate<K>(m: map<K, int>, k: K, v: int)
    ensures MapSum(m[k := v]) == MapSum(m) - (if k in m then m[k] else 0) + v
  {
    MapSumPick(m[k := v], k);
    assert m[k := v] - {k} == m - {k};
    if k in m {
      MapSumPick(m, k);
    } else {
      assert m - {k} == m;
    }
  }

  lemma MapSumNonNeg<K>(m: map<K, int>)
    requires forall k :: k in m ==> 0 <= m[k]
    ensures 0 <= MapSum(m)
    ensures forall k :: k in m ==> m[k] <= MapSum(m)
  {
    if m.Keys != {} {
      forall k | k in m
        ensures 0 <= m[k] <= MapSum(m)
      {
        MapSumPick(m, k);
        MapSumNonNeg(m - {k});
      }
      var k :| k in m;
    }
  }

  /** Non-negative terms: each is at most the sum. */
  lemma TermBelowSum<T>(f: T -> int, s: seq<T>, x: T)
    requires (forall y :: y in s ==> 0 <= f(y)) && x in s
    ensures 0 <= f(x) <= SumOf(f, s)
  {
    var t := s[..|s| - 1];
    if x in t {
      TermBelowSum(f, t, x);
    } else {
      SumOfAtLeastZero(f, t);
    }
  }

  lemma SumOfAtLeastZero<T>(f: T -> int, s: seq<T>)
    requires forall y :: y in s ==> 0 <= f(y)
    ensures 0 <= SumOf(f, s)
  {
    if |s| > 0 {
      SumOfAtLeastZero(f, s[..|s| - 1]);
    }
  }
}
