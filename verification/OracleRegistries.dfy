/** The oracle registry as stored by the contract, and `get_median_value`. */
module OracleRegistries {
  import opened Prelude
  import opened Sums
  import opened WeightedMedian

  const MAX_ORACLE_FEEDS: int := 20

  datatype OracleReport = OracleReport(value: u128, timestamp: u64)

  /** `now.saturating_sub(timestamp) <= window`. */
  predicate IsFresh(report: OracleReport, window: u64, now: u64) {
    Max(now - report.timestamp, 0) <= window
  }

  /** The reports the median is taken over, in registry order. */
  function FreshReports(oracles: seq<Address>, weights: map<Address, u32>,
                        reports: map<Address, OracleReport>, window: u64, now: u64): seq<Report>
  {
    if |oracles| == 0 then []
    else
      var o := oracles[|oracles| - 1];
      var rest := FreshReports(oracles[..|oracles| - 1], weights, reports, window, now);
      if o in reports && IsFresh(reports[o], window, now) && o in weights && weights[o] > 0
      then rest + [Report(o, reports[o].value, weights[o])]
      else rest
  }

  /** The report counts at `now`: its oracle is listed with this positive weight, it
      is the value on record, and it is at most `window` old. */
  predicate Counts(r: Report, oracles: seq<Address>, weights: map<Address, u32>,
                   reports: map<Address, OracleReport>, window: u64, now: u64)
  {
    && r.oracle in oracles && r.oracle in weights && weights[r.oracle] == r.weight && 0 < r.weight
    && r.oracle in reports && reports[r.oracle].value == r.value
    && now <= reports[r.oracle].timestamp + window
  }

  /** Exactly the reports that count are fresh, each once. */
  lemma FreshExactly(oracles: seq<Address>, weights: map<Address, u32>,
                     reports: map<Address, OracleReport>, window: u64, now: u64)
    requires Distinct(oracles)
    ensures var rs := FreshReports(oracles, weights, reports, window, now);
      && (forall r :: r in rs <==> Counts(r, oracles, weights, reports, window, now))
      && (forall i, j :: 0 <= i < j < |rs| ==> rs[i].oracle != rs[j].oracle)
  {
    if |oracles| > 0 {
      var init, o := oracles[..|oracles| - 1], oracles[|oracles| - 1];
      FreshExactly(init, weights, reports, window, now);
      forall r
        ensures Counts(r, oracles, weights, reports, window, now)
           <==> Counts(r, init, weights, reports, window, now) || (r.oracle == o && Counts(r, [o], weights, reports, window, now))
      {
        assert r.oracle in oracles <==> r.oracle in init || r.oracle == o;
      }
      var rest := FreshReports(init, weights, reports, window, now);
      forall k | 0 <= k < |rest|
        ensures rest[k].oracle != o
      {
        assert rest[k] in rest;
      }
    }
  }

  /** Registries that differ only in reports that are too old have the same fresh
      reports, in the same order: a stale report moves neither median nor quorum. */
  lemma StaleReportsDoNotCount(oracles: seq<Address>, weights: map<Address, u32>, reports: map<Address, OracleReport>,
                               others: map<Address, OracleReport>, window: u64, now: u64)
    requires forall o :: o in reports && now <= reports[o].timestamp + window ==> o in others && others[o] == reports[o]
    requires forall o :: o in others && now <= others[o].timestamp + window ==> o in reports && reports[o] == others[o]
    ensures FreshReports(oracles, weights, reports, window, now) == FreshReports(oracles, weights, others, window, now)
  {
    if |oracles| > 0 {
      StaleReportsDoNotCount(oracles[..|oracles| - 1], weights, reports, others, window, now);
    }
  }

  lemma AllStale(oracles: seq<Address>, weights: map<Address, u32>,
                 reports: map<Address, OracleReport>, window: u64, now: u64)
    ensures (forall o :: o in reports ==> reports[o].timestamp + window < now)
      ==> FreshReports(oracles, weights, reports, window, now) == []
  {
    if |oracles| > 0 {
      AllStale(oracles[..|oracles| - 1], weights, reports, window, now);
    }
  }

  /** The first `i` reports are in their final place. */
  ghost predicate Placed(rs: seq<Report>, i: int) {
    forall p, q :: 0 <= p < i && p < q < |rs| ==> rs[p].value <= rs[q].value
  }

  /** No report strictly between `i` and `j` is below report `i`. */
  ghost predicate LeastSoFar(rs: seq<Report>, i: nat, j: int) {
    i < |rs| && forall q :: i < q < j && q < |rs| ==> rs[i].value <= rs[q].value
  }

  lemma ExchangeStep(rs: seq<Report>, i: nat, j: nat)
    requires i < j < |rs| && Placed(rs, i) && LeastSoFar(rs, i, j)
    requires rs[i].value > rs[j].value
    ensures Placed(Swapped(rs, i, j), i) && LeastSoFar(Swapped(rs, i, j), i, j + 1)
    ensures multiset(Swapped(rs, i, j)) == multiset(rs)
  {
    SwapIsPermutation(rs, i, j);
  }

  method Exchange(a: array<Report>, i: nat, j: nat)
    requires i < a.Length && j < a.Length
    modifies a
    ensures a[..] == Swapped(old(a[..]), i, j)
  {
    a[i], a[j] := a[j], a[i];
  }

  /** The exchange sort of `get_median_value`. */
  method SortReports(a: array<Report>)
    modifies a
    ensures SortedByValue(a[..])
    ensures multiset(a[..]) == multiset(old(a[..]))
  {
    for i := 0 to a.Length
      invariant Placed(a[..], i)
      invariant multiset(a[..]) == multiset(old(a[..]))
    {
      for j := i + 1 to a.Length
        invariant Placed(a[..], i) && LeastSoFar(a[..], i, j)
        invariant multiset(a[..]) == multiset(old(a[..]))
      {
        if a[i].value > a[j].value {
          ExchangeStep(a[..], i, j);
          Exchange(a, i, j);
        }
      }
    }
  }

  /** The cumulative-weight scan over the sorted reports. */
  method ScanMedian(a: array<Report>, totalWeight: u32) returns (median: u128)
    requires SortedByValue(a[..]) && 0 < totalWeight == SumOf(All(), a[..])
    ensures IsLowerMedian(a[..], median)
  {
    ghost var rs := a[..];
    var target := (totalWeight + 1) / 2;
    var cumulative: int := 0;
    median := 0;
    assert rs[0..] == rs;
    for i := 0 to a.Length
      invariant cumulative == SumOf(All(), rs[..i]) < target
      invariant SumOf(All(), rs[..i]) + SumOf(All(), rs[i..]) == totalWeight
    {
      assert rs[..i + 1] == rs[..i] + [rs[i]] && rs[i..] == [rs[i]] + rs[i + 1..];
      SumOfAppend(All(), rs[..i], rs[i]);
      SumOfConcat(All(), [rs[i]], rs[i + 1..]);
      SumOfAppend(All(), [], rs[i]);
      cumulative := cumulative + a[i].weight;
      if cumulative >= target {
        CrossingIsMedian(rs, i);
        return a[i].value;
      }
    }
    assert false;
  }

  function RemoveAt(s: seq<Address>, idx: nat): seq<Address>
    requires idx < |s|
  {
    s[..idx] + s[idx + 1..]
  }

  lemma RemoveAtMembers(s: seq<Address>, idx: nat)
    requires idx < |s| && forall i, j :: 0 <= i < j < |s| ==> s[i] != s[j]
    ensures forall i, j :: 0 <= i < j < |s| - 1 ==> RemoveAt(s, idx)[i] != RemoveAt(s, idx)[j]
    ensures forall o :: o in RemoveAt(s, idx) <==> o in s && o != s[idx]
  {
    var t := RemoveAt(s, idx);
    forall o | o in s && o != s[idx]
      ensures o in t
    {
      var k :| 0 <= k < |s| && s[k] == o;
      assert t[if k < idx then k else k - 1] == o;
    }
  }

  /** Sort the reports and scan their weights. */
  method MedianOf(rs: seq<Report>, totalWeight: u32) returns (median: u128)
    requires 0 < totalWeight == SumOf(All(), rs)
    ensures IsLowerMedian(rs, median)
  {
    var a := new Report[|rs|](i requires 0 <= i < |rs| => rs[i]);
    assert a[..] == rs;
    SortReports(a);
    SumOfPermutation(All(), a[..], rs);
    median := ScanMedian(a, totalWeight);
    MedianIgnoresOrder(a[..], rs, median);
  }

  lemma DistinctFromPairs(s: seq<Address>)
    requires forall i, j :: 0 <= i < j < |s| ==> s[i] != s[j]
    ensures Distinct(s)
  {
    if |s| > 0 {
      DistinctFromPairs(s[..|s| - 1]);
    }
  }

  class OracleRegistry {
    var oracles: seq<Address>
    var weights: map<Address, u32>
    var reports: map<Address, OracleReport>
    var quorum: Option<u32>
    var window: u64

    /** No oracle is listed twice, exactly the listed oracles have a (positive)
        weight, and only listed oracles have a report. */
    ghost predicate Valid()
      reads this
    {
      && (forall i, j :: 0 <= i < j < |oracles| ==> oracles[i] != oracles[j])
      && |oracles| <= MAX_ORACLE_FEEDS
      && (forall o :: o in weights <==> o in oracles)
      && (forall o :: o in weights ==> weights[o] > 0)
      && (forall o :: o in reports ==> o in oracles && reports[o].value > 0)
    }

    function Fresh(now: u64): seq<Report>
      reads this
    {
      FreshReports(oracles, weights, reports, window, now)
    }

    constructor ()
      ensures Valid() && oracles == [] && quorum == None
    {
      oracles, weights, reports, quorum, window := [], map[], map[], None, 0;
    }

    method AddOracle(oracle: Address, weight: u32) returns (r: Result<()>)
      requires Valid()
      modifies this`oracles, this`weights
      ensures Valid()
      ensures r.Ok? <==> weight > 0 && (oracle in old(oracles) || |old(oracles)| < MAX_ORACLE_FEEDS)
      ensures r.Ok? ==> oracles == if oracle in old(oracles) then old(oracles) else old(oracles) + [oracle]
      ensures r.Ok? ==> weights == old(weights)[oracle := weight]
      ensures r.Err? ==> unchanged(this)
    {
      if weight == 0 {
        return Err(InvalidAmount);
      }
      if oracle !in oracles {
        if |oracles| >= MAX_ORACLE_FEEDS {
          return Err(OverLimit);
        }
        oracles := oracles + [oracle];
      }
      weights := weights[oracle := weight];
      r := Ok(());
    }

    method RemoveOracle(oracle: Address) returns (r: Result<()>)
      requires Valid()
      modifies this`oracles, this`weights, this`reports
      ensures Valid()
      ensures r.Ok? <==> oracle in old(oracles)
      ensures r.Ok? ==> forall o :: o in oracles <==> o in old(oracles) && o != oracle
      ensures r.Ok? ==> weights == old(weights) - {oracle} && reports == old(reports) - {oracle}
      ensures r.Err? ==> r == Err(OracleNotFound) && unchanged(this)
    {
      var idx := 0;
      while idx < |oracles| && oracles[idx] != oracle
        invariant 0 <= idx <= |oracles|
        invariant forall k :: 0 <= k < idx ==> oracles[k] != oracle
      {
        idx := idx + 1;
      }
      if idx == |oracles| {
        return Err(OracleNotFound);
      }
      RemoveAtMembers(oracles, idx);
      oracles := RemoveAt(oracles, idx);
      weights := weights - {oracle};
      reports := reports - {oracle};
      r := Ok(());
    }

    method ReportValue(oracle: Address, value: u128, now: u64) returns (r: Result<()>)
      requires Valid()
      modifies this`reports
      ensures Valid()
      ensures r.Ok? <==> value > 0 && oracle in oracles
      ensures r.Ok? ==> reports == old(reports)[oracle := OracleReport(value, now)]
      ensures r.Err? ==> unchanged(this)
    {
      if value == 0 {
        return Err(OraclePriceInvalid);
      }
      if oracle !in oracles {
        return Err(Unauthorized);
      }
      reports := reports[oracle := OracleReport(value, now)];
      r := Ok(());
    }

    method SetQuorumThreshold(threshold: u32)
      requires Valid()
      modifies this`quorum
      ensures Valid() && quorum == Some(threshold)
    {
      quorum := Some(threshold);
    }

    /** The loop over the registered oracles. */
    method CollectReports(now: u64) returns (r: Result<(seq<Report>, u32)>)
      ensures var W := SumOf(All(), Fresh(now));
        if W > U32_MAX then r == Err(Overflow) else r == Ok((Fresh(now), W))
    {
      var valid: seq<Report> := [];
      var totalWeight: u32 := 0;
      for i := 0 to |oracles|
        invariant valid == FreshReports(oracles[..i], weights, reports, window, now)
        invariant totalWeight == SumOf(All(), valid)
      {
        var o := oracles[i];
        assert oracles[..i + 1][..i] == oracles[..i];
        ghost var next := FreshReports(oracles[..i + 1], weights, reports, window, now);
        if o in reports && IsFresh(reports[o], window, now) {
          var weight := if o in weights then weights[o] else 0;
          if weight > 0 {
            var report := Report(o, reports[o].value, weight);
            SumOfAppend(All(), valid, report);
            valid := valid + [report];
            if totalWeight + weight > U32_MAX {
              FreshGrows(oracles, weights, reports, window, now, i + 1);
              return Err(Overflow);
            }
            totalWeight := totalWeight + weight;
          }
        }
        assert valid == next;
      }
      assert oracles[..|oracles|] == oracles;
      return Ok((valid, totalWeight));
    }

    /** The weighted median of the reports that count, or the exact reason there is
        none; when every report is too old it is the missing quorum. */
    method GetMedianValue(now: u64) returns (r: Result<u128>)
      requires Valid()
      ensures forall x :: x in Fresh(now) <==> Counts(x, oracles, weights, reports, window, now)
      ensures forall i, j :: 0 <= i < j < |Fresh(now)| ==> Fresh(now)[i].oracle != Fresh(now)[j].oracle
      ensures (forall o :: o in reports ==> reports[o].timestamp + window < now) ==> r == Err(OracleQuorumNotMet)
      ensures var W := SumOf(All(), Fresh(now));
        if quorum.None? || quorum.value == 0 then r == Err(OracleQuorumNotMet)
        else if W > U32_MAX then r == Err(Overflow)
        else if W < quorum.value then r == Err(OracleQuorumNotMet)
        else r.Ok? && IsLowerMedian(Fresh(now), r.value)
    {
      DistinctFromPairs(oracles);
      FreshExactly(oracles, weights, reports, window, now);
      AllStale(oracles, weights, reports, window, now);
      if quorum.None? || quorum.value == 0 {
        return Err(OracleQuorumNotMet);
      }
      var collected :- CollectReports(now);
      var (valid, totalWeight) := collected;
      if totalWeight < quorum.value {
        return Err(OracleQuorumNotMet);
      }
      var median := MedianOf(valid, totalWeight);
      r := Ok(median);
    }
  }

  /** The weight seen so far is a lower bound on the whole fresh weight. */
  lemma FreshGrows(oracles: seq<Address>, weights: map<Address, u32>,
                   reports: map<Address, OracleReport>, window: u64, now: u64, i: nat)
    requires i <= |oracles|
    ensures SumOf(All(), FreshReports(oracles[..i], weights, reports, window, now))
         <= SumOf(All(), FreshReports(oracles, weights, reports, window, now))
  {
    if i == |oracles| {
      assert oracles[..i] == oracles;
    } else {
      var rest := oracles[..|oracles| - 1];
      FreshGrows(rest, weights, reports, window, now, i);
      assert rest[..i] == oracles[..i];
      var o := oracles[|oracles| - 1];
      if o in reports && o in weights {
        SumOfAppend(All(), FreshReports(rest, weights, reports, window, now),
                    Report(o, reports[o].value, weights[o]));
      }
    }
  }
}
