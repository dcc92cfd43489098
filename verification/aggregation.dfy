/**
  The data step of the handler (lambda_function.py, lines 61-72): keep the
  groups with a positive amount, record them in the insertion-ordered
  `service_costs` dict, add them to `total_cost`, sort the dict's entries by
  cost and take the largest cost as the scale of the bar chart.
 */
module Aggregation {
  import opened Wrappers
  import opened Ledger
  import opened ServiceMap
  import opened CostOrder

  /** The aggregated figures handed to the report builder. */
  datatype Summary = Summary(total: real, services: seq<ServiceCost>, maxCost: real)

  /** The scale used when no service has a positive cost (line 72). */
  const DefaultMaxCost: real := 1.0

  /** Reference filter: the groups with a positive amount, as entries, in input order. */
  function Positive(groups: seq<Group>): (p: seq<ServiceCost>)
    ensures AllPositive(p)
    ensures forall n, a :: ServiceCost(n, a) in p <==> Group(n, a) in groups && a > 0.0
  {
    if |groups| == 0 then []
    else
      var g := groups[0];
      assert groups == [g] + groups[1..];
      (if g.amount > 0.0 then [ServiceCost(g.service, g.amount)] else []) + Positive(groups[1..])
  }

  /** `total_cost` after the loop of lines 62-67: a left-to-right sum of the positive amounts. */
  function Total(groups: seq<Group>): (t: real)
    ensures t >= 0.0
  {
    if |groups| == 0 then 0.0
    else
      var g := groups[|groups| - 1];
      var t := Total(groups[..|groups| - 1]);
      if g.amount > 0.0 then t + g.amount else t
  }

  /** `service_costs` after the loop of lines 62-66. */
  function Collect(groups: seq<Group>): (d: seq<ServiceCost>)
    ensures DistinctKeys(d)
    ensures AllPositive(d)
  {
    if |groups| == 0 then []
    else
      var g := groups[|groups| - 1];
      var d := Collect(groups[..|groups| - 1]);
      if g.amount > 0.0 then
        PutDistinct(d, g.service, g.amount);
        Put(d, g.service, g.amount)
      else d
  }

  /** Reference for the dict's values: the last positive amount a service had in the input. */
  function LastPositive(groups: seq<Group>, k: string): Option<real>
  {
    if |groups| == 0 then None
    else
      var g := groups[|groups| - 1];
      if g.service == k && g.amount > 0.0 then Some(g.amount)
      else LastPositive(groups[..|groups| - 1], k)
  }

  /** `max_cost` of line 72: the first sorted cost, or 1.0 for an empty list. */
  function MaxCost(sorted: seq<ServiceCost>): (m: real)
    ensures |sorted| == 0 ==> m == DefaultMaxCost
    ensures |sorted| > 0 ==> exists i :: 0 <= i < |sorted| && sorted[i].cost == m
    ensures SortedByCostDesc(sorted) ==> forall i :: 0 <= i < |sorted| ==> sorted[i].cost <= m
    ensures AllPositive(sorted) ==> m > 0.0
  {
    if |sorted| > 0 then sorted[0].cost else DefaultMaxCost
  }

  /** The whole data step: total, sorted services and bar scale. */
  function Summarize(groups: seq<Group>): (s: Summary)
    ensures SortedByCostDesc(s.services)
    ensures multiset(s.services) == multiset(Collect(groups))
    ensures AllPositive(s.services)
    ensures s.maxCost > 0.0
    ensures forall i :: 0 <= i < |s.services| ==> s.services[i].cost <= s.maxCost
    ensures |s.services| == 0 ==> s.maxCost == DefaultMaxCost
  {
    var d := Collect(groups);
    var sorted := SortByCostDesc(d);
    assert forall i :: 0 <= i < |sorted| ==> sorted[i] in multiset(d);
    Summary(Total(groups), sorted, MaxCost(sorted))
  }

  /** A non-positive group is never counted: the total is the sum of the positive amounts. */
  lemma {:induction false} TotalIsSumOfPositive(groups: seq<Group>)
    ensures Total(groups) == SumCosts(Positive(groups))
    decreases |groups|
  {
    if |groups| > 0 {
      var n := |groups| - 1;
      TotalIsSumOfPositive(groups[..n]);
      PositiveSnoc(groups[..n], groups[n]);
      assert groups == groups[..n] + [groups[n]];
      SumCostsAppend(Positive(groups[..n]), Positive([groups[n]]));
    }
  }

  /** Filtering distributes over appending one group. */
  lemma {:induction false} PositiveSnoc(groups: seq<Group>, g: Group)
    ensures Positive(groups + [g]) == Positive(groups) + Positive([g])
    decreases |groups|
  {
    if |groups| == 0 {
      assert groups + [g] == [g];
    } else {
      assert (groups + [g])[1..] == groups[1..] + [g];
      PositiveSnoc(groups[1..], g);
    }
  }

  /** Line 66 overwrites: the dict holds, for each service, its last positive amount. */
  lemma {:induction false} CollectLookup(groups: seq<Group>, k: string)
    ensures Get(Collect(groups), k) == LastPositive(groups, k)
    decreases |groups|
  {
    if |groups| > 0 {
      var n := |groups| - 1;
      CollectLookup(groups[..n], k);
      var g := groups[n];
      if g.amount > 0.0 {
        PutGet(Collect(groups[..n]), g.service, g.amount);
      }
    }
  }

  /** The dict's keys are the names of the positive groups, each at its first position. */
  lemma {:induction false} CollectKeyOrder(groups: seq<Group>)
    ensures Keys(Collect(groups)) == Dedup(Keys(Positive(groups)))
    decreases |groups|
  {
    if |groups| > 0 {
      var n := |groups| - 1;
      var g := groups[n];
      var init := groups[..n];
      var names := Keys(Positive(init));
      var added := if g.amount > 0.0 then [g.service] else [];
      assert Keys(Positive(groups)) == names + added by {
        assert groups == init + [g];
        PositiveKeysSnoc(init, g);
      }
      CollectKeyOrder(init);
      if g.amount > 0.0 {
        PutKeys(Collect(init), g.service, g.amount);
        assert (names + [g.service])[..|names|] == names;
        DedupMembers(names);
      } else {
        assert names + added == names;
      }
    }
  }

  /** The names of `s` with repeats dropped, each kept where it first occurs. */
  function Dedup(s: seq<string>): seq<string>
  {
    if |s| == 0 then []
    else
      var p := Dedup(s[..|s| - 1]);
      if s[|s| - 1] in p then p else p + [s[|s| - 1]]
  }

  /** The index of the first occurrence of `x` in `s`. */
  function FirstIndex(s: seq<string>, x: string): (i: nat)
    requires x in s
    ensures i < |s| && s[i] == x
    ensures forall j :: 0 <= j < i ==> s[j] != x
  {
    if s[0] == x then 0 else 1 + FirstIndex(s[1..], x)
  }

  /** Without repeats, in order of first occurrence, and nothing lost. */
  lemma {:induction false} DedupMembers(s: seq<string>)
    ensures forall x :: x in Dedup(s) <==> x in s
    ensures forall i, j :: 0 <= i < j < |Dedup(s)| ==> FirstIndex(s, Dedup(s)[i]) < FirstIndex(s, Dedup(s)[j])
    decreases |s|
  {
    if |s| > 0 {
      var n := |s| - 1;
      var p := Dedup(s[..n]);
      DedupMembers(s[..n]);
      assert s == s[..n] + [s[n]];
      forall x | x in s[..n]
        ensures FirstIndex(s, x) == FirstIndex(s[..n], x)
      {
        FirstIndexPrefix(s[..n], s[n], x);
      }
      if s[n] !in p {
        FirstIndexLast(s[..n], s[n]);
      }
    }
  }

  lemma {:induction false} FirstIndexPrefix(s: seq<string>, y: string, x: string)
    requires x in s
    ensures FirstIndex(s + [y], x) == FirstIndex(s, x)
    decreases |s|
  {
    if s[0] != x {
      assert (s + [y])[1..] == s[1..] + [y];
      FirstIndexPrefix(s[1..], y, x);
    }
  }

  lemma FirstIndexLast(s: seq<string>, y: string)
    requires y !in s
    ensures FirstIndex(s + [y], y) == |s|
  {
  }

  /** No name occurs twice in `names`. */
  predicate NoRepeats(names: seq<string>)
  {
    forall i, j :: 0 <= i < j < |names| ==> names[i] != names[j]
  }

  /** Groups whose positive names never repeat. */
  predicate NoRepeatedService(groups: seq<Group>)
  {
    NoRepeats(Keys(Positive(groups)))
  }

  lemma NoRepeatsSnoc(names: seq<string>, x: string)
    requires NoRepeats(names + [x])
    ensures NoRepeats(names) && x !in names
  {
    assert forall i :: 0 <= i < |names| ==> (names + [x])[i] == names[i];
    assert (names + [x])[|names|] == x;
  }

  /** The positive names of `groups + [g]`. */
  lemma PositiveKeysSnoc(groups: seq<Group>, g: Group)
    ensures Keys(Positive(groups + [g])) == Keys(Positive(groups)) + (if g.amount > 0.0 then [g.service] else [])
  {
    PositiveSnoc(groups, g);
    if g.amount > 0.0 {
      assert Positive([g]) == [ServiceCost(g.service, g.amount)];
    } else {
      assert Positive([g]) == [];
    }
  }

  /** Assigning to a key that is absent appends it. */
  lemma {:induction false} PutAbsentAppends(d: seq<ServiceCost>, k: string, v: real)
    requires k !in Keys(d)
    ensures Put(d, k, v) == d + [ServiceCost(k, v)]
    decreases |d|
  {
    if |d| > 0 {
      assert Keys(d) == [d[0].service] + Keys(d[1..]);
      PutAbsentAppends(d[1..], k, v);
    }
  }

  /** With distinct service names nothing is overwritten: the dict is the filtered input. */
  lemma {:induction false} CollectWithoutRepeats(groups: seq<Group>)
    requires NoRepeatedService(groups)
    ensures Collect(groups) == Positive(groups)
    decreases |groups|
  {
    if |groups| > 0 {
      var n := |groups| - 1;
      var g := groups[n];
      var init := groups[..n];
      var names := Keys(Positive(init));
      var added := if g.amount > 0.0 then [g.service] else [];
      assert Keys(Positive(groups)) == names + added by {
        assert groups == init + [g];
        PositiveKeysSnoc(init, g);
      }
      assert Positive(groups) == Positive(init) + Positive([g]) by {
        assert groups == init + [g];
        PositiveSnoc(init, g);
      }
      if g.amount > 0.0 {
        NoRepeatsSnoc(names, g.service);
        CollectWithoutRepeats(init);
        PutAbsentAppends(Collect(init), g.service, g.amount);
        assert Positive([g]) == [ServiceCost(g.service, g.amount)];
      } else {
        assert names + added == names;
        CollectWithoutRepeats(init);
        assert Positive([g]) == [];
      }
    }
  }

  /** An overwritten amount stays in `total_cost`, so the listed costs never exceed the total. */
  lemma {:induction false} ListedCostsBelowTotal(groups: seq<Group>)
    ensures SumCosts(Collect(groups)) <= Total(groups)
    decreases |groups|
  {
    if |groups| > 0 {
      var n := |groups| - 1;
      var g := groups[n];
      var d := Collect(groups[..n]);
      ListedCostsBelowTotal(groups[..n]);
      if g.amount > 0.0 {
        SumCostsPut(d, g.service, g.amount);
        if g.service in Keys(d) {
          var prev := Get(d, g.service).value;
          assert ServiceCost(g.service, prev) in d;
        }
      }
    }
  }

  /** With distinct service names the total is exactly the sum of the listed costs. */
  lemma TotalMatchesListedCosts(groups: seq<Group>)
    requires NoRepeatedService(groups)
    ensures Summarize(groups).total == SumCosts(Summarize(groups).services)
  {
    CollectWithoutRepeats(groups);
    TotalIsSumOfPositive(groups);
    SortKeepsSum(Collect(groups));
  }

  /** The service list keeps the dict's order among entries of equal cost. */
  lemma SummaryIsStable(groups: seq<Group>)
    ensures SameTies(Summarize(groups).services, Collect(groups))
  {
    SortIsStable(Collect(groups));
  }

  /** Nothing is listed exactly when no amount is positive; then the total is 0 and the scale 1. */
  lemma NoSpend(groups: seq<Group>)
    ensures |Summarize(groups).services| == 0 <==> forall i :: 0 <= i < |groups| ==> groups[i].amount <= 0.0
    ensures |Summarize(groups).services| == 0 ==> Summarize(groups).total == 0.0 && Summarize(groups).maxCost == DefaultMaxCost
  {
    var s := Summarize(groups);
    assert |s.services| == |multiset(s.services)| == |Collect(groups)|;
    CollectKeyOrder(groups);
    DedupEmpty(Keys(Positive(groups)));
    PositiveEmpty(groups);
    TotalIsSumOfPositive(groups);
  }

  /** Dropping repeats leaves something exactly when there was something. */
  lemma {:induction false} DedupEmpty(s: seq<string>)
    ensures |Dedup(s)| == 0 <==> |s| == 0
    decreases |s|
  {
    if |s| > 0 {
      DedupEmpty(s[..|s| - 1]);
    }
  }

  /** The filter is empty exactly when no amount is positive. */
  lemma {:induction false} PositiveEmpty(groups: seq<Group>)
    ensures |Positive(groups)| == 0 <==> forall i :: 0 <= i < |groups| ==> groups[i].amount <= 0.0
    decreases |groups|
  {
    if |groups| > 0 {
      PositiveEmpty(groups[1..]);
      assert forall i :: 1 <= i < |groups| ==> groups[i] == groups[1..][i - 1];
    }
  }

  /** A service reported twice: both amounts reach the total, only the last the dict. */
  lemma RepeatedServiceCountedTwice()
    ensures var groups := [Group("AmazonEC2", 1.0), Group("AmazonEC2", 2.0)];
      && Collect(groups) == [ServiceCost("AmazonEC2", 2.0)]
      && Total(groups) == 3.0
      && SumCosts(Summarize(groups).services) == 2.0
  {
    var groups := [Group("AmazonEC2", 1.0), Group("AmazonEC2", 2.0)];
    assert groups[..1] == [Group("AmazonEC2", 1.0)];
    assert groups[..1][..0] == [];
    assert Collect(groups[..1]) == [ServiceCost("AmazonEC2", 1.0)];
  }

  /** The typical-day scenario: a zero-cost group is dropped and the rest sorted. */
  lemma TypicalDay()
    ensures var s := Summarize([Group("EC2", 120.50), Group("S3", 0.00), Group("Lambda", 4.25)]);
      && s.total == 124.75
      && s.services == [ServiceCost("EC2", 120.50), ServiceCost("Lambda", 4.25)]
      && s.maxCost == 120.50
  {
    var groups := [Group("EC2", 120.50), Group("S3", 0.00), Group("Lambda", 4.25)];
    var ec2 := ServiceCost("EC2", 120.50);
    var lambda := ServiceCost("Lambda", 4.25);
    assert groups[..2] == [Group("EC2", 120.50), Group("S3", 0.00)];
    assert groups[..2][..1] == [Group("EC2", 120.50)];
    assert groups[..2][..1][..0] == [];
    assert Total(groups[..2][..1]) == 120.50;
    assert Total(groups[..2]) == 120.50;
    assert Total(groups) == 124.75;
    assert Collect(groups[..2][..1]) == [ec2];
    assert Collect(groups[..2]) == [ec2];
    assert Put([ec2], "Lambda", 4.25) == [ec2, lambda];
    var d := Collect(groups);
    assert d == [ec2, lambda];
    assert d[1..] == [lambda];
    assert SortByCostDesc(d[1..]) == [lambda];
    assert SortByCostDesc(d) == Insert(ec2, [lambda]) == [ec2, lambda];
  }
}
