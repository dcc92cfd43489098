/**
  `sorted(service_costs.items(), key=cost, reverse=True)`: a stable sort of
  the dict's entries by cost, largest first. Python's `sorted` is stable and
  keeps that stability under `reverse=True`, so entries of equal cost stay in
  dict (insertion) order. Modelled as a functional insertion sort.
 */
module CostOrder {
  import opened Ledger

  /** Costs never increase along `s`. */
  predicate SortedByCostDesc(s: seq<ServiceCost>)
  {
    forall i, j :: 0 <= i < j < |s| ==> s[i].cost >= s[j].cost
  }

  /** The entries of `s` whose cost is exactly `c`, in their order in `s`. */
  function WithCost(s: seq<ServiceCost>, c: real): seq<ServiceCost>
  {
    if |s| == 0 then []
    else (if s[0].cost == c then [s[0]] else []) + WithCost(s[1..], c)
  }

  /** Stability: for every cost, the entries with that cost keep their relative order. */
  ghost predicate SameTies(a: seq<ServiceCost>, b: seq<ServiceCost>)
  {
    forall c :: WithCost(a, c) == WithCost(b, c)
  }

  /** Places `x` into the descending `s`, in front of every entry of equal cost. */
  function Insert(x: ServiceCost, s: seq<ServiceCost>): (r: seq<ServiceCost>)
    requires SortedByCostDesc(s)
    ensures SortedByCostDesc(r)
    ensures multiset(r) == multiset(s) + multiset{x}
    ensures |r| == |s| + 1 && (r[0] == x || (|s| > 0 && r[0] == s[0]))
  {
    if |s| == 0 || x.cost >= s[0].cost then
      SortedCons(x, s);
      [x] + s
    else
      assert s == [s[0]] + s[1..];
      var r := Insert(x, s[1..]);
      assert forall j :: 0 <= j < |r| ==> r[j].cost <= s[0].cost by {
        forall j | 0 <= j < |r| ensures r[j].cost <= s[0].cost {
          assert r[j] in multiset(s[1..]) + multiset{x};
        }
      }
      SortedCons(s[0], r);
      [s[0]] + r
  }

  /** An entry at least as costly as every entry of a descending sequence can go in front. */
  lemma SortedCons(y: ServiceCost, r: seq<ServiceCost>)
    requires SortedByCostDesc(r)
    requires forall j :: 0 <= j < |r| ==> r[j].cost <= y.cost
    ensures SortedByCostDesc([y] + r)
  {
  }

  /** The stable descending sort of lines 69-71. */
  function SortByCostDesc(s: seq<ServiceCost>): (r: seq<ServiceCost>)
    ensures SortedByCostDesc(r)
    ensures multiset(r) == multiset(s)
  {
    if |s| == 0 then []
    else
      assert s == [s[0]] + s[1..];
      Insert(s[0], SortByCostDesc(s[1..]))
  }

  lemma {:induction false} WithCostCons(x: ServiceCost, s: seq<ServiceCost>, c: real)
    ensures WithCost([x] + s, c) == (if x.cost == c then [x] else []) + WithCost(s, c)
  {
    assert ([x] + s)[1..] == s;
  }

  /** Inserting `x` keeps it ahead of every entry of `s` that has its cost. */
  lemma {:induction false} InsertKeepsTies(x: ServiceCost, s: seq<ServiceCost>)
    requires SortedByCostDesc(s)
    ensures SameTies(Insert(x, s), [x] + s)
    decreases |s|
  {
    if |s| > 0 && x.cost < s[0].cost {
      InsertKeepsTies(x, s[1..]);
      var t := Insert(x, s[1..]);
      assert Insert(x, s) == [s[0]] + t;
      assert s == [s[0]] + s[1..];
      forall c
        ensures WithCost([s[0]] + t, c) == WithCost([x] + ([s[0]] + s[1..]), c)
      {
        PassHead(x, s[0], t, s[1..], c);
      }
    }
  }

  /** One step of `InsertKeepsTies`: `x` moves past `y`, whose cost differs from its own. */
  lemma PassHead(x: ServiceCost, y: ServiceCost, t: seq<ServiceCost>, rest: seq<ServiceCost>, c: real)
    requires x.cost != y.cost
    requires WithCost(t, c) == WithCost([x] + rest, c)
    ensures WithCost([y] + t, c) == WithCost([x] + ([y] + rest), c)
  {
    WithCostCons(y, t, c);
    WithCostCons(x, rest, c);
    WithCostCons(x, [y] + rest, c);
    WithCostCons(y, rest, c);
  }

  /** The sort is stable: entries of equal cost come out in their input order. */
  lemma {:induction false} SortIsStable(s: seq<ServiceCost>)
    ensures SameTies(SortByCostDesc(s), s)
    decreases |s|
  {
    if |s| > 0 {
      SortIsStable(s[1..]);
      InsertKeepsTies(s[0], SortByCostDesc(s[1..]));
      forall c
        ensures WithCost(SortByCostDesc(s), c) == WithCost(s, c)
      {
        WithCostCons(s[0], SortByCostDesc(s[1..]), c);
        assert s == [s[0]] + s[1..];
        WithCostCons(s[0], s[1..], c);
      }
    }
  }

  /** A stable, descending permutation is unique: any such arrangement is the sort's. */
  lemma {:induction false} SortedWithSameTiesIsSort(s: seq<ServiceCost>, t: seq<ServiceCost>)
    requires SortedByCostDesc(t) && SameTies(t, s)
    ensures t == SortByCostDesc(s)
  {
    SortIsStable(s);
    SortedSameTiesEqual(t, SortByCostDesc(s));
  }

  /** Two descending sequences that agree on every cost class are equal. */
  lemma {:induction false} SortedSameTiesEqual(a: seq<ServiceCost>, b: seq<ServiceCost>)
    requires SortedByCostDesc(a) && SortedByCostDesc(b) && SameTies(a, b)
    ensures a == b
    decreases |a| + |b|
  {
    if |a| == 0 && |b| > 0 {
      NonEmptyClass(b);
    } else if |a| > 0 && |b| == 0 {
      NonEmptyClass(a);
    } else if |a| > 0 {
      // the largest cost heads both sequences
      SameLeadingCost(a, b);
      SameLeadingCost(b, a);
      var c := a[0].cost;
      assert a == [a[0]] + a[1..];
      assert b == [b[0]] + b[1..];
      WithCostCons(a[0], a[1..], c);
      WithCostCons(b[0], b[1..], c);
      assert WithCost(a, c)[0] == a[0];
      assert a[0] == b[0];
      forall c' ensures WithCost(a[1..], c') == WithCost(b[1..], c')
      {
        assert WithCost(a, c') == WithCost(b, c');
        WithCostCons(a[0], a[1..], c');
        WithCostCons(b[0], b[1..], c');
        var h := if a[0].cost == c' then [a[0]] else [];
        assert WithCost(a[1..], c') == (h + WithCost(a[1..], c'))[|h|..];
        assert WithCost(b[1..], c') == (h + WithCost(b[1..], c'))[|h|..];
      }
      SortedSameTiesEqual(a[1..], b[1..]);
    }
  }

  /** The first entry of a non-empty sequence belongs to its own cost class. */
  lemma NonEmptyClass(s: seq<ServiceCost>)
    requires |s| > 0
    ensures WithCost(s, s[0].cost) != []
  {
  }

  /** Sequences sorted the same way and agreeing on cost classes cannot lead with different costs. */
  lemma SameLeadingCost(a: seq<ServiceCost>, b: seq<ServiceCost>)
    requires SortedByCostDesc(a) && SortedByCostDesc(b) && SameTies(a, b)
    requires |a| > 0 && |b| > 0
    ensures a[0].cost <= b[0].cost
  {
    if a[0].cost > b[0].cost {
      NonEmptyClass(a);
      WithCostBounded(b, a[0].cost, b[0].cost);
    }
  }

  /**
    In a sequence whose costs are all at most `bound`, an entry of cost
    `c > bound` cannot appear; stated as: the class of `c` is empty, or `c <= bound`.
   */
  lemma {:induction false} WithCostBounded(s: seq<ServiceCost>, c: real, bound: real)
    requires forall i :: 0 <= i < |s| ==> s[i].cost <= bound
    ensures c > bound ==> WithCost(s, c) == []
    ensures WithCost(s, c) != [] ==> c <= bound
    decreases |s|
  {
    if |s| > 0 {
      WithCostBounded(s[1..], c, bound);
    }
  }

  /** Sorting does not change the sum of the costs. */
  lemma {:induction false} SortKeepsSum(s: seq<ServiceCost>)
    ensures SumCosts(SortByCostDesc(s)) == SumCosts(s)
    decreases |s|
  {
    if |s| > 0 {
      SortKeepsSum(s[1..]);
      InsertKeepsSum(s[0], SortByCostDesc(s[1..]));
    }
  }

  lemma {:induction false} InsertKeepsSum(x: ServiceCost, s: seq<ServiceCost>)
    requires SortedByCostDesc(s)
    ensures SumCosts(Insert(x, s)) == x.cost + SumCosts(s)
    decreases |s|
  {
    if |s| > 0 && x.cost < s[0].cost {
      InsertKeepsSum(x, s[1..]);
      assert Insert(x, s)[1..] == Insert(x, s[1..]);
    }
  }
}
