/**
  The values the cost report works with: the groups of the month-to-date
  breakdown as the billing API returns them, and the per-service entries the
  handler derives from them. Amounts are `real`: the float parsing and
  rounding of the handler are abstracted away.
 */
module Ledger {

  /** One group of the month-to-date breakdown: its service key and unblended amount. */
  datatype Group = Group(service: string, amount: real)

  /** One `(service, cost)` item of the per-service cost table. */
  datatype ServiceCost = ServiceCost(service: string, cost: real)

  /** The sum of the costs of `s`. */
  function SumCosts(s: seq<ServiceCost>): real
  {
    if |s| == 0 then 0.0 else s[0].cost + SumCosts(s[1..])
  }

  /** The service names of `s`, in order. */
  function Keys(s: seq<ServiceCost>): (ks: seq<string>)
    ensures |ks| == |s|
    ensures forall i :: 0 <= i < |s| ==> ks[i] == s[i].service
  {
    seq(|s|, i requires 0 <= i < |s| => s[i].service)
  }

  /** The names of an entry followed by a sequence. */
  lemma KeysCons(x: ServiceCost, s: seq<ServiceCost>)
    ensures Keys([x] + s) == [x.service] + Keys(s)
  {
  }

  /** No two entries of `s` carry the same service name. */
  predicate DistinctKeys(s: seq<ServiceCost>)
  {
    forall i, j :: 0 <= i < j < |s| ==> s[i].service != s[j].service
  }

  /** Every entry of `s` has a strictly positive cost. */
  predicate AllPositive(s: seq<ServiceCost>)
  {
    forall i :: 0 <= i < |s| ==> s[i].cost > 0.0
  }

  /** Summing is compatible with concatenation. */
  lemma {:induction false} SumCostsAppend(a: seq<ServiceCost>, b: seq<ServiceCost>)
    ensures SumCosts(a + b) == SumCosts(a) + SumCosts(b)
    decreases |a|
  {
    if |a| == 0 {
      assert a + b == b;
    } else {
      assert (a + b)[1..] == a[1..] + b;
      SumCostsAppend(a[1..], b);
    }
  }
}
