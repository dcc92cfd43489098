/**
  The handler's `service_costs` dictionary. A Python dict remembers the order
  in which its keys were first inserted, so it is modelled as a sequence of
  entries: assigning to a key that is present overwrites its value where it
  stands, assigning to a new key appends it.
 */
module ServiceMap {
  import opened Wrappers
  import opened Ledger

  /** The value stored under `k`, if any (the first entry with that key). */
  function Get(d: seq<ServiceCost>, k: string): (r: Option<real>)
    ensures r.None? <==> k !in Keys(d)
    ensures r.Some? ==> ServiceCost(k, r.value) in d
    ensures DistinctKeys(d) ==> forall i :: 0 <= i < |d| && d[i].service == k ==> r == Some(d[i].cost)
  {
    if |d| == 0 then None
    else if d[0].service == k then Some(d[0].cost)
    else
      assert Keys(d) == [d[0].service] + Keys(d[1..]);
      Get(d[1..], k)
  }

  /** `d[k] = v`: the assignment of line 66 on an insertion-ordered dict. */
  function Put(d: seq<ServiceCost>, k: string, v: real): (r: seq<ServiceCost>)
    ensures |r| == if k in Keys(d) then |d| else |d| + 1
    ensures forall i :: 0 <= i < |r| ==> r[i] == ServiceCost(k, v) || r[i] in d
  {
    if |d| == 0 then [ServiceCost(k, v)]
    else if d[0].service == k then [ServiceCost(k, v)] + d[1..]
    else
      assert Keys(d) == [d[0].service] + Keys(d[1..]);
      [d[0]] + Put(d[1..], k, v)
  }

  /** A present key keeps its position; a new key goes last. */
  lemma {:induction false} PutKeys(d: seq<ServiceCost>, k: string, v: real)
    ensures Keys(Put(d, k, v)) == if k in Keys(d) then Keys(d) else Keys(d) + [k]
    decreases |d|
  {
    if |d| > 0 {
      assert d == [d[0]] + d[1..];
      KeysCons(d[0], d[1..]);
      if d[0].service == k {
        KeysCons(ServiceCost(k, v), d[1..]);
      } else {
        var t := Put(d[1..], k, v);
        assert Put(d, k, v) == [d[0]] + t;
        PutKeys(d[1..], k, v);
        KeysCons(d[0], t);
        assert k in Keys(d) <==> k in Keys(d[1..]);
      }
    }
  }

  /** After `d[k] = v`, looking up `k` gives `v` and every other key is unaffected. */
  lemma {:induction false} PutGet(d: seq<ServiceCost>, k: string, v: real)
    ensures Get(Put(d, k, v), k) == Some(v)
    ensures forall k' :: k' != k ==> Get(Put(d, k, v), k') == Get(d, k')
    decreases |d|
  {
    if |d| > 0 && d[0].service != k {
      PutGet(d[1..], k, v);
      assert Put(d, k, v)[1..] == Put(d[1..], k, v);
    }
  }

  /** Assignment never creates a second entry for a key. */
  lemma {:induction false} PutDistinct(d: seq<ServiceCost>, k: string, v: real)
    requires DistinctKeys(d)
    ensures DistinctKeys(Put(d, k, v))
  {
    PutKeys(d, k, v);
    var r := Put(d, k, v);
    assert forall i :: 0 <= i < |r| ==> Keys(r)[i] == r[i].service;
  }

  /**
    Overwriting an entry replaces its cost in the sum; adding one adds it:
    the value a repeated key had before is lost from the dict.
   */
  lemma {:induction false} SumCostsPut(d: seq<ServiceCost>, k: string, v: real)
    ensures SumCosts(Put(d, k, v)) == SumCosts(d) + v - (if k in Keys(d) then Get(d, k).value else 0.0)
    decreases |d|
  {
    if |d| == 0 {
    } else if d[0].service == k {
      assert Put(d, k, v) == [ServiceCost(k, v)] + d[1..];
    } else {
      SumCostsPut(d[1..], k, v);
      assert Put(d, k, v)[1..] == Put(d[1..], k, v);
    }
  }
}
