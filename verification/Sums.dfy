/** Sums over finite maps, independent of the order in which keys are visited. */
module Sums {

  ghost function MapSum<K>(m: map<K, nat>): nat
    decreases |m|
  {
    if m == map[] then 0
    else
      var k :| k in m;
      assert |m - {k}| < |m| by { assert (m - {k}).Keys == m.Keys - {k}; }
      m[k] + MapSum(m - {k})
  }

  lemma RemovingShrinks<K>(m: map<K, nat>, k: K)
    requires k in m
    ensures |m - {k}| < |m|
  {
    assert (m - {k}).Keys == m.Keys - {k};
  }

  /** Any key may be taken out first. */
  lemma {:induction false} MapSumPick<K>(m: map<K, nat>, k: K)
    requires k in m
    ensures MapSum(m) == m[k] + MapSum(m - {k})
    decreases |m|
  {
    var first :| first in m && MapSum(m) == m[first] + MapSum(m - {first});
    if first != k {
      RemovingShrinks(m, first);
      RemovingShrinks(m, k);
      MapSumPick(m - {first}, k);
      MapSumPick(m - {k}, first);
      assert m - {first} - {k} == m - {k} - {first};
    }
  }

  function Get<K>(m: map<K, nat>, k: K): nat {
    if k in m then m[k] else 0
  }

  /** Changing one entry changes the sum by the difference. */
  lemma MapSumUpdate<K>(m: map<K, nat>, k: K, v: nat)
    ensures MapSum(m[k := v]) + Get(m, k) == MapSum(m) + v
  {
    MapSumPick(m[k := v], k);
    if k in m {
      MapSumPick(m, k);
      assert m[k := v] - {k} == m - {k};
    } else {
      assert m[k := v] - {k} == m;
    }
  }

  /** One key more. */
  lemma MapSumExtend<K>(m: map<K, nat>, n: map<K, nat>, k: K)
    requires k !in m && n.Keys == m.Keys + {k} && forall j | j in m :: n[j] == m[j]
    ensures MapSum(n) == MapSum(m) + n[k]
  {
    assert n == m[k := n[k]];
    MapSumUpdate(m, k, n[k]);
  }

  lemma MapSumRemove<K>(m: map<K, nat>, k: K)
    ensures MapSum(m - {k}) + Get(m, k) == MapSum(m)
  {
    if k in m { MapSumPick(m, k); } else { assert m - {k} == m; }
  }

  lemma MapSumMember<K>(m: map<K, nat>, k: K)
    ensures Get(m, k) <= MapSum(m)
  {
    if k in m { MapSumPick(m, k); }
  }

  /** Sums add up key by key. */
  lemma {:induction false} MapSumAdd<K>(m: map<K, nat>, n: map<K, nat>, sum: map<K, nat>)
    requires m.Keys == n.Keys == sum.Keys && forall k | k in m :: sum[k] == m[k] + n[k]
    ensures MapSum(sum) == MapSum(m) + MapSum(n)
    decreases |m|
  {
    if m == map[] {
      assert n == map[] && sum == map[];
    } else {
      var k :| k in m;
      RemovingShrinks(m, k);
      MapSumPick(m, k);
      MapSumPick(n, k);
      MapSumPick(sum, k);
      MapSumAdd(m - {k}, n - {k}, sum - {k});
    }
  }

  lemma {:induction false} MapSumZero<K>(m: map<K, nat>)
    requires forall k | k in m :: m[k] == 0
    ensures MapSum(m) == 0
    decreases |m|
  {
    if m != map[] {
      var k :| k in m;
      RemovingShrinks(m, k);
      MapSumPick(m, k);
      MapSumZero(m - {k});
    }
  }
}
