/** Python `defaultdict(int)` counters: a missing key reads as 0, and `+= 1`
    creates the key. */
module Counting {

  function Get<K(!new)>(m: map<K, nat>, k: K): nat
  {
    if k in m then m[k] else 0
  }

  /** `counter[k] += 1` */
  function Increment<K(!new)>(m: map<K, nat>, k: K): (r: map<K, nat>)
    ensures forall j :: Get(r, j) == Get(m, j) + (if j == k then 1 else 0)
    ensures r.Keys == m.Keys + {k}
  {
    m[k := Get(m, k) + 1]
  }

  /** Every key of the counter has a positive count, so a key is present iff
      its count is non-zero. */
  ghost predicate Positive<K(!new)>(m: map<K, nat>)
  {
    forall k :: k in m ==> m[k] > 0
  }

  /** The sum of all counts. */
  ghost function MapSum<K(!new)>(m: map<K, nat>): nat
    decreases |m|
  {
    if m == map[] then 0
    else
      var k :| k in m;
      m[k] + MapSum(m - {k})
  }

  lemma {:induction false} MapSumRemove<K(!new)>(m: map<K, nat>, k: K)
    requires k in m
    ensures MapSum(m) == m[k] + MapSum(m - {k})
    decreases |m|
  {
    var j :| j in m && MapSum(m) == m[j] + MapSum(m - {j});
    if j != k {
      var mj, mk := m - {j}, m - {k};
      MapSumRemove(mj, k);
      MapSumRemove(mk, j);
      assert mj - {k} == mk - {j};
    }
  }

  /** Each increment adds exactly one to the total. */
  lemma {:induction false} MapSumIncrement<K(!new)>(m: map<K, nat>, k: K)
    ensures MapSum(Increment(m, k)) == MapSum(m) + 1
  {
    var r := Increment(m, k);
    MapSumRemove(r, k);
    if k in m {
      MapSumRemove(m, k);
      assert r - {k} == m - {k};
    } else {
      assert r - {k} == m;
    }
  }
}
