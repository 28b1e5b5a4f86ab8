/** Weighted totals over the values of a finite map. */
module Sums {

  ghost function Pick<K, V>(m: map<K, V>): (k: K)
    requires m != map[]
    ensures k in m
  {
    assert m.Keys != {};
    var k :| k in m.Keys;
    k
  }

  /** The sum of `w(m[k])` over all keys `k`. */
  ghost function Total<K, V>(m: map<K, V>, w: V -> nat): (n: nat)
    decreases |m|
  {
    if m == map[] then 0 else
      var k := Pick(m);
      w(m[k]) + Total(m - {k}, w)
  }

  lemma {:induction false} TotalSplit<K, V>(m: map<K, V>, w: V -> nat, k: K)
    requires k in m
    ensures Total(m, w) == w(m[k]) + Total(m - {k}, w)
    decreases |m|
  {
    var j := Pick(m);
    if j != k {
      TotalSplit(m - {j}, w, k);
      TotalSplit(m - {k}, w, j);
      assert (m - {j}) - {k} == (m - {k}) - {j};
    }
  }

  /** Setting one key replaces its old contribution by the new one. */
  lemma TotalSet<K, V>(m: map<K, V>, w: V -> nat, k: K, v: V)
    ensures Total(m[k := v], w) + (if k in m then w(m[k]) else 0) == Total(m, w) + w(v)
  {
    TotalSplit(m[k := v], w, k);
    assert m[k := v] - {k} == m - {k};
    if k in m {
      TotalSplit(m, w, k);
    } else {
      assert m - {k} == m;
    }
  }

  /** Dropping one key takes away its contribution, so no contribution exceeds the total. */
  lemma TotalDrop<K, V>(m: map<K, V>, w: V -> nat, k: K)
    requires k in m
    ensures Total(m - {k}, w) + w(m[k]) == Total(m, w)
  {
    TotalSplit(m, w, k);
  }

  lemma {:induction false} TotalAtMostSize<K, V>(m: map<K, V>, w: V -> nat)
    requires forall k :: k in m ==> w(m[k]) <= 1
    ensures Total(m, w) <= |m|
    decreases |m|
  {
    if m != map[] {
      var k := Pick(m);
      TotalAtMostSize(m - {k}, w);
      assert m.Keys == (m - {k}).Keys + {k};
    }
  }
}
