/** Sums over the values of a finite map. */
module Sums {

  ghost function Pick<K>(m: map<K, int>): (k: K)
    requires m != map[]
    ensures k in m
  {
    var k :| k in m;
    k
  }

  ghost function Sum<K>(m: map<K, int>): int
    decreases m.Keys
  {
    if m == map[] then 0
    else
      var k := Pick(m);
      assert (m - {k}).Keys == m.Keys - {k};
      m[k] + Sum(m - {k})
  }

  /** The order in which entries are added up does not matter. */
  lemma {:induction false} SumTakes<K>(m: map<K, int>, k: K)
    requires k in m
    ensures Sum(m) == m[k] + Sum(m - {k})
    decreases m.Keys
  {
    var p := Pick(m);
    if p != k {
      assert (m - {p}).Keys == m.Keys - {p} && (m - {k}).Keys == m.Keys - {k};
      SumTakes(m - {p}, k);
      SumTakes(m - {k}, p);
      assert m - {p} - {k} == m - {k} - {p};
    }
  }

  function Entry<K>(m: map<K, int>, k: K): int {
    if k in m then m[k] else 0
  }

  lemma SumUpdate<K>(m: map<K, int>, k: K, v: int)
    ensures Sum(m[k := v]) == Sum(m) - Entry(m, k) + v
  {
    SumTakes(m[k := v], k);
    assert m[k := v] - {k} == m - {k};
    if k in m {
      SumTakes(m, k);
    } else {
      assert m - {k} == m;
    }
  }

  lemma {:induction false} SumBounds<K>(m: map<K, int>)
    requires forall k :: k in m ==> m[k] >= 0
    ensures Sum(m) >= 0
    decreases m.Keys
  {
    if m != map[] {
      assert (m - {Pick(m)}).Keys == m.Keys - {Pick(m)};
      SumBounds(m - {Pick(m)});
    }
  }

  lemma SumCovers<K>(m: map<K, int>, k: K)
    requires forall x :: x in m ==> m[x] >= 0
    ensures Entry(m, k) <= Sum(m)
  {
    if k in m {
      SumTakes(m, k);
      SumBounds(m - {k});
    } else {
      SumBounds(m);
    }
  }
}
