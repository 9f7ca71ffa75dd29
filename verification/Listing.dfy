/** Draining a hash set or hash map visits every entry once, in no particular order. */
module Listing {

  /** `s` names every entry of `m` exactly once. */
  ghost predicate Lists<K, V>(s: seq<(K, V)>, m: map<K, V>) {
    && (forall i :: 0 <= i < |s| ==> s[i].0 in m && m[s[i].0] == s[i].1)
    && (forall i, j :: 0 <= i < j < |s| ==> s[i].0 != s[j].0)
    && (forall k :: k in m ==> Named(s, k))
  }

  ghost predicate Named<K, V>(s: seq<(K, V)>, k: K) {
    exists i :: 0 <= i < |s| && s[i].0 == k
  }

  lemma ListsPush<K, V>(s: seq<(K, V)>, m: map<K, V>, k: K, v: V)
    requires Lists(s, m) && k !in m
    ensures Lists(s + [(k, v)], m[k := v])
  {
    var s', m' := s + [(k, v)], m[k := v];
    forall x | x in m' ensures Named(s', x) {
      if x == k {
        assert s'[|s|].0 == k;
      } else {
        assert Named(s, x);
        var i :| 0 <= i < |s| && s[i].0 == x;
        assert s'[i].0 == x;
      }
    }
  }

  /** Renaming keys one to one renames the listing. */
  lemma ListsRenamed<K, L, V>(s: seq<(K, V)>, m: map<K, V>, s': seq<(L, V)>, m': map<L, V>, rename: map<K, L>)
    requires Lists(s, m) && |s'| == |s| && rename.Keys == m.Keys && m'.Keys == rename.Values
    requires forall x, y :: x in rename && y in rename && rename[x] == rename[y] ==> x == y
    requires forall k :: k in m ==> rename[k] in m' && m'[rename[k]] == m[k]
    requires forall i :: 0 <= i < |s| ==> s[i].0 in rename && s'[i] == (rename[s[i].0], s[i].1)
    ensures Lists(s', m')
  {
    forall l | l in m' ensures Named(s', l) {
      var k :| k in rename && rename[k] == l;
      assert Named(s, k);
      var i :| 0 <= i < |s| && s[i].0 == k;
      assert s'[i].0 == l;
    }
  }

  /** Every map can be drained. */
  lemma {:induction false} ListingOf<K, V>(m: map<K, V>) returns (s: seq<(K, V)>)
    ensures Lists(s, m)
    decreases m.Keys
  {
    s := [];
    if m != map[] {
      var k :| k in m;
      var rest := m - {k};
      assert rest.Keys == m.Keys - {k};
      s := ListingOf(rest);
      ListsPush(s, rest, k, m[k]);
      assert rest[k := m[k]] == m;
      s := s + [(k, m[k])];
    }
  }
}
