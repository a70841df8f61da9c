/** Finite sums over the entries of a map, in whatever order they are visited. */
module Sums {

  ghost function Total<K>(m: map<K, int>): int {
    if m == map[] then 0
    else
      var k :| k in m;
      m[k] + Total(m - {k})
  }

  /** Any entry may be taken out first. */
  lemma {:induction false} TotalRemove<K>(m: map<K, int>, k: K)
    requires k in m
    ensures Total(m) == m[k] + Total(m - {k})
    decreases |m|
  {
    var first :| first in m && Total(m) == m[first] + Total(m - {first});
    if first != k {
      TotalRemove(m - {first}, k);
      TotalRemove(m - {k}, first);
      assert m - {first} - {k} == m - {k} - {first};
    }
  }

  lemma TotalInsert<K>(m: map<K, int>, k: K, v: int)
    requires k !in m
    ensures Total(m[k := v]) == v + Total(m)
  {
    TotalRemove(m[k := v], k);
    assert m[k := v] - {k} == m;
  }

  lemma TotalReplace<K>(m: map<K, int>, k: K, v: int)
    requires k in m
    ensures Total(m[k := v]) == Total(m) - m[k] + v
  {
    TotalRemove(m, k);
    TotalRemove(m[k := v], k);
    assert m[k := v] - {k} == m - {k};
  }

  lemma TotalEmpty<K>()
    ensures Total<K>(map[]) == 0
  {
  }

  function Restrict<K, V>(m: map<K, V>, keys: set<K>): map<K, V> {
    map k | k in m && k in keys :: m[k]
  }

  /** A sum is what a set of keys contributes and what the others do. */
  lemma {:induction false} TotalSplit<K>(m: map<K, int>, keys: set<K>)
    ensures Total(m) == Total(m - keys) + Total(Restrict(m, keys))
    decreases |m|
  {
    var part := Restrict(m, keys);
    if m == map[] {
      assert m - keys == map[] && part == map[];
      TotalEmpty<K>();
    } else {
      var k :| k in m;
      var rest := m - {k};
      TotalSplit(rest, keys);
      TotalRemove(m, k);
      var restPart := Restrict(rest, keys);
      if k in keys {
        assert rest - keys == m - keys;
        assert part == restPart[k := m[k]];
        TotalInsert(restPart, k, m[k]);
      } else {
        assert part == restPart;
        assert m - keys == (rest - keys)[k := m[k]];
        TotalInsert(rest - keys, k, m[k]);
      }
    }
  }
}
