/** The sum of a table's column. */
module Tallies {

  ghost function Total<K>(m: map<K, int>): int
    decreases m.Keys
  {
    if m.Keys == {} then 0
    else
      var k :| k in m;
      m[k] + Total(m - {k})
  }

  /** The sum does not depend on the order the rows are taken in. */
  lemma {:induction false} TotalWithout<K>(m: map<K, int>, k: K)
    requires k in m
    ensures Total(m) == m[k] + Total(m - {k})
    decreases m.Keys
  {
    var first :| first in m && Total(m) == m[first] + Total(m - {first});
    if first != k {
      TotalWithout(m - {first}, k);
      TotalWithout(m - {k}, first);
      assert m - {first} - {k} == m - {k} - {first};
    }
  }

  function Held<K(==)>(m: map<K, int>, k: K): int {
    if k in m then m[k] else 0
  }

  lemma TotalSet<K>(m: map<K, int>, k: K, v: int)
    ensures Total(m[k := v]) == Total(m) - Held(m, k) + v
  {
    var after := m[k := v];
    TotalWithout(after, k);
    assert after - {k} == m - {k};
    if k in m {
      TotalWithout(m, k);
    } else {
      assert m - {k} == m;
    }
  }

  lemma TotalRemoved<K>(m: map<K, int>, k: K)
    ensures Total(m - {k}) == Total(m) - Held(m, k)
  {
    if k in m {
      TotalWithout(m, k);
    } else {
      assert m - {k} == m;
    }
  }
}
