/** Two-column relations with a unique key, their degrees, and sums of a counter column. */
module Counting {

  /** The rows whose first column is `a`. */
  function From<A(==), B(==)>(rel: set<(A, B)>, a: A): set<(A, B)> {
    set p | p in rel && p.0 == a
  }

  /** The rows whose second column is `b`. */
  function To<A(==), B(==)>(rel: set<(A, B)>, b: B): set<(A, B)> {
    set p | p in rel && p.1 == b
  }

  /** A new row raises the degrees of its two ends, and of nothing else. */
  lemma AddRow<A, B>(rel: set<(A, B)>, a: A, b: B, x: A, y: B)
    requires (a, b) !in rel
    ensures |From(rel + {(a, b)}, x)| == |From(rel, x)| + (if x == a then 1 else 0)
    ensures |To(rel + {(a, b)}, y)| == |To(rel, y)| + (if y == b then 1 else 0)
  {
    assert From(rel + {(a, b)}, x) == if x == a then From(rel, x) + {(a, b)} else From(rel, x);
    assert To(rel + {(a, b)}, y) == if y == b then To(rel, y) + {(a, b)} else To(rel, y);
  }

  lemma RemoveRow<A, B>(rel: set<(A, B)>, a: A, b: B, x: A, y: B)
    requires (a, b) in rel
    ensures |From(rel - {(a, b)}, x)| == |From(rel, x)| - (if x == a then 1 else 0)
    ensures |To(rel - {(a, b)}, y)| == |To(rel, y)| - (if y == b then 1 else 0)
  {
    AddRow(rel - {(a, b)}, a, b, x, y);
    assert rel - {(a, b)} + {(a, b)} == rel;
  }

  /** The keys whose values have a property. */
  function Having<K(==), V>(m: map<K, V>, p: V -> bool): set<K> {
    set k | k in m && p(m[k])
  }

  lemma HavingUpdate<K, V>(m: map<K, V>, k: K, v: V, p: V -> bool)
    ensures |Having(m[k := v], p)|
            == |Having(m, p)| - (if k in m && p(m[k]) then 1 else 0) + (if p(v) then 1 else 0)
  {
    var added := if p(v) then {k} else {};
    assert Having(m[k := v], p) == Having(m, p) - {k} + added;
  }

  /** The sum of a counter over all its keys. */
  ghost function Sum<K>(m: map<K, int>): int
    decreases |m|
  {
    if m == map[] then 0
    else
      var k :| k in m;
      assert (m - {k}).Keys == m.Keys - {k};
      m[k] + Sum(m - {k})
  }

  lemma {:induction false} SumPick<K>(m: map<K, int>, k: K)
    requires k in m
    ensures Sum(m) == m[k] + Sum(m - {k})
    decreases |m|
  {
    var j :| j in m && Sum(m) == m[j] + Sum(m - {j});
    if j != k {
      assert (m - {j}).Keys == m.Keys - {j} && (m - {k}).Keys == m.Keys - {k};
      SumPick(m - {j}, k);
      SumPick(m - {k}, j);
      assert m - {j} - {k} == m - {k} - {j};
    }
  }

  lemma SumUpdate<K>(m: map<K, int>, k: K, v: int)
    requires k in m
    ensures Sum(m[k := v]) == Sum(m) - m[k] + v
  {
    SumPick(m, k);
    SumPick(m[k := v], k);
    assert m[k := v] - {k} == m - {k};
  }

  lemma SumNewKey<K>(m: map<K, int>, k: K, v: int)
    requires k !in m
    ensures Sum(m[k := v]) == Sum(m) + v
  {
    SumPick(m[k := v], k);
    assert m[k := v] - {k} == m;
  }
}
