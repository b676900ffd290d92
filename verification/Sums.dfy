/** Sums over the rows of a finite table. */
module Sums {

  /** The sum of `f` over the rows of `m`. */
  ghost function Total<K, V>(m: map<K, V>, f: (K, V) -> nat): nat
    decreases |m|
  {
    if m == map[] then 0
    else
      var k :| k in m;
      assert |m - {k}| < |m| by { RemoveShrinks(m, k); }
      f(k, m[k]) + Total(m - {k}, f)
  }

  lemma RemoveShrinks<K, V>(m: map<K, V>, k: K)
    requires k in m
    ensures |m - {k}| < |m|
  {
    assert m.Keys == (m - {k}).Keys + {k};
  }

  /** Any row may be taken out of the sum first. */
  lemma {:induction false} TotalSplit<K, V>(m: map<K, V>, f: (K, V) -> nat, k: K)
    requires k in m
    ensures Total(m, f) == f(k, m[k]) + Total(m - {k}, f)
    decreases |m|
  {
    var j :| j in m && Total(m, f) == f(j, m[j]) + Total(m - {j}, f);
    if j != k {
      RemoveShrinks(m, j);
      RemoveShrinks(m, k);
      TotalSplit(m - {j}, f, k);
      TotalSplit(m - {k}, f, j);
      assert m - {j} - {k} == m - {k} - {j};
    }
  }

  /** Writing one row changes the sum by that row alone. */
  lemma TotalUpdate<K, V>(m: map<K, V>, f: (K, V) -> nat, k: K, v: V)
    ensures Total(m[k := v], f) == Total(m, f) - (if k in m then f(k, m[k]) else 0) + f(k, v)
  {
    TotalSplit(m[k := v], f, k);
    if k in m {
      TotalSplit(m, f, k);
      assert m[k := v] - {k} == m - {k};
    } else {
      assert m[k := v] - {k} == m;
    }
  }

  /** A table whose rows all appear, with no smaller value, in another table has no larger sum. */
  lemma {:induction false} TotalDominated<K, V, W>(m: map<K, V>, f: (K, V) -> nat, n: map<K, W>, g: (K, W) -> nat)
    requires forall k :: k in m && f(k, m[k]) > 0 ==> k in n && f(k, m[k]) <= g(k, n[k])
    ensures Total(m, f) <= Total(n, g)
    decreases |m|
  {
    if m != map[] {
      var k :| k in m && Total(m, f) == f(k, m[k]) + Total(m - {k}, f);
      RemoveShrinks(m, k);
      if k in n {
        TotalSplit(n, g, k);
        TotalDominated(m - {k}, f, n - {k}, g);
      } else {
        TotalDominated(m - {k}, f, n, g);
      }
    }
  }
}
