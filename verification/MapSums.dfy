/**
 Sums over the rows of a table. A table is a finite map from key to row, and a
 column (or a computed column such as a CASE expression) is a function on rows.
 */
module MapSums {

  /** The summand that key `k` contributes; an absent key contributes nothing. */
  ghost function At<K, V>(m: map<K, V>, f: V -> int, k: K): int {
    if k in m then f(m[k]) else 0
  }

  ghost function Sum<K, V>(m: map<K, V>, f: V -> int): int
    decreases |m|
  {
    if m == map[] then 0
    else
      var k :| k in m;
      f(m[k]) + Sum(m - {k}, f)
  }

  /** A sum splits into the summand of any key and the sum over the other keys. */
  lemma {:induction false} SumTake<K, V>(m: map<K, V>, f: V -> int, k: K)
    ensures Sum(m, f) == At(m, f, k) + Sum(m - {k}, f)
    decreases |m|
  {
    if k !in m {
      assert m - {k} == m;
    } else {
      var j :| j in m && Sum(m, f) == f(m[j]) + Sum(m - {j}, f);
      if j != k {
        SumTake(m - {j}, f, k);
        SumTake(m - {k}, f, j);
        assert m - {j} - {k} == m - {k} - {j};
      }
    }
  }

  /** Two tables with the same summand at every key have the same sum. */
  lemma SumSame<K(!new), V>(m: map<K, V>, n: map<K, V>, f: V -> int)
    requires forall k :: At(m, f, k) == At(n, f, k)
    ensures Sum(m, f) == Sum(n, f)
  {
    SumSameOn(m, n, f, m.Keys + n.Keys);
  }

  lemma {:induction false} SumSameOn<K, V>(m: map<K, V>, n: map<K, V>, f: V -> int, keys: set<K>)
    requires m.Keys <= keys && n.Keys <= keys
    requires forall k <- keys :: At(m, f, k) == At(n, f, k)
    ensures Sum(m, f) == Sum(n, f)
    decreases keys
  {
    if keys == {} {
      assert m == map[] && n == map[];
    } else {
      var k :| k in keys;
      SumTake(m, f, k);
      SumTake(n, f, k);
      SumSameOn(m - {k}, n - {k}, f, keys - {k});
    }
  }

  /** Writing one row changes a sum by the difference of that row's summands. */
  lemma SumUpdate<K, V>(m: map<K, V>, f: V -> int, k: K, v: V)
    ensures Sum(m[k := v], f) == Sum(m, f) - At(m, f, k) + f(v)
  {
    SumTake(m, f, k);
    SumTake(m[k := v], f, k);
    assert m[k := v] - {k} == m - {k};
  }

  /** A sum of non-negative summands is non-negative, and bounds each summand. */
  lemma {:induction false} SumBounds<K, V>(m: map<K, V>, f: V -> int)
    requires forall k <- m :: f(m[k]) >= 0
    ensures Sum(m, f) >= 0
    ensures forall k <- m :: f(m[k]) <= Sum(m, f)
    decreases |m|
  {
    forall k <- m
      ensures 0 <= f(m[k]) <= Sum(m, f)
    {
      SumTake(m, f, k);
      SumBounds(m - {k}, f);
    }
  }
}
