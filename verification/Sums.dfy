/** Sums over the values of a finite map. */
module Sums {
  ghost function Sum<K, V>(m: map<K, V>, f: V -> nat): nat
    decreases m.Keys
  {
    if m == map[] then 0 else
    var k :| k in m;
    f(m[k]) + Sum(m - {k}, f)
  }

  lemma {:induction false} SumSplit<K, V>(m: map<K, V>, f: V -> nat, k: K)
    requires k in m
    ensures Sum(m, f) == f(m[k]) + Sum(m - {k}, f)
    decreases m.Keys
  {
    var j :| j in m && Sum(m, f) == f(m[j]) + Sum(m - {j}, f);
    if j != k {
      SumSplit(m - {j}, f, k);
      SumSplit(m - {k}, f, j);
      assert m - {j} - {k} == m - {k} - {j};
    }
  }

  lemma SumPut<K, V>(m: map<K, V>, f: V -> nat, k: K, v: V)
    ensures Sum(m[k := v], f) + (if k in m then f(m[k]) else 0) == Sum(m, f) + f(v)
  {
    SumSplit(m[k := v], f, k);
    assert m[k := v] - {k} == m - {k};
    if k in m {
      SumSplit(m, f, k);
    } else {
      assert m - {k} == m;
    }
  }

  lemma {:induction false} SumZero<K, V>(m: map<K, V>, f: V -> nat)
    requires forall k | k in m :: f(m[k]) == 0
    ensures Sum(m, f) == 0
    decreases m.Keys
  {
    if m != map[] {
      var k :| k in m;
      SumSplit(m, f, k);
      SumZero(m - {k}, f);
    }
  }

  /** Fewer entries, no greater sum. */
  lemma {:induction false} SumSubset<K, V>(m: map<K, V>, sub: map<K, V>, f: V -> nat)
    requires sub.Keys <= m.Keys && forall k | k in sub :: sub[k] == m[k]
    ensures Sum(sub, f) <= Sum(m, f)
    decreases m.Keys
  {
    if m != map[] {
      var k :| k in m;
      SumSplit(m, f, k);
      if k in sub {
        SumSplit(sub, f, k);
        SumSubset(m - {k}, sub - {k}, f);
      } else {
        SumSubset(m - {k}, sub, f);
      }
    } else {
      assert sub == map[];
    }
  }
}
