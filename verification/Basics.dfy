/** Optional values, sums over maps, and set facts shared by the models. */
module Basics {

  datatype Option<+T> = None | Some(value: T)

  /** The sum of `f` over the values of a finite map. */
  ghost function SumBy<K, V>(m: map<K, V>, f: V -> int): int {
    if m == map[] then 0
    else
      var k :| k in m;
      f(m[k]) + SumBy(m - {k}, f)
  }

  lemma {:induction false} SumRemove<K, V>(m: map<K, V>, k: K, f: V -> int)
    requires k in m
    ensures SumBy(m, f) == f(m[k]) + SumBy(m - {k}, f)
    decreases |m|
  {
    var j :| j in m && SumBy(m, f) == f(m[j]) + SumBy(m - {j}, f);
    if j == k {
    } else {
      SumRemove(m - {j}, k, f);
      SumRemove(m - {k}, j, f);
      assert m - {j} - {k} == m - {k} - {j};
    }
  }

  lemma SumUpdate<K, V>(m: map<K, V>, k: K, v: V, f: V -> int)
    ensures SumBy(m[k := v], f) == SumBy(m, f) + f(v) - (if k in m then f(m[k]) else 0)
  {
    var u := m[k := v];
    SumRemove(u, k, f);
    if k in m {
      SumRemove(m, k, f);
      assert u - {k} == m - {k};
    } else {
      assert u - {k} == m;
    }
  }

  /** With no negative term, one term is at most the sum. */
  lemma TermBelowSum<K, V>(m: map<K, V>, k: K, f: V -> int)
    requires k in m && forall j :: j in m ==> f(m[j]) >= 0
    ensures 0 <= f(m[k]) <= SumBy(m, f)
    decreases |m|
  {
    SumRemove(m, k, f);
    SumNonNegative(m - {k}, f);
  }

  lemma {:induction false} SumNonNegative<K, V>(m: map<K, V>, f: V -> int)
    requires forall j :: j in m ==> f(m[j]) >= 0
    ensures SumBy(m, f) >= 0
    decreases |m|
  {
    if m == map[] {
    } else {
      var k :| k in m;
      SumRemove(m, k, f);
      SumNonNegative(m - {k}, f);
    }
  }
}
