/** Sums over maps: what running counters count. */
module Tally {

  /** The sum of f over all entries. */
  ghost function Sum<K(!new), V>(m: map<K, V>, f: V -> nat): nat
    decreases |m|
  {
    if m == map[] then 0
    else
      var k :| k in m;
      Smaller(m, k);
      f(m[k]) + Sum(m - {k}, f)
  }

  lemma Smaller<K, V>(m: map<K, V>, k: K)
    requires k in m
    ensures |m - {k}| == |m| - 1
  {
    assert (m - {k}).Keys == m.Keys - {k};
    assert |m.Keys| == |m| && |(m - {k}).Keys| == |m - {k}|;
  }

  lemma {:induction false} SumRemove<K(!new), V>(m: map<K, V>, f: V -> nat, k: K)
    requires k in m
    ensures Sum(m, f) == f(m[k]) + Sum(m - {k}, f)
    decreases |m|
  {
    var first :| first in m && Sum(m, f) == f(m[first]) + Sum(m - {first}, f);
    if first != k {
      Smaller(m, first);
      Smaller(m, k);
      SumRemove(m - {first}, f, k);
      SumRemove(m - {k}, f, first);
      assert m - {first} - {k} == m - {k} - {first};
    }
  }

  lemma SumAdd<K(!new), V>(m: map<K, V>, f: V -> nat, k: K, v: V)
    requires k !in m
    ensures Sum(m[k := v], f) == f(v) + Sum(m, f)
  {
    SumRemove(m[k := v], f, k);
    assert m[k := v] - {k} == m;
  }

  lemma SumUpdate<K(!new), V>(m: map<K, V>, f: V -> nat, k: K, v: V)
    requires k in m
    ensures Sum(m[k := v], f) == f(v) + Sum(m, f) - f(m[k]) && f(m[k]) <= Sum(m, f)
  {
    SumRemove(m[k := v], f, k);
    SumRemove(m, f, k);
    assert m[k := v] - {k} == m - {k};
  }

  /** Dropping entries never raises a sum. */
  lemma {:induction false} SumShrinks<K(!new), V>(part: map<K, V>, m: map<K, V>, f: V -> nat)
    requires forall k :: k in part ==> k in m && part[k] == m[k]
    ensures Sum(part, f) <= Sum(m, f)
    decreases |part|
  {
    if part != map[] {
      var k :| k in part;
      Smaller(part, k);
      SumRemove(part, f, k);
      SumRemove(m, f, k);
      SumShrinks(part - {k}, m - {k}, f);
    }
  }

  lemma SizeShrinks<K, V>(part: map<K, V>, m: map<K, V>)
    requires forall k :: k in part ==> k in m
    ensures |part| <= |m|
  {
    SubsetSize(part.Keys, m.Keys);
    assert |part.Keys| == |part| && |m.Keys| == |m|;
  }

  lemma {:induction false} SubsetSize<K>(a: set<K>, b: set<K>)
    requires a <= b
    ensures |a| <= |b|
  {
    if a != {} {
      var x :| x in a;
      SubsetSize(a - {x}, b - {x});
    }
  }
}
