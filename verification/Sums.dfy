// Sums over finite maps, the arithmetic behind the conservation laws.
module Sums {

  ghost function Sum<K>(m: map<K, int>): int
    decreases |m|
  {
    if m == map[] then 0 else
      var k :| k in m;
      assert |m - {k}| < |m| by { Smaller(m, k); }
      m[k] + Sum(m - {k})
  }

  lemma Smaller<K>(m: map<K, int>, k: K)
    requires k in m
    ensures |m - {k}| < |m|
  {
    assert (m - {k}).Keys == m.Keys - {k};
    assert |(m - {k}).Keys| < |m.Keys|;
  }

  // The sum does not depend on the order in which keys are taken.
  lemma {:induction false} SumRemove<K>(m: map<K, int>, k: K)
    requires k in m
    ensures Sum(m) == m[k] + Sum(m - {k})
    decreases |m|
  {
    var first :| first in m && Sum(m) == m[first] + Sum(m - {first});
    if first != k {
      Smaller(m, first);
      Smaller(m, k);
      SumRemove(m - {first}, k);
      SumRemove(m - {k}, first);
      assert m - {first} - {k} == m - {k} - {first};
    }
  }

  // Writing one entry moves the sum by the change of that entry.
  lemma SumPut<K>(m: map<K, int>, k: K, v: int)
    ensures Sum(m[k := v]) == Sum(m) + v - (if k in m then m[k] else 0)
  {
    var n := m[k := v];
    SumRemove(n, k);
    if k in m {
      SumRemove(m, k);
      assert n - {k} == m - {k};
    } else {
      assert n - {k} == m;
    }
  }

  // Two maps that differ at one key only.
  lemma SumChange<K>(m: map<K, int>, n: map<K, int>, k: K)
    requires n.Keys == m.Keys + {k}
    requires forall x :: x in m && x != k ==> n[x] == m[x]
    ensures Sum(n) == Sum(m) + n[k] - (if k in m then m[k] else 0)
  {
    assert n == m[k := n[k]];
    SumPut(m, k, n[k]);
  }

  // New entries of zero do not count.
  lemma {:induction false} SumExtend<K>(m: map<K, int>, n: map<K, int>)
    requires m.Keys <= n.Keys && forall x :: x in n ==> n[x] == if x in m then m[x] else 0
    ensures Sum(n) == Sum(m)
    decreases |n|
  {
    if k :| k in n && k !in m {
      SumRemove(n, k);
      Smaller(n, k);
      SumExtend(m, n - {k});
    } else {
      assert n == m;
    }
  }

  lemma {:induction false} SumNotNegative<K>(m: map<K, int>)
    requires forall k :: k in m ==> m[k] >= 0
    ensures Sum(m) >= 0
    decreases |m|
  {
    if m != map[] {
      var k :| k in m && Sum(m) == m[k] + Sum(m - {k});
      Smaller(m, k);
      SumNotNegative(m - {k});
    }
  }
}
