/** Sums over the values of a map. */
module Tally {

  ghost function Sum<K>(m: map<K, nat>): nat
  {
    if m == map[] then 0
    else
      var k :| k in m;
      m[k] + Sum(m - {k})
  }

  /** Any key can be taken out first. */
  lemma {:induction false} SumWithout<K>(m: map<K, nat>, k: K)
    requires k in m
    ensures Sum(m) == m[k] + Sum(m - {k})
    decreases |m|
  {
    var j :| j in m && Sum(m) == m[j] + Sum(m - {j});
    if j != k {
      assert |m - {j}| < |m| by { assert (m - {j}).Keys == m.Keys - {j}; }
      SumWithout(m - {j}, k);
      SumWithout(m - {k}, j) by { assert |m - {k}| < |m| by { assert (m - {k}).Keys == m.Keys - {k}; } }
      assert (m - {j}) - {k} == (m - {k}) - {j};
    }
  }

  lemma {:induction false} SumUpdate<K>(m: map<K, nat>, k: K, v: nat)
    ensures Sum(m[k := v]) + (if k in m then m[k] else 0) == Sum(m) + v
  {
    SumWithout(m[k := v], k);
    assert m[k := v] - {k} == m - {k};
    if k in m {
      SumWithout(m, k);
    } else {
      assert m - {k} == m;
    }
  }

  /** A sum is at most the number of keys times a common bound. */
  lemma {:induction false} SumBounded<K>(m: map<K, nat>, bound: nat)
    requires forall k :: k in m ==> m[k] <= bound
    ensures Sum(m) <= |m| * bound
    decreases |m|
  {
    if m != map[] {
      var k :| k in m;
      SumWithout(m, k);
      assert (m - {k}).Keys == m.Keys - {k};
      SumBounded(m - {k}, bound);
      OneMore(|m - {k}|, |m|, bound);
    }
  }

  lemma {:induction false} OneMore(a: nat, b: nat, bound: nat)
    requires b == a + 1
    ensures a * bound + bound == b * bound
  {
  }

  /** Where each of `moved` has dropped, so has the sum, by as much. */
  lemma {:induction false} SumDrops<K>(m: map<K, nat>, m': map<K, nat>, moved: set<K>)
    requires m.Keys == m'.Keys && moved <= m.Keys
    requires forall k :: k in m ==> m'[k] + (if k in moved then 1 else 0) <= m[k]
    ensures Sum(m') + |moved| <= Sum(m)
    decreases |m|
  {
    if m == map[] {
      assert m' == map[];
      assert moved == {};
    } else {
      var k :| k in m;
      SumWithout(m, k);
      SumWithout(m', k);
      assert |m - {k}| < |m| by { assert (m - {k}).Keys == m.Keys - {k}; }
      assert (m' - {k}).Keys == (m - {k}).Keys;
      SumDrops(m - {k}, m' - {k}, moved - {k});
      if k !in moved {
        assert moved - {k} == moved;
      }
    }
  }
}
