/** Sums of the values of a finite map, the form in which conservation laws are stated. */
module Sums {

  ghost function Sum<K(!new)>(m: map<K, int>): int
    decreases |m|
  {
    if m == map[] then 0
    else
      var k :| k in m;
      m[k] + Sum(m - {k})
  }

  /** The sum does not depend on the order in which the keys are picked. */
  lemma {:induction false} SumSplit<K(!new)>(m: map<K, int>, k: K)
    requires k in m
    ensures Sum(m) == m[k] + Sum(m - {k})
    decreases |m|
  {
    var j :| j in m && Sum(m) == m[j] + Sum(m - {j});
    if j != k {
      SumSplit(m - {j}, k);
      SumSplit(m - {k}, j);
      assert m - {j} - {k} == m - {k} - {j};
    }
  }

  lemma SumPut<K(!new)>(m: map<K, int>, k: K, v: int)
    ensures Sum(m[k := v]) == Sum(m - {k}) + v
    ensures k !in m ==> Sum(m[k := v]) == Sum(m) + v
    ensures k in m ==> Sum(m[k := v]) == Sum(m) - m[k] + v
  {
    SumSplit(m[k := v], k);
    assert m[k := v] - {k} == m - {k};
    if k in m {
      SumSplit(m, k);
    } else {
      assert m - {k} == m;
    }
  }

  lemma {:induction false} SumNonNegative<K(!new)>(m: map<K, int>)
    requires forall k <- m :: m[k] >= 0
    ensures Sum(m) >= 0
    decreases |m|
  {
    if m != map[] {
      var k :| k in m && Sum(m) == m[k] + Sum(m - {k});
      SumNonNegative(m - {k});
    }
  }

  lemma SumAtLeast<K(!new)>(m: map<K, int>, k: K)
    requires k in m && forall j <- m :: m[j] >= 0
    ensures m[k] <= Sum(m)
  {
    SumSplit(m, k);
    SumNonNegative(m - {k});
  }

  lemma SumAtLeastTwo<K(!new)>(m: map<K, int>, j: K, k: K)
    requires j in m && k in m && j != k && forall i <- m :: m[i] >= 0
    ensures m[j] + m[k] <= Sum(m)
  {
    SumSplit(m, j);
    SumAtLeast(m - {j}, k);
  }

  lemma OneMore(n: nat, x: int)
    ensures (n + 1) * x == n * x + x
  {
  }

  /** A bound on every value bounds the sum. */
  lemma {:induction false} SumBounds<K(!new)>(m: map<K, int>, low: int, high: int)
    requires forall k <- m :: low <= m[k] <= high
    ensures |m| * low <= Sum(m) <= |m| * high
    decreases |m|
  {
    if m != map[] {
      var k :| k in m && Sum(m) == m[k] + Sum(m - {k});
      assert |m - {k}| == |m| - 1;
      SumBounds(m - {k}, low, high);
      OneMore(|m| - 1, low);
      OneMore(|m| - 1, high);
    }
  }
}
