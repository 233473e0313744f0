/**
 The sum of the values of a finite map: account balances, tallies and points are all summed over
 the accounts that hold them.
 */
module MapSum {
  ghost function Sum<K>(m: map<K, nat>): nat
    decreases |m|
  {
    if m == map[] then 0
    else
      var k :| k in m;
      m[k] + Sum(m - {k})
  }

  /** The sum does not depend on the order in which the keys are taken out. */
  lemma {:induction false} SumRemove<K>(m: map<K, nat>, k: K)
    requires k in m
    ensures Sum(m) == m[k] + Sum(m - {k})
    decreases |m|
  {
    var j :| j in m && Sum(m) == m[j] + Sum(m - {j});
    if j != k {
      SumRemove(m - {j}, k);
      SumRemove(m - {k}, j);
      assert m - {j} - {k} == m - {k} - {j};
    }
  }

  lemma SumUpdate<K>(m: map<K, nat>, k: K, v: nat)
    ensures Sum(m[k := v]) == Sum(m) - (if k in m then m[k] else 0) + v
  {
    SumRemove(m[k := v], k);
    if k in m {
      SumRemove(m, k);
    }
    assert m[k := v] - {k} == m - {k};
    assert k !in m ==> m - {k} == m;
  }

  lemma SumBoundsEach<K>(m: map<K, nat>, k: K)
    requires k in m
    ensures m[k] <= Sum(m)
  {
    SumRemove(m, k);
  }

  lemma SumBoundsPair<K>(m: map<K, nat>, j: K, k: K)
    requires j in m && k in m && j != k
    ensures m[j] + m[k] <= Sum(m)
  {
    SumRemove(m, j);
    SumRemove(m - {j}, k);
  }

  lemma AddScaled(a: int, b: int, restA: int, restB: int, d: int, n: int)
    requires a * d <= b * n && restA * d <= restB * n
    ensures (a + restA) * d <= (b + restB) * n
  {
  }

  /** Every value of `a` times `d` is at most the value of `b` times `n`. */
  ghost predicate ScaledBelow<K>(a: map<K, nat>, b: map<K, nat>, d: nat, n: nat) {
    a.Keys == b.Keys && forall k :: k in a ==> a[k] * d <= b[k] * n
  }

  /** A pointwise bound between two weighted maps is a bound between the weighted sums. */
  lemma {:induction false} SumScaled<K>(a: map<K, nat>, b: map<K, nat>, d: nat, n: nat)
    requires ScaledBelow(a, b, d, n)
    ensures Sum(a) * d <= Sum(b) * n
    decreases |a|
  {
    if a != map[] {
      var k :| k in a;
      SumRemove(a, k);
      SumRemove(b, k);
      var restA, restB := Sum(a - {k}), Sum(b - {k});
      assert restA * d <= restB * n by { SumScaled(a - {k}, b - {k}, d, n); }
      AddScaled(a[k], b[k], restA, restB, d, n);
    } else {
      assert b == map[];
    }
  }

  lemma SumMonotone<K>(a: map<K, nat>, b: map<K, nat>)
    requires a.Keys == b.Keys
    requires forall k :: k in a ==> a[k] <= b[k]
    ensures Sum(a) <= Sum(b)
  {
    SumScaled(a, b, 1, 1);
  }

  /** Fewer keys with smaller values sum to less. */
  lemma {:induction false} SumSubset<K>(a: map<K, nat>, b: map<K, nat>)
    requires a.Keys <= b.Keys
    requires forall k :: k in a ==> a[k] <= b[k]
    ensures Sum(a) <= Sum(b)
    decreases |a|
  {
    if a != map[] {
      var k :| k in a;
      SumRemove(a, k);
      SumRemove(b, k);
      SumSubset(a - {k}, b - {k});
    }
  }

  lemma SumZero<K>(a: map<K, nat>)
    requires forall k :: k in a ==> a[k] == 0
    ensures Sum(a) == 0
  {
    SumScaled(a, a, 1, 0);
  }
}
