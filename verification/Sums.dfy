/** Finite sums over maps, used for byte budgets and credit totals. */
module Sums {

  ghost function Sum(m: map<nat, int>): (total: int)
    decreases |m|
  {
    if m == map[] then 0 else
    var k :| k in m;
    m[k] + Sum(m - {k})
  }

  /** The sum does not depend on the order in which keys are taken out. */
  lemma {:induction false} SumOut(m: map<nat, int>, k: nat)
    requires k in m
    ensures Sum(m) == m[k] + Sum(m - {k})
    decreases |m|
  {
    var j :| j in m && Sum(m) == m[j] + Sum(m - {j});
    if j != k {
      SumOut(m - {j}, k);
      SumOut(m - {k}, j);
      assert m - {j} - {k} == m - {k} - {j};
    }
  }

  lemma SumSet(m: map<nat, int>, k: nat, v: int)
    ensures Sum(m[k := v]) == Sum(m) + v - (if k in m then m[k] else 0)
  {
    var n := m[k := v];
    SumOut(n, k);
    if k in m {
      SumOut(m, k);
      assert n - {k} == m - {k};
    } else {
      assert n - {k} == m;
    }
  }

  lemma {:induction false} SumLeq(m: map<nat, int>, n: map<nat, int>)
    requires m.Keys == n.Keys
    requires forall k :: k in m ==> m[k] <= n[k]
    ensures Sum(m) <= Sum(n)
    decreases |m|
  {
    if m == map[] {
      assert n == map[];
    } else {
      var k :| k in m && Sum(m) == m[k] + Sum(m - {k});
      SumOut(n, k);
      SumLeq(m - {k}, n - {k});
    }
  }

  lemma {:induction false} SumNonNegative(m: map<nat, int>)
    requires forall k :: k in m ==> 0 <= m[k]
    ensures 0 <= Sum(m)
    decreases |m|
  {
    if m != map[] {
      var k :| k in m && Sum(m) == m[k] + Sum(m - {k});
      SumNonNegative(m - {k});
    }
  }
}
