/** Sums over a table keyed by market. */
module Totals {
  ghost function Sum(m: map<string, int>): int {
    if m == map[] then 0
    else
      var k :| k in m;
      m[k] + Sum(m - {k})
  }

  lemma {:induction false} SumRemove(m: map<string, int>, k: string)
    requires k in m
    ensures Sum(m) == m[k] + Sum(m - {k})
    decreases |m|
  {
    var first :| first in m && Sum(m) == m[first] + Sum(m - {first});
    if first != k {
      SumRemove(m - {first}, k);
      SumRemove(m - {k}, first);
      assert m - {first} - {k} == m - {k} - {first};
    }
  }

  /** Rewriting one row moves the sum by the difference of that row. */
  lemma SumUpdate(m: map<string, int>, k: string, v: int)
    ensures Sum(m[k := v]) == Sum(m) - (if k in m then m[k] else 0) + v
  {
    SumRemove(m[k := v], k);
    if k in m {
      SumRemove(m, k);
      assert m[k := v] - {k} == m - {k};
    } else {
      assert m[k := v] - {k} == m;
    }
  }

  /** A table that differs from another by `d` on its markets, and holds zeros elsewhere. */
  lemma {:induction false} SumShifted(a: map<string, int>, b: map<string, int>, d: map<string, int>)
    requires a.Keys <= b.Keys && d.Keys == a.Keys
    requires forall k :: k in b ==> b[k] == if k in a then a[k] + d[k] else 0
    ensures Sum(b) == Sum(a) + Sum(d)
    decreases |b|
  {
    if b == map[] {
      assert a == map[] && d == map[];
    } else {
      var k :| k in b;
      SumRemove(b, k);
      if k in a {
        SumRemove(a, k);
        SumRemove(d, k);
        SumShifted(a - {k}, b - {k}, d - {k});
      } else {
        SumShifted(a, b - {k}, d);
      }
    }
  }

  /** A table that may also gain markets, with `d` the change on each of its own. */
  lemma {:induction false} SumMoved(a: map<string, int>, b: map<string, int>, d: map<string, int>)
    requires a.Keys <= b.Keys && d.Keys == b.Keys
    requires forall k :: k in b ==> b[k] == d[k] + if k in a then a[k] else 0
    ensures Sum(b) == Sum(a) + Sum(d)
    decreases |b|
  {
    if b == map[] {
      assert a == map[] && d == map[];
    } else {
      var k :| k in b;
      SumRemove(b, k);
      SumRemove(d, k);
      if k in a {
        SumRemove(a, k);
        SumMoved(a - {k}, b - {k}, d - {k});
      } else {
        SumMoved(a, b - {k}, d - {k});
      }
    }
  }

  lemma {:induction false} SumNotPositive(m: map<string, int>)
    requires forall k :: k in m ==> m[k] <= 0
    ensures Sum(m) <= 0
    decreases |m|
  {
    if m != map[] {
      var k :| k in m && Sum(m) == m[k] + Sum(m - {k});
      SumNotPositive(m - {k});
    }
  }
}
