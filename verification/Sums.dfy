/** Totals over finite maps, independent of the order in which the entries are visited. */
module Sums {

  ghost function Sum(m: map<string, int>): int
    decreases |m.Keys|
  {
    if m == map[] then 0
    else
      var k :| k in m;
      assert (m - {k}).Keys == m.Keys - {k};
      m[k] + Sum(m - {k})
  }

  /** Any entry may be taken out first. */
  lemma {:induction false} SumWithout(m: map<string, int>, k: string)
    requires k in m
    ensures Sum(m) == m[k] + Sum(m - {k})
    decreases |m.Keys|
  {
    assert (m - {k}).Keys == m.Keys - {k};
    var j :| j in m && Sum(m) == m[j] + Sum(m - {j});
    assert (m - {j}).Keys == m.Keys - {j};
    if j != k {
      SumWithout(m - {j}, k);
      SumWithout(m - {k}, j);
      assert m - {j} - {k} == m - {k} - {j};
    }
  }

  lemma SumInsert(m: map<string, int>, k: string, v: int)
    ensures Sum(m[k := v]) == Sum(m) - (if k in m then m[k] else 0) + v
  {
    SumWithout(m[k := v], k);
    assert m[k := v] - {k} == m - {k};
    if k in m {
      SumWithout(m, k);
    } else {
      assert m - {k} == m;
    }
  }

  lemma {:induction false} SumNonNegative(m: map<string, int>)
    requires forall k :: k in m ==> m[k] >= 0
    ensures Sum(m) >= 0
    ensures forall k :: k in m ==> m[k] <= Sum(m)
    decreases |m.Keys|
  {
    forall k | k in m
      ensures m[k] <= Sum(m) && Sum(m) >= 0
    {
      assert (m - {k}).Keys == m.Keys - {k};
      SumWithout(m, k);
      SumNonNegative(m - {k});
    }
  }

  /** Entries at zero do not count. */
  lemma {:induction false} SumPadded(m: map<string, int>, f: map<string, int>)
    requires f.Keys <= m.Keys && forall k :: k in m ==> m[k] == if k in f then f[k] else 0
    ensures Sum(m) == Sum(f)
    decreases |m.Keys|
  {
    if m.Keys != {} {
      var k :| k in m.Keys;
      assert (m - {k}).Keys == m.Keys - {k} && (f - {k}).Keys == f.Keys - {k};
      SumWithout(m, k);
      SumPadded(m - {k}, f - {k});
      if k in f {
        SumWithout(f, k);
      } else {
        assert f - {k} == f;
      }
    } else {
      assert m == map[] && f == map[];
    }
  }
}
