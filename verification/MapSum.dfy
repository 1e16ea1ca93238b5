/** The sum of a weight over the values of a finite map. */
module MapSum {
  ghost function Total<T>(m: map<nat, T>, w: T -> int): int
    decreases |m|
  {
    if m == map[] then 0 else
      var k :| k in m;
      w(m[k]) + Total(m - {k}, w)
  }

  lemma {:induction false} TotalWithout<T>(m: map<nat, T>, w: T -> int, k: nat)
    requires k in m
    ensures Total(m, w) == w(m[k]) + Total(m - {k}, w)
    decreases |m|
  {
    var j :| j in m && Total(m, w) == w(m[j]) + Total(m - {j}, w);
    if j != k {
      TotalWithout(m - {j}, w, k);
      TotalWithout(m - {k}, w, j);
      assert (m - {j}) - {k} == (m - {k}) - {j};
    }
  }

  lemma TotalWith<T>(m: map<nat, T>, w: T -> int, k: nat, v: T)
    ensures k !in m ==> Total(m[k := v], w) == w(v) + Total(m, w)
    ensures k in m ==> Total(m[k := v], w) == w(v) - w(m[k]) + Total(m, w)
  {
    TotalWithout(m[k := v], w, k);
    assert m[k := v] - {k} == m - {k};
    if k in m {
      TotalWithout(m, w, k);
    } else {
      assert m - {k} == m;
    }
  }

  lemma {:induction false} TotalShrinks<T>(m: map<nat, T>, w: T -> int, gone: set<nat>)
    requires forall k :: k in m ==> w(m[k]) >= 0
    ensures 0 <= Total(m - gone, w) <= Total(m, w)
    decreases |m|
  {
    if m == map[] {
      assert m - gone == map[];
    } else {
      var k :| k in m;
      TotalWithout(m, w, k);
      TotalShrinks(m - {k}, w, gone);
      if k in gone {
        assert m - gone == (m - {k}) - gone;
      } else {
        TotalWithout(m - gone, w, k);
        assert (m - gone) - {k} == (m - {k}) - gone;
      }
    }
  }

  /** No value weighs more than the whole. */
  lemma TotalAtLeast<T>(m: map<nat, T>, w: T -> int, k: nat)
    requires k in m && forall j :: j in m ==> w(m[j]) >= 0
    ensures 0 <= w(m[k]) <= Total(m, w)
  {
    TotalWithout(m, w, k);
    TotalShrinks(m - {k}, w, {});
    assert m - {k} - {} == m - {k};
  }
}
