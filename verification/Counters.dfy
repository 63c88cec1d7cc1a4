/** Rows of counters, and their sums over tables. */
module Counters {
  import opened Prelude

  /** A stored row of counters; counters a row does not have are zero. */
  type Row = seq<nat>

  function At(a: Row, i: nat): nat { if i < |a| then a[i] else 0 }

  function Plus(a: Row, b: Row): Row {
    seq(Max(|a|, |b|), i requires 0 <= i => At(a, i) + At(b, i))
  }

  lemma PlusAssociates(a: Row, b: Row, c: Row)
    ensures Plus(Plus(a, b), c) == Plus(a, Plus(b, c))
  {
  }

  lemma PlusZero(a: Row)
    ensures Plus(a, []) == a && Plus([], a) == a
  {
  }

  /** (a + b) + c = (a + c) + b. */
  lemma PlusSwaps(a: Row, b: Row, c: Row)
    ensures Plus(Plus(a, b), c) == Plus(Plus(a, c), b)
  {
  }

  /** Every counter is a u64. */
  predicate Fits(a: Row) { forall i :: 0 <= i < |a| ==> a[i] <= U64_MAX }

  lemma FittingSumFits(a: Row, b: Row)
    requires Fits(Plus(a, b))
    ensures Fits(a)
  {
    forall i | 0 <= i < |a|
      ensures a[i] <= U64_MAX
    {
      assert Plus(a, b)[i] == At(a, i) + At(b, i);
    }
  }

  // ---------------------------------------------------------------- sums over tables

  ghost function Total<K>(m: map<K, Row>): Row {
    if m == map[] then []
    else
      var k :| k in m;
      Plus(Total(m - {k}), m[k])
  }

  lemma {:induction false} TotalTakes<K>(m: map<K, Row>, k: K)
    requires k in m
    ensures Total(m) == Plus(Total(m - {k}), m[k])
    decreases |m|
  {
    hide Plus;
    var j :| j in m && Total(m) == Plus(Total(m - {j}), m[j]);
    if j != k {
      var both := m - {j, k};
      assert m - {j} - {k} == both && m - {k} - {j} == both;
      TotalTakes(m - {j}, k);
      TotalTakes(m - {k}, j);
      PlusSwaps(Total(both), m[k], m[j]);
    }
  }

  lemma TotalAdds<K>(m: map<K, Row>, k: K, row: Row)
    requires k !in m
    ensures Total(m[k := row]) == Plus(Total(m), row)
  {
    hide Total, Plus;
    TotalTakes(m[k := row], k);
    assert m[k := row] - {k} == m;
  }

  lemma UnionTakes<K>(a: map<K, Row>, b: map<K, Row>, k: K)
    requires a.Keys !! b.Keys && k in b
    ensures a + b == (a + (b - {k}))[k := b[k]] && k !in a + (b - {k}) && a.Keys !! (b - {k}).Keys
  {
  }

  lemma {:induction false} TotalOfUnion<K>(a: map<K, Row>, b: map<K, Row>)
    requires a.Keys !! b.Keys
    ensures Total(a + b) == Plus(Total(a), Total(b))
    decreases |b|
  {
    hide Plus;
    if b == map[] {
      assert a + b == a;
      PlusZero(Total(a));
    } else {
      var k :| k in b;
      hide Total;
      UnionTakes(a, b, k);
      TotalOfUnion(a, b - {k});
      TotalAdds(a + (b - {k}), k, b[k]);
      TotalTakes(b, k);
      PlusAssociates(Total(a), Total(b - {k}), b[k]);
    }
  }

  ghost predicate Renames<C, D>(f: map<C, D>, a: map<C, Row>, b: map<D, Row>) {
    && f.Keys == a.Keys
    && (forall c :: c in f ==> f[c] in b && b[f[c]] == a[c])
    && (forall c, d :: c in f && d in f && f[c] == f[d] ==> c == d)
    && (forall d :: d in b ==> exists c :: c in f && f[c] == d)
  }

  lemma RenamesRest<C, D>(f: map<C, D>, a: map<C, Row>, b: map<D, Row>, c: C)
    requires Renames(f, a, b) && c in a
    ensures Renames(f - {c}, a - {c}, b - {f[c]})
  {
    forall x | x in b - {f[c]}
      ensures exists y :: y in f - {c} && (f - {c})[y] == x
    {
      var y :| y in f && f[y] == x;
      assert y in f - {c} && (f - {c})[y] == x;
    }
  }

  lemma RenamesNothing<C, D>(f: map<C, D>, a: map<C, Row>, b: map<D, Row>)
    requires Renames(f, a, b) && a == map[]
    ensures b == map[]
  {
    assert f.Keys == {};
    assert b.Keys == {};
  }

  /** A one-to-one renaming of the keys does not change the total. */
  lemma {:induction false} TotalOfRenamed<C, D>(f: map<C, D>, a: map<C, Row>, b: map<D, Row>)
    requires Renames(f, a, b)
    ensures Total(a) == Total(b)
    decreases |a|
  {
    hide Plus;
    if a == map[] {
      RenamesNothing(f, a, b);
    } else {
      var c :| c in a;
      hide Total;
      assert f[c] in b && b[f[c]] == a[c];
      RenamesRest(f, a, b, c);
      hide Renames;
      TotalTakes(a, c);
      TotalTakes(b, f[c]);
      TotalOfRenamed(f - {c}, a - {c}, b - {f[c]});
    }
  }
}
