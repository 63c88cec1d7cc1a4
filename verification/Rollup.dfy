/** A rollup table: rows of counters by key, each incremented once per contribution. */
module Rollup {
  import opened Prelude
  import opened Counters

  /** What one contribution added, and to which key. */
  datatype Entry<K> = Entry(key: K, amount: Row)

  function Get<K>(t: map<K, Row>, k: K): Row { if k in t then t[k] else [] }

  /** The read-modify-write of one row; the checked addition of a counter may overflow. */
  function Increment<K>(t: map<K, Row>, k: K, amount: Row): Result<map<K, Row>, string> {
    var row := Plus(Get(t, k), amount);
    if Fits(row) then Ok(t[k := row]) else Err("statistics overflow")
  }

  ghost function AmountsIn<C, K>(m: map<C, Entry<K>>, keys: set<K>): map<C, Row> {
    map c | c in m && m[c].key in keys :: m[c].amount
  }

  /** The table holds, for each key, the total of the contributions made to it. */
  ghost predicate Indexes<C, K>(t: map<K, Row>, m: map<C, Entry<K>>) {
    && (forall c :: c in m ==> m[c].key in t)
    && (forall k :: k in t ==> t[k] == Total(AmountsIn(m, {k})))
  }

  lemma AmountsInMore<C, K>(m: map<C, Entry<K>>, c: C, e: Entry<K>, keys: set<K>)
    requires c !in m
    ensures AmountsIn(m[c := e], keys)
            == if e.key in keys then AmountsIn(m, keys)[c := e.amount] else AmountsIn(m, keys)
  {
  }

  lemma NothingIn<C, K>(m: map<C, Entry<K>>, k: K)
    requires forall c :: c in m ==> m[c].key != k
    ensures AmountsIn(m, {k}) == map[]
  {
  }

  lemma GetIsTotal<C, K>(t: map<K, Row>, m: map<C, Entry<K>>, k: K)
    requires Indexes(t, m)
    ensures Get(t, k) == Total(AmountsIn(m, {k}))
  {
    if k !in t {
      NothingIn(m, k);
    }
  }

  lemma IncrementIndexes<C, K>(t: map<K, Row>, m: map<C, Entry<K>>, c: C, e: Entry<K>)
    requires Indexes(t, m) && c !in m
    ensures Indexes(t[e.key := Plus(Get(t, e.key), e.amount)], m[c := e])
  {
    var u, n := t[e.key := Plus(Get(t, e.key), e.amount)], m[c := e];
    GetIsTotal(t, m, e.key);
    TotalAdds(AmountsIn(m, {e.key}), c, e.amount);
    hide Total, Plus, AmountsIn;
    forall k | k in u
      ensures u[k] == Total(AmountsIn(n, {k}))
    {
      AmountsInMore(m, c, e, {k});
    }
  }

  lemma NothingIndexes<C, K>()
    ensures Indexes<C, K>(map[], map[])
  {
  }

  /** Dropping keys drops exactly the contributions made to them. */
  lemma DropIndexes<C, K>(t: map<K, Row>, m: map<C, Entry<K>>, u: map<K, Row>, n: map<C, Entry<K>>)
    requires Indexes(t, m)
    requires forall k :: k in u ==> k in t && u[k] == t[k]
    requires forall c :: c in n <==> c in m && m[c].key in u
    requires forall c :: c in n ==> n[c] == m[c]
    ensures Indexes(u, n)
  {
    hide Total;
    forall k | k in u
      ensures u[k] == Total(AmountsIn(n, {k}))
    {
      assert AmountsIn(n, {k}) == AmountsIn(m, {k});
    }
  }

  ghost function RowsOf<K>(t: map<K, Row>, keys: set<K>): map<K, Row>
    requires keys <= t.Keys
  {
    map k | k in keys :: t[k]
  }

  lemma AmountsApart<C, K>(m: map<C, Entry<K>>, keys: set<K>, k: K)
    requires k in keys
    ensures AmountsIn(m, keys - {k}).Keys !! AmountsIn(m, {k}).Keys
    ensures AmountsIn(m, keys - {k}) + AmountsIn(m, {k}) == AmountsIn(m, keys)
  {
    var a, b := AmountsIn(m, keys - {k}), AmountsIn(m, {k});
    assert (a + b).Keys == AmountsIn(m, keys).Keys;
  }

  /** Adding up the rows of some keys adds up the contributions made to those keys. */
  lemma {:induction false} RowsAreContributions<C, K>(t: map<K, Row>, m: map<C, Entry<K>>, keys: set<K>)
    requires Indexes(t, m) && keys <= t.Keys
    ensures Total(RowsOf(t, keys)) == Total(AmountsIn(m, keys))
  {
    if keys == {} {
      assert AmountsIn(m, keys) == map[] && RowsOf(t, keys) == map[];
    } else {
      var k :| k in keys;
      assert t[k] == Total(AmountsIn(m, {k}));
      hide *;
      RowsAreContributions(t, m, keys - {k});
      AmountsApart(m, keys, k);
      TotalOfUnion(AmountsIn(m, keys - {k}), AmountsIn(m, {k}));
      RowsApart(t, keys, k);
      TotalAdds(RowsOf(t, keys - {k}), k, t[k]);
    }
  }

  lemma RowsApart<K>(t: map<K, Row>, keys: set<K>, k: K)
    requires keys <= t.Keys && k in keys
    ensures k !in RowsOf(t, keys - {k}) && RowsOf(t, keys) == RowsOf(t, keys - {k})[k := t[k]]
  {
  }
}
