/** The loops of the queries: rows of a table range are added up one by one, with checked
  * additions. */
module StoreReads {
  import opened Prelude
  import opened Counters
  import opened Rollup
  import opened StoreModel
  import opened StoreQueries

  // ---------------------------------------------------------------- totals by scope

  function WithRow(res: RoutingRollup, scope: Scope, row: Row): RoutingRollup {
    match scope
    case ModelScope => res.(total := Plus(res.total, row))
    case TargetScope(route) => res.(targets := res.targets[route := Plus(Get(res.targets, route), row)])
    case UnattributedScope => res.(unattributed := Plus(res.unattributed, row))
  }

  /** Adds one table row to the total its scope belongs to. */
  method AccumulateRow(res: RoutingRollup, scope: Scope, row: Row) returns (r: Result<RoutingRollup, string>)
    ensures r == if Fits(Plus(res.Of(scope), row)) then Ok(WithRow(res, scope, row)) else Err("statistics overflow")
  {
    match scope {
      case ModelScope =>
        if Fits(Plus(res.total, row)) { return Ok(res.(total := Plus(res.total, row))); }
      case TargetScope(route) =>
        var targets := Increment(res.targets, route, row);
        if targets.Ok? { return Ok(res.(targets := targets.value)); }
      case UnattributedScope =>
        if Fits(Plus(res.unattributed, row)) { return Ok(res.(unattributed := Plus(res.unattributed, row))); }
    }
    return Err("statistics overflow");
  }

  lemma AmountsGrow<C, K>(m: map<C, Entry<K>>, c: C, e: Entry<K>, k: K)
    requires c !in m
    ensures Total(AmountsIn(m[c := e], {k}))
            == if k == e.key then Plus(Total(AmountsIn(m, {k})), e.amount) else Total(AmountsIn(m, {k}))
  {
    hide Total, Plus;
    AmountsInMore(m, c, e, {k});
    if k == e.key {
      TotalAdds(AmountsIn(m, {k}), c, e.amount);
    }
  }

  lemma WithRowAccounts<C>(res: RoutingRollup, m: map<C, Entry<Scope>>, c: C, e: Entry<Scope>)
    requires Accounts(res, m) && c !in m
    ensures Accounts(WithRow(res, e.key, e.amount), m[c := e])
    ensures Plus(res.Of(e.key), e.amount) == Total(AmountsIn(m[c := e], {e.key}))
  {
    hide Total, Plus, AmountsIn;
    var out, n := WithRow(res, e.key, e.amount), m[c := e];
    forall s: Scope
      ensures out.Of(s) == Total(AmountsIn(n, {s}))
    {
      AmountsGrow(m, c, e, s);
    }
    AmountsGrow(m, c, e, e.key);
    forall r | r in out.targets
      ensures exists d :: d in n && n[d].key == TargetScope(r)
    {
      if e.key == TargetScope(r) {
        assert n[c].key == TargetScope(r);
      } else {
        var d :| d in m && m[d].key == TargetScope(r);
        assert n[d].key == TargetScope(r);
      }
    }
  }

  lemma NothingAccounts<C>()
    ensures Accounts<C>(NO_ROLLUP, map[])
  {
  }

  // ---------------------------------------------------------------- overflow

  /** A total that fits keeps every partial total within bounds. */
  lemma PartFits<C>(m: map<C, Row>, part: map<C, Row>)
    requires part.Keys <= m.Keys && (forall c :: c in part ==> part[c] == m[c]) && Fits(Total(m))
    ensures Fits(Total(part))
  {
    hide Total, Plus, Fits;
    TotalOfUnion(part, m - part.Keys);
    assert part + (m - part.Keys) == m;
    FittingSumFits(Total(part), Total(m - part.Keys));
  }

  ghost predicate AllFit<C, K(!new)>(m: map<C, Entry<K>>) { forall k: K :: Fits(Total(AmountsIn(m, {k}))) }

  ghost predicate Part<C, K>(m: map<C, Entry<K>>, whole: map<C, Entry<K>>) {
    m.Keys <= whole.Keys && forall c :: c in m ==> m[c] == whole[c]
  }

  lemma PartsFit<C, K(!new)>(m: map<C, Entry<K>>, whole: map<C, Entry<K>>, k: K)
    requires Part(m, whole) && !Fits(Total(AmountsIn(m, {k})))
    ensures !AllFit(whole)
  {
    hide Total, Fits;
    if Fits(Total(AmountsIn(whole, {k}))) {
      PartFits(AmountsIn(whole, {k}), AmountsIn(m, {k}));
    }
  }

  lemma PartOfPart<C, K>(a: map<C, Entry<K>>, b: map<C, Entry<K>>, c: map<C, Entry<K>>)
    requires Part(a, b) && Part(b, c)
    ensures Part(a, c)
  {
  }

  ghost predicate Underway<C, K>(done: map<C, Entry<K>>, left: set<C>, seen: map<C, Entry<K>>,
                              rows: map<C, Entry<K>>)
  {
    left <= rows.Keys && done.Keys == seen.Keys + (rows.Keys - left) && Part(done, seen + rows)
  }

  lemma StillUnderway<C, K>(done: map<C, Entry<K>>, left: set<C>, seen: map<C, Entry<K>>,
                         rows: map<C, Entry<K>>, c: C)
    requires Underway(done, left, seen, rows) && c in left && seen.Keys !! rows.Keys
    ensures c !in done && Underway(done[c := rows[c]], left - {c}, seen, rows)
  {
  }

  lemma AllDone<C, K>(done: map<C, Entry<K>>, seen: map<C, Entry<K>>, rows: map<C, Entry<K>>)
    requires Underway(done, {}, seen, rows)
    ensures done == seen + rows
  {
  }

  lemma NothingDone<C, K>(seen: map<C, Entry<K>>, rows: map<C, Entry<K>>)
    requires seen.Keys !! rows.Keys
    ensures Underway(seen, rows.Keys, seen, rows)
  {
  }

  /** Adds the rows of one range to a result; it fails only when some total of `whole`, which
    * all the rows of the query belong to, does not fit. */
  method AddRows<K(==)>(rows: map<K, Entry<Scope>>, res: RoutingRollup, ghost seen: map<K, Entry<Scope>>,
                        ghost whole: map<K, Entry<Scope>>)
    returns (r: Result<RoutingRollup, string>)
    requires Accounts(res, seen) && AllFit(seen) && seen.Keys !! rows.Keys && Part(seen + rows, whole)
    ensures r.Ok? ==> Accounts(r.value, seen + rows) && AllFit(seen + rows)
    ensures r.Err? ==> !AllFit(whole)
  {
    hide Accounts, AllFit, Total, AmountsIn, WithRow, Plus, Fits, Part;
    r := Ok(res);
    var left := rows.Keys;
    ghost var done := seen;
    NothingDone(seen, rows);
    while left != {}
      invariant r.Ok? && Underway(done, left, seen, rows)
      invariant Accounts(r.value, done) && AllFit(done)
      decreases |left|
    {
      var k :| k in left;
      StillUnderway(done, left, seen, rows, k);
      WithRowAccounts(r.value, done, k, rows[k]);
      ghost var more := done[k := rows[k]];
      r := AccumulateRow(r.value, rows[k].key, rows[k].amount);
      if r.Err? {
        PartOfPart(more, seen + rows, whole);
        PartsFit(more, whole, rows[k].key);
        return;
      }
      StillFit(done, k, rows[k]);
      done, left := more, left - {k};
    }
    AllDone(done, seen, rows);
  }

  lemma StillFit<C, K(!new)>(m: map<C, Entry<K>>, c: C, e: Entry<K>)
    requires AllFit(m) && c !in m && Fits(Total(AmountsIn(m[c := e], {e.key})))
    ensures AllFit(m[c := e])
  {
    hide Total, Fits, Plus, AmountsIn;
    forall k: K
      ensures Fits(Total(AmountsIn(m[c := e], {k})))
    {
      AmountsGrow(m, c, e, k);
    }
  }

  // ---------------------------------------------------------------- the ranges of a window

  function RangeEntries(t: map<BucketKey, Row>, model: string, range: Range): map<BucketKey, Entry<Scope>> {
    map k | k in t && k.model == model && InRange(range, k.grain, k.bucket) :: Entry(k.scope, t[k])
  }

  lemma RangesMakeTheWindow(t: map<BucketKey, Row>, model: string, from: int, to: int)
    ensures var ranges := BucketRanges(from, to);
            var a, b, c := RangeEntries(t, model, ranges[0]), RangeEntries(t, model, ranges[1]),
                RangeEntries(t, model, ranges[2]);
            && a.Keys !! b.Keys && (a + b).Keys !! c.Keys
            && a + b + c == WindowEntries(t, model, from, to)
            && Part(map[] + a, a + b + c) && Part(a + b, a + b + c) && Part(a + b + c, a + b + c)
  {
    hide FloorTo, CeilTo;
  }

  lemma NothingFits<C, K(!new)>()
    ensures AllFit<C, K>(map[])
  {
    forall k: K
      ensures Fits(Total(AmountsIn<C, K>(map[], {k})))
    {
      assert AmountsIn<C, K>(map[], {k}) == map[];
    }
  }

  /** The bounded query: it succeeds exactly when every total fits, and returns those totals. */
  method ReadWindow(t: map<BucketKey, Row>, model: string, from: int, to: int)
    returns (r: Result<RoutingRollup, string>)
    ensures r.Ok? <==> AllFit(WindowEntries(t, model, from, to))
    ensures r.Ok? ==> Accounts(r.value, WindowEntries(t, model, from, to))
  {
    hide Accounts, AllFit, RangeEntries, WindowEntries, BucketRanges, Part;
    ghost var whole := WindowEntries(t, model, from, to);
    var ranges := BucketRanges(from, to);
    RangesMakeTheWindow(t, model, from, to);
    NothingAccounts<BucketKey>();
    NothingFits<BucketKey, Scope>();
    ghost var a, b := RangeEntries(t, model, ranges[0]), RangeEntries(t, model, ranges[1]);
    ghost var none: map<BucketKey, Entry<Scope>> := map[];
    assert none + a == a;
    r := AddRows(RangeEntries(t, model, ranges[0]), NO_ROLLUP, none, whole);
    if r.Err? { return; }
    r := AddRows(RangeEntries(t, model, ranges[1]), r.value, a, whole);
    if r.Err? { return; }
    r := AddRows(RangeEntries(t, model, ranges[2]), r.value, a + b, whole);
  }

  /** The unbounded query. */
  method ReadAllTime(t: map<AllKey, Row>, model: string) returns (r: Result<RoutingRollup, string>)
    ensures r.Ok? <==> AllFit(AllTimeEntries(t, model))
    ensures r.Ok? ==> Accounts(r.value, AllTimeEntries(t, model))
  {
    hide Accounts, AllFit;
    var rows := map k | k in t && k.model == model :: Entry(k.scope, t[k]);
    NothingAccounts<AllKey>();
    NothingFits<AllKey, Scope>();
    ghost var none: map<AllKey, Entry<Scope>> := map[];
    assert none + rows == rows;
    r := AddRows(rows, NO_ROLLUP, none, rows);
  }

  // ---------------------------------------------------------------- the overview

  /** The rows of a table of entries, added up by key; it fails only when some total of `whole`
    * does not fit. */
  method AddEntries<C(==), K(==, !new)>(rows: map<C, Entry<K>>, res: map<K, Row>, ghost seen: map<C, Entry<K>>,
                                        ghost whole: map<C, Entry<K>>)
    returns (r: Result<map<K, Row>, string>)
    requires Indexes(res, seen) && AllFit(seen) && seen.Keys !! rows.Keys && Part(seen + rows, whole)
    ensures r.Ok? ==> Indexes(r.value, seen + rows) && AllFit(seen + rows)
    ensures r.Err? ==> !AllFit(whole)
  {
    hide Indexes, AllFit, Total, AmountsIn, Plus, Fits, Part;
    r := Ok(res);
    var left := rows.Keys;
    ghost var done := seen;
    NothingDone(seen, rows);
    while left != {}
      invariant r.Ok? && Underway(done, left, seen, rows)
      invariant Indexes(r.value, done) && AllFit(done)
      decreases |left|
    {
      var c :| c in left;
      StillUnderway(done, left, seen, rows, c);
      IncrementIndexes(r.value, done, c, rows[c]);
      GetGrows(r.value, done, c, rows[c]);
      ghost var more := done[c := rows[c]];
      r := Increment(r.value, rows[c].key, rows[c].amount);
      if r.Err? {
        PartOfPart(more, seen + rows, whole);
        PartsFit(more, whole, rows[c].key);
        return;
      }
      StillFit(done, c, rows[c]);
      done, left := more, left - {c};
    }
    AllDone(done, seen, rows);
  }

  lemma GetGrows<C, K>(t: map<K, Row>, m: map<C, Entry<K>>, c: C, e: Entry<K>)
    requires Indexes(t, m) && c !in m
    ensures Plus(Get(t, e.key), e.amount) == Total(AmountsIn(m[c := e], {e.key}))
  {
    hide Total, Plus, AmountsIn;
    GetIsTotal(t, m, e.key);
    AmountsGrow(m, c, e, e.key);
  }

  function AttemptRangeEntries(t: map<AttemptBucketKey, Row>, range: Range): map<AttemptBucketKey, Entry<AttemptKey>> {
    map k | k in t && InRange(range, k.grain, k.bucket) :: Entry(k.key, t[k])
  }

  ghost function AttemptWindowEntries(t: map<AttemptBucketKey, Row>, from: int, to: int)
    : map<AttemptBucketKey, Entry<AttemptKey>>
  {
    map k | k in t && AttemptInWindow(k, from, to) :: Entry(k.key, t[k])
  }

  lemma AttemptRangesMakeTheWindow(t: map<AttemptBucketKey, Row>, from: int, to: int)
    ensures var ranges := BucketRanges(from, to);
            var a, b, c := AttemptRangeEntries(t, ranges[0]), AttemptRangeEntries(t, ranges[1]),
                AttemptRangeEntries(t, ranges[2]);
            && a.Keys !! b.Keys && (a + b).Keys !! c.Keys
            && a + b + c == AttemptWindowEntries(t, from, to)
            && Part(map[] + a, a + b + c) && Part(a + b, a + b + c) && Part(a + b + c, a + b + c)
  {
    hide FloorTo, CeilTo;
  }

  /** The attempts of a window by backend and model: it succeeds exactly when every total fits. */
  method ReadAttemptWindow(t: map<AttemptBucketKey, Row>, from: int, to: int)
    returns (r: Result<map<AttemptKey, Row>, string>)
    ensures r.Ok? <==> AllFit(AttemptWindowEntries(t, from, to))
    ensures r.Ok? ==> Indexes(r.value, AttemptWindowEntries(t, from, to))
  {
    hide Indexes, AllFit, AttemptRangeEntries, AttemptWindowEntries, BucketRanges, Part;
    ghost var whole := AttemptWindowEntries(t, from, to);
    var ranges := BucketRanges(from, to);
    AttemptRangesMakeTheWindow(t, from, to);
    NothingIndexes<AttemptBucketKey, AttemptKey>();
    NothingFits<AttemptBucketKey, AttemptKey>();
    ghost var a, b := AttemptRangeEntries(t, ranges[0]), AttemptRangeEntries(t, ranges[1]);
    ghost var none: map<AttemptBucketKey, Entry<AttemptKey>> := map[];
    assert none + a == a;
    r := AddEntries(AttemptRangeEntries(t, ranges[0]), map[], none, whole);
    if r.Err? { return; }
    r := AddEntries(AttemptRangeEntries(t, ranges[1]), r.value, a, whole);
    if r.Err? { return; }
    r := AddEntries(AttemptRangeEntries(t, ranges[2]), r.value, a + b, whole);
  }

  lemma AttemptWindowRows(t: map<AttemptBucketKey, Row>, key: AttemptKey, from: int, to: int)
    ensures AmountsIn(AttemptWindowEntries(t, from, to), {key}) == RowsOf(t, AttemptWindowKeys(t, key, from, to))
  {
    hide InWindow;
  }

  function KnownModels(t: map<AllKey, Row>): set<string> { set k | k in t && k.scope.ModelScope? :: k.model }

  /** The bucket rows the overview reads: those of the models known to the all-time table. */
  ghost function OverviewKeys(t: map<BucketKey, Row>, models: set<string>, from: int, to: int): (keys: set<BucketKey>)
    ensures keys <= t.Keys
  {
    set k | k in t && k.model in models && k.scope.ModelScope? && InWindow(k.grain, k.bucket, from, to)
  }

  lemma OneMoreModel(t: map<BucketKey, Row>, models: set<string>, model: string, from: int, to: int)
    requires model !in models
    ensures Total(RowsOf(t, OverviewKeys(t, models + {model}, from, to)))
            == Plus(Total(RowsOf(t, OverviewKeys(t, models, from, to))),
                    Total(RowsOf(t, WindowKeys(t, Some(model), ModelScope, from, to))))
  {
    hide Total, InWindow, Plus;
    var a, b := RowsOf(t, OverviewKeys(t, models, from, to)),
        RowsOf(t, WindowKeys(t, Some(model), ModelScope, from, to));
    TotalOfUnion(a, b);
    assert a + b == RowsOf(t, OverviewKeys(t, models + {model}, from, to));
  }

  lemma ModelTotal(t: map<BucketKey, Row>, model: string, from: int, to: int, res: RoutingRollup)
    requires Accounts(res, WindowEntries(t, model, from, to))
    ensures res.total == Total(RowsOf(t, WindowKeys(t, Some(model), ModelScope, from, to)))
  {
    hide Total, InWindow, WindowEntries, WindowKeys, RowsOf, AmountsIn;
    WindowRows(t, model, ModelScope, from, to);
    assert res.Of(ModelScope) == res.total;
  }

  lemma NoModels(t: map<BucketKey, Row>, from: int, to: int)
    ensures Total(RowsOf(t, OverviewKeys(t, {}, from, to))) == [] && Fits([])
  {
    hide InWindow;
    assert RowsOf(t, OverviewKeys(t, {}, from, to)) == map[];
  }

  /** Whether the window of every model can be added up, and the sum of them too. */
  ghost predicate OverviewFits(t: map<BucketKey, Row>, models: set<string>, from: int, to: int) {
    && (forall model :: model in models ==> AllFit(WindowEntries(t, model, from, to)))
    && Fits(Total(RowsOf(t, OverviewKeys(t, models, from, to))))
  }

  lemma SomeModelsFit(t: map<BucketKey, Row>, some: set<string>, models: set<string>, from: int, to: int)
    requires some <= models && Fits(Total(RowsOf(t, OverviewKeys(t, models, from, to))))
    ensures Fits(Total(RowsOf(t, OverviewKeys(t, some, from, to))))
  {
    hide Total, Fits, InWindow;
    PartFits(RowsOf(t, OverviewKeys(t, models, from, to)), RowsOf(t, OverviewKeys(t, some, from, to)));
  }

  /** The requests of all models in a window: it succeeds exactly when every total fits. */
  method ReadOverview(t: map<BucketKey, Row>, models: set<string>, from: int, to: int) returns (r: Result<Row, string>)
    ensures r.Ok? <==> OverviewFits(t, models, from, to)
    ensures r.Ok? ==> r.value == Total(RowsOf(t, OverviewKeys(t, models, from, to)))
  {
    hide Accounts, AllFit, Total, RowsOf, WindowKeys, OverviewKeys, WindowEntries, Plus, Fits;
    NoModels(t, from, to);
    r := Ok([]);
    var left := models;
    ghost var seen: set<string> := {};
    while left != {}
      invariant left <= models && seen == models - left && r.Ok?
      invariant r.value == Total(RowsOf(t, OverviewKeys(t, seen, from, to))) && OverviewFits(t, seen, from, to)
      decreases |left|
    {
      var model :| model in left;
      var one := ReadWindow(t, model, from, to);
      if one.Err? {
        return Err(one.error);
      }
      ModelTotal(t, model, from, to, one.value);
      OneMoreModel(t, seen, model, from, to);
      var sum := Plus(r.value, one.value.total);
      if !Fits(sum) {
        if OverviewFits(t, models, from, to) {
          SomeModelsFit(t, seen + {model}, models, from, to);
        }
        return Err("statistics overflow");
      }
      r, seen, left := Ok(sum), seen + {model}, left - {model};
      assert seen == models - left;
    }
    assert seen == models;
  }
}
