/** What the counters of the returned totals are: sums of the fields of ledger rows. */
module StoreFields {
  import opened Prelude
  import opened Sets
  import opened Counters
  import opened Rollup
  import opened StoreModel
  import opened StoreBooks
  import opened StoreRuns
  import opened StoreQueries
  import opened StoreReads
  import opened StoreTheorems

  // ---------------------------------------------------------------- sums of requests

  datatype RequestSums = RequestSums(calls: nat, errors: nat, fallbacks: nat, input: nat, cacheHit: nat,
                                     cacheMiss: nat, reasoning: nat, reasoningEstimated: nat, output: nat, total: nat,
                                     bytes: nat)

  ghost function SumsOf(rs: map<nat, RequestRecord>): RequestSums {
    if rs == map[] then RequestSums(0, 0, 0, 0, 0, 0, 0, 0, 0, 0, 0)
    else
      var i := Least(rs.Keys);
      WithRequest(SumsOf(rs - {i}), rs[i])
  }

  function WithRequest(s: RequestSums, r: RequestRecord): RequestSums {
    RequestSums(
      calls := s.calls + 1,
      errors := if r.errorClass.Some? then s.errors + 1 else s.errors,
      fallbacks := if r.fallback == Some(true) then s.fallbacks + 1 else s.fallbacks,
      input := s.input + r.usage.input,
      cacheHit := s.cacheHit + r.usage.cacheHit,
      cacheMiss := s.cacheMiss + r.usage.cacheMiss,
      reasoning := s.reasoning + r.usage.reasoning,
      reasoningEstimated := s.reasoningEstimated + r.usage.reasoningEstimated,
      output := s.output + r.usage.output,
      total := s.total + r.usage.total,
      bytes := s.bytes + r.requestBytes + r.responseBytes)
  }

  /** The order in which a row keeps its counters. */
  predicate Shows(row: Row, s: RequestSums) {
    && |row| <= 11
    && At(row, 0) == s.calls && At(row, 1) == s.errors && At(row, 2) == s.fallbacks
    && At(row, 3) == s.input && At(row, 4) == s.cacheHit && At(row, 5) == s.cacheMiss
    && At(row, 6) == s.reasoning && At(row, 7) == s.reasoningEstimated && At(row, 8) == s.output
    && At(row, 9) == s.total && At(row, 10) == s.bytes
  }

  lemma ShowsOneMore(row: Row, s: RequestSums, r: RequestRecord)
    requires Shows(row, s)
    ensures Shows(Plus(row, RequestDelta(r)), WithRequest(s, r))
  {
  }

  /** A total over requests shows the sums of their fields. */
  lemma {:induction false} RequestsAddUp(rs: map<nat, RequestRecord>, m: map<nat, Row>)
    requires m.Keys == rs.Keys && forall i :: i in rs ==> m[i] == RequestDelta(rs[i])
    ensures Shows(Total(m), SumsOf(rs))
    decreases |rs|
  {
    hide Plus, RequestDelta, WithRequest;
    if rs == map[] {
      assert m == map[];
    } else {
      var i := Least(rs.Keys);
      hide Shows, Total;
      RequestsAddUp(rs - {i}, m - {i});
      TotalTakes(m, i);
      ShowsOneMore(Total(m - {i}), SumsOf(rs - {i}), rs[i]);
    }
  }

  // ---------------------------------------------------------------- sums of attempts

  datatype AttemptSums = AttemptSums(attempts: nat, successes: nat, errors: nat, cacheReported: nat, input: nat,
                                     cacheHit: nat, cacheMiss: nat, reasoning: nat, reasoningEstimated: nat,
                                     output: nat)

  ghost function AttemptSumsOf(attempts: map<nat, AttemptRecord>): AttemptSums {
    if attempts == map[] then AttemptSums(0, 0, 0, 0, 0, 0, 0, 0, 0, 0)
    else
      var i := Least(attempts.Keys);
      WithAttempt(AttemptSumsOf(attempts - {i}), attempts[i])
  }

  function WithAttempt(s: AttemptSums, a: AttemptRecord): AttemptSums {
    AttemptSums(
      attempts := s.attempts + 1,
      successes := if a.errorClass.None? then s.successes + 1 else s.successes,
      errors := if a.errorClass.Some? then s.errors + 1 else s.errors,
      cacheReported := if a.usage.providerReported then s.cacheReported + 1 else s.cacheReported,
      input := s.input + a.usage.input,
      cacheHit := s.cacheHit + a.usage.cacheHit,
      cacheMiss := s.cacheMiss + a.usage.cacheMiss,
      reasoning := s.reasoning + a.usage.reasoning,
      reasoningEstimated := s.reasoningEstimated + a.usage.reasoningEstimated,
      output := s.output + a.usage.output)
  }

  predicate ShowsAttempts(row: Row, s: AttemptSums) {
    && |row| <= 10
    && At(row, 0) == s.attempts && At(row, 1) == s.successes && At(row, 2) == s.errors
    && At(row, 3) == s.cacheReported && At(row, 4) == s.input && At(row, 5) == s.cacheHit
    && At(row, 6) == s.cacheMiss && At(row, 7) == s.reasoning && At(row, 8) == s.reasoningEstimated
    && At(row, 9) == s.output
  }

  lemma ShowsOneMoreAttempt(row: Row, s: AttemptSums, a: AttemptRecord)
    requires ShowsAttempts(row, s)
    ensures ShowsAttempts(Plus(row, AttemptDelta(a)), WithAttempt(s, a))
  {
  }

  /** A total over attempts shows the sums of their fields. */
  lemma {:induction false} AttemptsAddUp(attempts: map<nat, AttemptRecord>, m: map<nat, Row>)
    requires m.Keys == attempts.Keys && forall i :: i in attempts ==> m[i] == AttemptDelta(attempts[i])
    ensures ShowsAttempts(Total(m), AttemptSumsOf(attempts))
    decreases |attempts|
  {
    hide Plus, AttemptDelta, WithAttempt;
    if attempts == map[] {
      assert m == map[];
    } else {
      var i := Least(attempts.Keys);
      hide ShowsAttempts, Total;
      AttemptsAddUp(attempts - {i}, m - {i});
      TotalTakes(m, i);
      ShowsOneMoreAttempt(Total(m - {i}), AttemptSumsOf(attempts - {i}), attempts[i]);
    }
  }

  // ---------------------------------------------------------------- what a row is about

  /** The request was routed to the target: all five parts of the target are on record. */
  predicate WentTo(r: RequestRecord, route: Route) {
    && r.routeLayerIndex == Some(route.layerIndex) && route.layerIndex <= 0xFFFF_FFFF
    && r.routeLayer == Some(route.layer) && r.backend == Some(route.backend)
    && r.credential == Some(route.credential) && r.upstreamModel == Some(route.upstreamModel)
  }

  /** Whether the request counts for a model, or for any if none is named, and there for the model as
    * a whole, for one target, or for no target. */
  ghost predicate IsAbout(r: RequestRecord, model: Option<string>, scope: Scope) {
    && (model.None? || model.value == (if r.servedModel.Some? then r.servedModel.value else "\0unclassified"))
    && (scope.TargetScope? ==> WentTo(r, scope.route))
    && (scope.UnattributedScope? ==> forall route :: !WentTo(r, route))
  }

  /** Whether the minute something started in is in the window. */
  predicate MinuteWithin(at: int, from: int, to: int) { from <= at - at % 60_000 < to }

  ghost function Requests(ledger: map<nat, RequestRecord>, model: Option<string>, scope: Scope)
    : map<nat, RequestRecord>
  {
    map i | i in ledger && IsAbout(ledger[i], model, scope) :: ledger[i]
  }

  ghost function RequestsIn(ledger: map<nat, RequestRecord>, ids: set<nat>, model: Option<string>, scope: Scope,
                            from: int, to: int)
    : map<nat, RequestRecord>
  {
    map i | i in ledger && i in ids && IsAbout(ledger[i], model, scope)
            && MinuteWithin(ledger[i].startedAt, from, to) :: ledger[i]
  }

  ghost function Attempts(ledger: map<nat, AttemptRecord>, key: AttemptKey): map<nat, AttemptRecord> {
    map i | i in ledger && ledger[i].backend == key.backend && ledger[i].upstreamModel == key.model :: ledger[i]
  }

  ghost function AttemptsIn(ledger: map<nat, AttemptRecord>, ids: set<nat>, key: AttemptKey, from: int, to: int)
    : map<nat, AttemptRecord>
  {
    map i | i in ledger && i in ids && ledger[i].backend == key.backend && ledger[i].upstreamModel == key.model
            && MinuteWithin(ledger[i].startedAt, from, to) :: ledger[i]
  }

  lemma AboutIsConcerns(r: RequestRecord, model: Option<string>, scope: Scope)
    ensures IsAbout(r, model, scope) <==> Concerns(r, model, scope)
  {
    if Target(r).Some? {
      assert WentTo(r, Target(r).value);
    }
  }

  lemma AboutIsFeeds(r: RequestRecord, k: AllKey)
    ensures IsAbout(r, Some(k.model), k.scope) <==> Feeds(r, k)
  {
    AboutIsConcerns(r, Some(k.model), k.scope);
    hide IsAbout, Target;
  }

  lemma ScanShows(ledger: map<nat, RequestRecord>, ids: set<nat>, model: Option<string>, scope: Scope, from: int,
                  to: int)
    ensures Shows(Total(Scan(ledger, ids, model, scope, from, to)),
                  SumsOf(RequestsIn(ledger, ids, model, scope, from, to)))
  {
    hide IsAbout, Concerns, RequestDelta, Total, SumsOf, Shows;
    forall i | i in ledger
      ensures IsAbout(ledger[i], model, scope) <==> Concerns(ledger[i], model, scope)
    {
      AboutIsConcerns(ledger[i], model, scope);
    }
    RequestsAddUp(RequestsIn(ledger, ids, model, scope, from, to), Scan(ledger, ids, model, scope, from, to));
  }

  lemma AllTimeScanShows(ledger: map<nat, RequestRecord>, k: AllKey)
    ensures Shows(Total(AllTimeScan(ledger, ledger.Keys, k)), SumsOf(Requests(ledger, Some(k.model), k.scope)))
  {
    hide IsAbout, Feeds, RequestDelta, Total, SumsOf, Shows;
    forall i | i in ledger
      ensures IsAbout(ledger[i], Some(k.model), k.scope) <==> Feeds(ledger[i], k)
    {
      AboutIsFeeds(ledger[i], k);
    }
    RequestsAddUp(Requests(ledger, Some(k.model), k.scope), AllTimeScan(ledger, ledger.Keys, k));
  }

  lemma AttemptScanShows(ledger: map<nat, AttemptRecord>, ids: set<nat>, key: AttemptKey, from: int, to: int)
    ensures ShowsAttempts(Total(AttemptScan(ledger, ids, key, from, to)),
                          AttemptSumsOf(AttemptsIn(ledger, ids, key, from, to)))
  {
    hide AttemptDelta, Total, AttemptSumsOf, ShowsAttempts;
    AttemptsAddUp(AttemptsIn(ledger, ids, key, from, to), AttemptScan(ledger, ids, key, from, to));
  }

  // ---------------------------------------------------------------- what the queries return

  lemma AllTimeRow(t: map<AllKey, Row>, res: RoutingRollup, model: string, scope: Scope)
    requires Accounts(res, AllTimeEntries(t, model))
    ensures res.Of(scope) == Get(t, AllKey(model, scope))
  {
    var k := AllKey(model, scope);
    var none: map<AllKey, Row> := map[];
    var some := AmountsIn(AllTimeEntries(t, model), {scope});
    assert res.Of(scope) == Total(some);
    if k in t {
      assert some == none[k := t[k]];
      TotalAdds(none, k, t[k]);
      PlusZero(t[k]);
    } else {
      assert some == map[];
    }
  }

  /** In a ready store, the unbounded query returns the sums of the recorded requests of the model, and
    * the table of attempts holds those of the recorded attempts of each backend and model. */
  lemma AllTimeShowsFields(first: Db, run: Run, res: RoutingRollup, model: string, route: Route, key: AttemptKey)
    requires Unindexed(first) && Ready(DbAfter(first, run))
    requires Accounts(res, AllTimeEntries(DbAfter(first, run).requestTables.all, model))
    ensures var db := DbAfter(first, run);
            && Shows(res.total, SumsOf(Requests(db.requests, Some(model), ModelScope)))
            && Shows(Get(res.targets, route), SumsOf(Requests(db.requests, Some(model), TargetScope(route))))
            && Shows(res.unattributed, SumsOf(Requests(db.requests, Some(model), UnattributedScope)))
            && ShowsAttempts(Get(db.attemptTables.all, key), AttemptSumsOf(Attempts(db.attempts, key)))
  {
    var db := DbAfter(first, run);
    hide *;
    AllTimeScopeShows(first, run, res, model, ModelScope);
    AllTimeScopeShows(first, run, res, model, TargetScope(route));
    AllTimeScopeShows(first, run, res, model, UnattributedScope);
    AttemptTotalShows(first, run, key);
    OfScopes(res, route);
  }

  lemma OfScopes(res: RoutingRollup, route: Route)
    ensures res.Of(ModelScope) == res.total && res.Of(TargetScope(route)) == Get(res.targets, route)
    ensures res.Of(UnattributedScope) == res.unattributed
  {
  }

  lemma AllTimeScopeShows(first: Db, run: Run, res: RoutingRollup, model: string, scope: Scope)
    requires Unindexed(first) && Ready(DbAfter(first, run))
    requires Accounts(res, AllTimeEntries(DbAfter(first, run).requestTables.all, model))
    ensures Shows(res.Of(scope), SumsOf(Requests(DbAfter(first, run).requests, Some(model), scope)))
  {
    hide *;
    AllTimeRow(DbAfter(first, run).requestTables.all, res, model, scope);
    ReadyTotalsAreExact(first, run, AllKey(model, scope), AttemptKey("", ""));
    AllTimeScanShows(DbAfter(first, run).requests, AllKey(model, scope));
  }

  lemma AttemptTotalShows(first: Db, run: Run, key: AttemptKey)
    requires Unindexed(first) && Ready(DbAfter(first, run))
    ensures ShowsAttempts(Get(DbAfter(first, run).attemptTables.all, key),
                          AttemptSumsOf(Attempts(DbAfter(first, run).attempts, key)))
  {
    var ledger := DbAfter(first, run).attempts;
    ReadyTotalsAreExact(first, run, AllKey("", ModelScope), key);
    hide DbAfter, AttemptDelta, Total, AttemptSumsOf, ShowsAttempts, Ready, Unindexed;
    AttemptsAddUp(Attempts(ledger, key), AttemptTotalScan(ledger, key));
  }

  /** At any moment of any run, the bounded query of a window that starts at or after every prune
    * cutoff returns the sums of the requests of the window that were inside the retained period
    * when they were applied: of all of them, of those of each target, and of those of none. */
  lemma WindowsShowFields(first: Db, run: Run, res: RoutingRollup, model: string, route: Route, from: int, to: int)
    requires Unindexed(first) && from <= to <= I64_MAX && NotPruned(CutoffAfter(first, run), from)
    requires Accounts(res, WindowEntries(DbAfter(first, run).requestTables.buckets, model, from, to))
    ensures var (ledger, ids) := (DbAfter(first, run).requests, RequestsBucketed(first, run));
            && Shows(res.total, SumsOf(RequestsIn(ledger, ids, Some(model), ModelScope, from, to)))
            && Shows(Get(res.targets, route),
                     SumsOf(RequestsIn(ledger, ids, Some(model), TargetScope(route), from, to)))
            && Shows(res.unattributed, SumsOf(RequestsIn(ledger, ids, Some(model), UnattributedScope, from, to)))
  {
    hide *;
    var (ledger, ids) := (DbAfter(first, run).requests, RequestsBucketed(first, run));
    WindowsAreExact(first, run, res, model, ModelScope, from, to);
    WindowsAreExact(first, run, res, model, TargetScope(route), from, to);
    WindowsAreExact(first, run, res, model, UnattributedScope, from, to);
    ScanShows(ledger, ids, Some(model), ModelScope, from, to);
    ScanShows(ledger, ids, Some(model), TargetScope(route), from, to);
    ScanShows(ledger, ids, Some(model), UnattributedScope, from, to);
    OfScopes(res, route);
  }

  /** The overview of such a window shows the sums of all its requests, and for each backend and model
    * the sums of its attempts. */
  lemma OverviewsShowFields(first: Db, run: Run, requests: Row, attempts: map<AttemptKey, Row>, key: AttemptKey,
                            from: int, to: int)
    requires Unindexed(first) && from <= to <= I64_MAX && NotPruned(CutoffAfter(first, run), from)
    requires var t := DbAfter(first, run).requestTables;
             requests == Total(RowsOf(t.buckets, OverviewKeys(t.buckets, KnownModels(t.all), from, to)))
    requires Indexes(attempts, AttemptWindowEntries(DbAfter(first, run).attemptTables.buckets, from, to))
    ensures Shows(requests, SumsOf(RequestsIn(DbAfter(first, run).requests, RequestsBucketed(first, run), None,
                                              ModelScope, from, to)))
    ensures ShowsAttempts(Get(attempts, key), AttemptSumsOf(AttemptsIn(DbAfter(first, run).attempts,
                                                                       AttemptsBucketed(first, run), key, from, to)))
  {
    hide *;
    OverviewsAreExact(first, run, requests, from, to);
    ScanShows(DbAfter(first, run).requests, RequestsBucketed(first, run), None, ModelScope, from, to);
    AttemptWindowsAreExact(first, run, attempts, key, from, to);
    AttemptScanShows(DbAfter(first, run).attempts, AttemptsBucketed(first, run), key, from, to);
  }

  // ---------------------------------------------------------------- ready stores

  /** The 32 days that are retained. */
  predicate StartsRetained(from: int, now: int) { from >= Max(now - 2_764_800_000, -0x8000_0000_0000_0000) }

  lemma IsRetained(from: int, now: int)
    ensures StartsRetained(from, now) <==> Retained(now) <= from
  {
  }

  /** In a ready store whose clock has run forward, a window of the last 32 days leaves no request out. */
  lemma ReadyWindowsShowFields(first: Db, run: Run, res: RoutingRollup, model: string, route: Route, from: int, to: int)
    requires Unindexed(first) && ClockRuns(run) && Ready(DbAfter(first, run))
    requires StartsRetained(from, NowAfter(run)) && from <= to <= I64_MAX && NotPruned(CutoffAfter(first, run), from)
    requires Accounts(res, WindowEntries(DbAfter(first, run).requestTables.buckets, model, from, to))
    ensures var (ledger, ids) := (DbAfter(first, run).requests, DbAfter(first, run).requests.Keys);
            && Shows(res.total, SumsOf(RequestsIn(ledger, ids, Some(model), ModelScope, from, to)))
            && Shows(Get(res.targets, route),
                     SumsOf(RequestsIn(ledger, ids, Some(model), TargetScope(route), from, to)))
            && Shows(res.unattributed, SumsOf(RequestsIn(ledger, ids, Some(model), UnattributedScope, from, to)))
  {
    hide *;
    var ledger := DbAfter(first, run).requests;
    IsRetained(from, NowAfter(run));
    ReadyWindowsAreExact(first, run, res, model, ModelScope, from, to);
    ReadyWindowsAreExact(first, run, res, model, TargetScope(route), from, to);
    ReadyWindowsAreExact(first, run, res, model, UnattributedScope, from, to);
    ScanShows(ledger, ledger.Keys, Some(model), ModelScope, from, to);
    ScanShows(ledger, ledger.Keys, Some(model), TargetScope(route), from, to);
    ScanShows(ledger, ledger.Keys, Some(model), UnattributedScope, from, to);
    OfScopes(res, route);
  }

  lemma ReadyOverviewsShowFields(first: Db, run: Run, requests: Row, attempts: map<AttemptKey, Row>, key: AttemptKey,
                                 from: int, to: int)
    requires Unindexed(first) && ClockRuns(run) && Ready(DbAfter(first, run))
    requires StartsRetained(from, NowAfter(run)) && from <= to <= I64_MAX && NotPruned(CutoffAfter(first, run), from)
    requires var t := DbAfter(first, run).requestTables;
             requests == Total(RowsOf(t.buckets, OverviewKeys(t.buckets, KnownModels(t.all), from, to)))
    requires Indexes(attempts, AttemptWindowEntries(DbAfter(first, run).attemptTables.buckets, from, to))
    ensures var db := DbAfter(first, run);
            && Shows(requests, SumsOf(RequestsIn(db.requests, db.requests.Keys, None, ModelScope, from, to)))
            && ShowsAttempts(Get(attempts, key),
                             AttemptSumsOf(AttemptsIn(db.attempts, db.attempts.Keys, key, from, to)))
  {
    hide *;
    var db := DbAfter(first, run);
    IsRetained(from, NowAfter(run));
    ReadyOverviewsAreExact(first, run, requests, from, to);
    ScanShows(db.requests, db.requests.Keys, None, ModelScope, from, to);
    ReadyAttemptWindowsAreExact(first, run, attempts, key, from, to);
    AttemptScanShows(db.attempts, db.attempts.Keys, key, from, to);
  }
}
