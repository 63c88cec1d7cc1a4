/** What holds of the statistics store after any run. */
module StoreTheorems {
  import opened Prelude
  import opened Counters
  import opened Rollup
  import opened StoreModel
  import opened StoreBooks
  import opened StoreRuns
  import opened StoreQueries
  import opened StoreReads

  // ---------------------------------------------------------------- all-time totals

  /** Once the statistics are ready, every all-time row is the total of a scan of the whole
    * ledger: the batches, crashes and resets of the run have applied each row exactly once. */
  lemma ReadyTotalsAreExact(first: Db, run: Run, k: AllKey, key: AttemptKey)
    requires Unindexed(first) && Ready(DbAfter(first, run))
    ensures var db := DbAfter(first, run);
            && Get(db.requestTables.all, k) == Total(AllTimeScan(db.requests, db.requests.Keys, k))
            && Get(db.attemptTables.all, key) == Total(AttemptTotalScan(db.attempts, key))
  {
    var db := DbAfter(first, run);
    hide Unindexed, DbAfter, Total, AllTimeScan, AttemptTotalScan;
    var b := RunsKeepBooks(first, run);
    ReadyAppliesAll(db);
    AllTimeIsScan(db.requestTables.all, db.requests, db.requests.Keys, b.requests.all, k);
    AttemptTotalIsScan(db.attempts, db.attemptTables.all, b.attempts, key);
  }

  ghost function AttemptTotalScan(ledger: map<nat, AttemptRecord>, key: AttemptKey): map<nat, Row> {
    map i | i in ledger && AttemptKeyOf(ledger[i]) == key :: AttemptDelta(ledger[i])
  }

  lemma AttemptTotalIsScan(ledger: map<nat, AttemptRecord>, t: map<AttemptKey, Row>, m: map<nat, Entry<AttemptKey>>,
                           key: AttemptKey)
    requires AttemptsKept(ledger, t, ledger.Keys, m)
    ensures Get(t, key) == Total(AttemptTotalScan(ledger, key))
  {
    hide Total, AmountsIn, AttemptTotalScan;
    GetIsTotal(t, m, key);
    AttemptAmounts(ledger, m, key);
  }

  lemma AttemptAmounts(ledger: map<nat, AttemptRecord>, m: map<nat, Entry<AttemptKey>>, key: AttemptKey)
    requires m.Keys == ledger.Keys
    requires forall i :: i in m ==> m[i] == Entry(AttemptKeyOf(ledger[i]), AttemptDelta(ledger[i]))
    ensures AmountsIn(m, {key}) == AttemptTotalScan(ledger, key)
  {
    hide AttemptDelta, AttemptKeyOf;
    assert AmountsIn(m, {key}).Keys == AttemptTotalScan(ledger, key).Keys;
  }

  /** Two runs that end ready with the same ledgers have the same all-time totals, however each
    * of them got there. */
  lemma TotalsForgetHistory(first: Db, run: Run, origin: Db, other: Run, k: AllKey, key: AttemptKey)
    requires Unindexed(first) && Unindexed(origin)
    requires Ready(DbAfter(first, run)) && Ready(DbAfter(origin, other))
    requires DbAfter(first, run).requests == DbAfter(origin, other).requests
    requires DbAfter(first, run).attempts == DbAfter(origin, other).attempts
    ensures Get(DbAfter(first, run).requestTables.all, k) == Get(DbAfter(origin, other).requestTables.all, k)
    ensures Get(DbAfter(first, run).attemptTables.all, key) == Get(DbAfter(origin, other).attemptTables.all, key)
  {
    hide Unindexed, DbAfter, Total, AllTimeScan, AttemptTotalScan;
    ReadyTotalsAreExact(first, run, k, key);
    ReadyTotalsAreExact(origin, other, k, key);
  }

  /** When a backfill completes its last batch of a ledger, its counter is the ledger's size. */
  lemma MigrationCountsTheLedger(first: Db, run: Run)
    requires Unindexed(first) && !Ready(DbAfter(first, run))
    ensures var db := DbAfter(first, run);
            && (!StatsMeta(db).phase.RequestsPhase? ==> StatsMeta(db).migratedRequests == |db.requests|)
            && (StatsMeta(db).phase.ReadyPhase? ==> StatsMeta(db).migratedAttempts == |db.attempts|)
  {
    hide Unindexed, DbAfter;
    var b := RunsKeepBooks(first, run);
    var db := DbAfter(first, run);
    assert |db.requests.Keys| == |db.requests| && |db.attempts.Keys| == |db.attempts|;
  }

  // ---------------------------------------------------------------- windows

  lemma WindowTotalIsScan(t: map<BucketKey, Row>, ledger: map<nat, RequestRecord>, b: RequestBooks, cutoff: Option<int>,
                          model: Option<string>, scope: Scope, from: int, to: int)
    requires Counts(t, ledger, b, cutoff) && from <= to <= I64_MAX && NotPruned(cutoff, from)
    ensures Total(RowsOf(t, WindowKeys(t, model, scope, from, to)))
            == Total(Scan(ledger, b.bucketed, model, scope, from, to))
  {
    hide Scan, AmountsIn, RowsOf;
    RowsAreContributions(t, b.buckets, WindowKeys(t, model, scope, from, to));
    SlotsRename(t, ledger, b, cutoff, model, scope, from, to);
  }

  /** At any moment of any run of recording, backfilling, crashing, resetting and pruning, with a
    * clock that may even go back, a window that starts at or after every prune cutoff is exact:
    * each total the mixed minute and hour query returns is that of a scan of the ledger rows
    * that were inside the retained period when they were applied. */
  lemma WindowsAreExact(first: Db, run: Run, res: RoutingRollup, model: string, scope: Scope, from: int, to: int)
    requires Unindexed(first) && from <= to <= I64_MAX && NotPruned(CutoffAfter(first, run), from)
    requires Accounts(res, WindowEntries(DbAfter(first, run).requestTables.buckets, model, from, to))
    ensures res.Of(scope)
            == Total(Scan(DbAfter(first, run).requests, RequestsBucketed(first, run), Some(model), scope, from, to))
  {
    var db := DbAfter(first, run);
    hide Unindexed, DbAfter, Total, Scan, CutoffAfter, RequestsBucketed, WindowEntries, Accounts, Indexes,
         BucketsRecorded;
    var b := RunsKeepBooks(first, run);
    WindowIsScan(db.requestTables.buckets, db.requests, b.requests, b.cutoff, res, model, scope, from, to);
  }

  /** Rows that each count one have the total of more such rows only if there are no more. */
  lemma NothingMissing(some: map<nat, Row>, all: map<nat, Row>)
    requires some.Keys <= all.Keys && (forall i :: i in some ==> some[i] == all[i])
    requires forall i :: i in all ==> At(all[i], 0) == 1
    ensures Total(some) == Total(all) <==> some == all
  {
    hide Total, At;
    FlagsCount(some, 0, some.Keys);
    FlagsCount(all, 0, all.Keys);
    if Total(some) == Total(all) {
      assert all.Keys == some.Keys + (all.Keys - some.Keys);
      assert |all.Keys - some.Keys| == 0;
    }
  }

  /** Whether every request that a window is about is among some rows. */
  ghost predicate CoversWindow(ledger: map<nat, RequestRecord>, ids: set<nat>, model: Option<string>, scope: Scope,
                               from: int, to: int)
  {
    forall i :: i in ledger && Concerns(ledger[i], model, scope) && StartsIn(ledger[i].startedAt, from, to) ==> i in ids
  }

  lemma WholeScanIff(ledger: map<nat, RequestRecord>, ids: set<nat>, model: Option<string>, scope: Scope, from: int,
                     to: int)
    ensures Total(Scan(ledger, ids, model, scope, from, to)) == Total(Scan(ledger, ledger.Keys, model, scope, from, to))
            <==> CoversWindow(ledger, ids, model, scope, from, to)
  {
    var some, all := Scan(ledger, ids, model, scope, from, to), Scan(ledger, ledger.Keys, model, scope, from, to);
    forall i | i in all
      ensures At(all[i], 0) == 1
    {
      RequestFlags(ledger[i]);
    }
    hide Total, At, Concerns, StartsIn, RequestDelta;
    NothingMissing(some, all);
    if some == all {
      forall i | i in ledger && Concerns(ledger[i], model, scope) && StartsIn(ledger[i].startedAt, from, to)
        ensures i in ids
      {
        assert i in all && i in some;
      }
    } else {
      var i :| i in all && i !in some;
      assert i !in ids;
    }
  }

  /** Such a total is that of the whole ledger exactly when every row of the window has been applied,
    * and was inside the retained period then: no row is missing because it waits for a rebuild, or
    * came too late. */
  lemma WindowsAreWholeIff(first: Db, run: Run, res: RoutingRollup, model: string, scope: Scope, from: int, to: int)
    requires Unindexed(first) && from <= to <= I64_MAX && NotPruned(CutoffAfter(first, run), from)
    requires Accounts(res, WindowEntries(DbAfter(first, run).requestTables.buckets, model, from, to))
    ensures var db := DbAfter(first, run);
            res.Of(scope) == Total(Scan(db.requests, db.requests.Keys, Some(model), scope, from, to))
            <==> CoversWindow(db.requests, RequestsBucketed(first, run), Some(model), scope, from, to)
  {
    hide *;
    WindowsAreExact(first, run, res, model, scope, from, to);
    WholeScanIff(DbAfter(first, run).requests, RequestsBucketed(first, run), Some(model), scope, from, to);
  }

  /** With a clock that does not go back, what is applied and still retained was retained when it
    * was applied. */
  lemma {:induction false} RetainedAreBucketed(first: Db, run: Run)
    requires Unindexed(first) && ClockRuns(run)
    ensures var db := DbAfter(first, run);
            && RequestsApplied(db) <= db.requests.Keys && AttemptsSeen(db) <= db.attempts.Keys
            && RecentRequests(db.requests, RequestsApplied(db), NowAfter(run)) <= RequestsBucketed(first, run)
            && RecentAttempts(db.attempts, AttemptsSeen(db), NowAfter(run)) <= AttemptsBucketed(first, run)
  {
    hide Next, RequestsApplied, AttemptsSeen;
    AppliedAreRecorded(DbAfter(first, run));
    if run == [] {
      UnindexedAppliesNothing(first);
    } else {
      var front, last := run[..|run| - 1], run[|run| - 1];
      RetainedAreBucketed(first, front);
      assert front != [] ==> NowAfter(front) <= last.now;
      var db, e := DbAfter(first, front), DbAfter(first, run);
      LedgersOnlyGrow(db, last.step, last.now);
      if front == [] {
        UnindexedAppliesNothing(first);
      }
      if Resets(db, last.step) {
        ResetAppliesNothing(db, last.step, last.now);
      } else {
        StillRecent(db.requests, e.requests, RequestsApplied(db), RequestsApplied(e), NowAfter(front), last.now);
        StillRecentAttempts(db.attempts, e.attempts, AttemptsSeen(db), AttemptsSeen(e), NowAfter(front), last.now);
      }
    }
  }

  lemma AppliedAreRecorded(db: Db)
    ensures RequestsApplied(db) <= db.requests.Keys && AttemptsSeen(db) <= db.attempts.Keys
  {
  }

  lemma UnindexedAppliesNothing(db: Db)
    requires Unindexed(db)
    ensures RequestsApplied(db) == {} && AttemptsSeen(db) == {}
  {
  }

  lemma ResetAppliesNothing(db: Db, s: Step, now: int)
    requires Resets(db, s)
    ensures RequestsApplied(Next(db, s, now)) == {} && AttemptsSeen(Next(db, s, now)) == {}
  {
  }

  lemma StillRecent(ledger: map<nat, RequestRecord>, grown: map<nat, RequestRecord>, applied: set<nat>, more: set<nat>,
                    now: int, later: int)
    requires (forall i :: i in ledger ==> i in grown && grown[i] == ledger[i]) && applied <= ledger.Keys
    requires now <= later || applied == {}
    ensures RecentRequests(grown, more, later)
            <= RecentRequests(ledger, applied, now) + RecentRequests(grown, more - applied, later)
  {
  }

  lemma StillRecentAttempts(ledger: map<nat, AttemptRecord>, grown: map<nat, AttemptRecord>, applied: set<nat>,
                            more: set<nat>, now: int, later: int)
    requires (forall i :: i in ledger ==> i in grown && grown[i] == ledger[i]) && applied <= ledger.Keys
    requires now <= later || applied == {}
    ensures RecentAttempts(grown, more, later)
            <= RecentAttempts(ledger, applied, now) + RecentAttempts(grown, more - applied, later)
  {
  }

  lemma RecentCoverWindow(ledger: map<nat, RequestRecord>, ids: set<nat>, now: int, model: Option<string>, scope: Scope,
                          from: int, to: int)
    requires RecentRequests(ledger, ledger.Keys, now) <= ids && Retained(now) <= from
    ensures CoversWindow(ledger, ids, model, scope, from, to)
  {
    hide Concerns;
    forall i | i in ledger && StartsIn(ledger[i].startedAt, from, to)
      ensures i in ids
    {
      FloorBounds(ledger[i].startedAt, MINUTE_MS);
      assert i in RecentRequests(ledger, ledger.Keys, now);
    }
  }

  /** So, once the statistics are ready, every window inside the retained period that starts at or
    * after every prune cutoff returns the totals of a scan of the whole ledger. */
  lemma ReadyWindowsAreExact(first: Db, run: Run, res: RoutingRollup, model: string, scope: Scope, from: int,
                             to: int)
    requires Unindexed(first) && ClockRuns(run) && Ready(DbAfter(first, run))
    requires Retained(NowAfter(run)) <= from <= to <= I64_MAX && NotPruned(CutoffAfter(first, run), from)
    requires Accounts(res, WindowEntries(DbAfter(first, run).requestTables.buckets, model, from, to))
    ensures var db := DbAfter(first, run);
            res.Of(scope) == Total(Scan(db.requests, db.requests.Keys, Some(model), scope, from, to))
  {
    ReadyAppliesAll(DbAfter(first, run));
    hide *;
    RetainedAreBucketed(first, run);
    RecentCoverWindow(DbAfter(first, run).requests, RequestsBucketed(first, run), NowAfter(run), Some(model), scope,
                      from, to);
    WindowsAreWholeIff(first, run, res, model, scope, from, to);
  }

  /** Pruning only ever removes what has left the retained period, as start-ups prune. */
  predicate OnlyExpires(run: Run) {
    forall i :: 0 <= i < |run| && run[i].step.Prunes? ==> run[i].step.cutoff <= Retained(run[i].now)
  }

  /** Then no cutoff is inside the retained period. */
  lemma {:induction false} CutoffIsExpired(first: Db, run: Run)
    requires Unindexed(first) && ClockRuns(run) && OnlyExpires(run)
    ensures NotPruned(CutoffAfter(first, run), Retained(NowAfter(run)))
  {
    hide Unindexed, DbAfter;
    if run != [] {
      var front, last := run[..|run| - 1], run[|run| - 1];
      CutoffIsExpired(first, front);
      assert front != [] ==> NowAfter(front) <= last.now;
      if last.step.Prunes? {
        FloorBounds(last.step.cutoff, MINUTE_MS);
      }
      NothingCutAtFirst(first, front);
    }
  }

  lemma NothingCutAtFirst(first: Db, front: Run)
    ensures front == [] ==> CutoffAfter(first, front) == None
  {
  }

  // ---------------------------------------------------------------- windows of attempts

  /** The same for the attempts of each backend and model that the attempt query returns. */
  lemma AttemptWindowsAreExact(first: Db, run: Run, res: map<AttemptKey, Row>, key: AttemptKey, from: int, to: int)
    requires Unindexed(first) && from <= to <= I64_MAX && NotPruned(CutoffAfter(first, run), from)
    requires Indexes(res, AttemptWindowEntries(DbAfter(first, run).attemptTables.buckets, from, to))
    ensures Get(res, key) == Total(AttemptScan(DbAfter(first, run).attempts, AttemptsBucketed(first, run), key, from,
                                               to))
  {
    var db := DbAfter(first, run);
    var t := db.attemptTables.buckets;
    hide Unindexed, DbAfter, Total, AttemptScan, CutoffAfter, AttemptsBucketed, AttemptWindowKeys, AttemptWindowEntries,
         RowsOf, Indexes, AmountsIn;
    var b := RunsKeepBooks(first, run);
    AttemptWindowIsScan(t, db.attempts, AttemptsSeen(db), b.attemptBuckets, b.attemptsBucketed, b.cutoff, key, from,
                        to);
    GetIsTotal(res, AttemptWindowEntries(t, from, to), key);
    AttemptWindowRows(t, key, from, to);
  }

  ghost predicate CoversAttempts(ledger: map<nat, AttemptRecord>, ids: set<nat>, key: AttemptKey, from: int, to: int) {
    forall i :: i in ledger && AttemptKeyOf(ledger[i]) == key && StartsIn(ledger[i].startedAt, from, to) ==> i in ids
  }

  lemma WholeAttemptScanIff(ledger: map<nat, AttemptRecord>, ids: set<nat>, key: AttemptKey, from: int, to: int)
    ensures Total(AttemptScan(ledger, ids, key, from, to)) == Total(AttemptScan(ledger, ledger.Keys, key, from, to))
            <==> CoversAttempts(ledger, ids, key, from, to)
  {
    var some, all := AttemptScan(ledger, ids, key, from, to), AttemptScan(ledger, ledger.Keys, key, from, to);
    forall i | i in all
      ensures At(all[i], 0) == 1
    {
      AttemptFlags(ledger[i]);
    }
    hide Total, At, StartsIn, AttemptDelta, AttemptKeyOf;
    NothingMissing(some, all);
    if some == all {
      forall i | i in ledger && AttemptKeyOf(ledger[i]) == key && StartsIn(ledger[i].startedAt, from, to)
        ensures i in ids
      {
        assert i in all && i in some;
      }
    } else {
      var i :| i in all && i !in some;
      assert i !in ids;
    }
  }

  lemma AttemptWindowsAreWholeIff(first: Db, run: Run, res: map<AttemptKey, Row>, key: AttemptKey, from: int, to: int)
    requires Unindexed(first) && from <= to <= I64_MAX && NotPruned(CutoffAfter(first, run), from)
    requires Indexes(res, AttemptWindowEntries(DbAfter(first, run).attemptTables.buckets, from, to))
    ensures var db := DbAfter(first, run);
            Get(res, key) == Total(AttemptScan(db.attempts, db.attempts.Keys, key, from, to))
            <==> CoversAttempts(db.attempts, AttemptsBucketed(first, run), key, from, to)
  {
    hide *;
    AttemptWindowsAreExact(first, run, res, key, from, to);
    WholeAttemptScanIff(DbAfter(first, run).attempts, AttemptsBucketed(first, run), key, from, to);
  }

  lemma RecentCoverAttempts(ledger: map<nat, AttemptRecord>, ids: set<nat>, now: int, key: AttemptKey, from: int,
                            to: int)
    requires RecentAttempts(ledger, ledger.Keys, now) <= ids && Retained(now) <= from
    ensures CoversAttempts(ledger, ids, key, from, to)
  {
    forall i | i in ledger && StartsIn(ledger[i].startedAt, from, to)
      ensures i in ids
    {
      FloorBounds(ledger[i].startedAt, MINUTE_MS);
      assert i in RecentAttempts(ledger, ledger.Keys, now);
    }
  }

  lemma ReadyAttemptWindowsAreExact(first: Db, run: Run, res: map<AttemptKey, Row>, key: AttemptKey, from: int,
                                    to: int)
    requires Unindexed(first) && ClockRuns(run) && Ready(DbAfter(first, run))
    requires Retained(NowAfter(run)) <= from <= to <= I64_MAX && NotPruned(CutoffAfter(first, run), from)
    requires Indexes(res, AttemptWindowEntries(DbAfter(first, run).attemptTables.buckets, from, to))
    ensures var db := DbAfter(first, run);
            Get(res, key) == Total(AttemptScan(db.attempts, db.attempts.Keys, key, from, to))
  {
    ReadyAppliesAll(DbAfter(first, run));
    hide *;
    RetainedAreBucketed(first, run);
    RecentCoverAttempts(DbAfter(first, run).attempts, AttemptsBucketed(first, run), NowAfter(run), key, from, to);
    AttemptWindowsAreWholeIff(first, run, res, key, from, to);
  }

  // ---------------------------------------------------------------- conservation and the overview

  /** At any moment of any run, even during a rebuild or after arbitrary pruning, a window's
    * total is the sum of its targets and its unattributed part in every counter. */
  lemma WindowsAlwaysConserve(first: Db, run: Run, res: RoutingRollup, model: string, from: int, to: int)
    requires Unindexed(first)
    requires Accounts(res, WindowEntries(DbAfter(first, run).requestTables.buckets, model, from, to))
    ensures res.total == Plus(Total(res.targets), res.unattributed)
  {
    var db := DbAfter(first, run);
    hide Unindexed, DbAfter, Total, CutoffAfter, WindowEntries, Indexes, BucketsRecorded, Accounts, Plus;
    var b := RunsKeepBooks(first, run);
    WindowConserves(db.requestTables.buckets, db.requests, b.requests, b.cutoff, res, model, from, to);
  }

  lemma ModelIsKnown(t: RequestTables, ledger: map<nat, RequestRecord>, applied: set<nat>, b: RequestBooks,
                     cutoff: Option<int>, s: Slot)
    requires RequestsKept(ledger, t, applied, b, cutoff) && s in b.buckets
    ensures b.buckets[s].key.model in KnownModels(t.all)
  {
    hide Total, FloorTo, RequestDelta, Target;
    var a := AllSlot(s.id, false);
    assert a in b.all && b.all[a].key in t.all;
  }

  lemma OverviewReadsEveryModel(t: map<BucketKey, Row>, m: map<Slot, Entry<BucketKey>>, models: set<string>, from: int,
                                to: int)
    requires forall s :: s in m ==> m[s].key.model in models
    ensures AmountsIn(m, OverviewKeys(t, models, from, to)) == AmountsIn(m, WindowKeys(t, None, ModelScope, from, to))
  {
    hide InWindow;
  }

  lemma OverviewIsAllModels(t: RequestTables, ledger: map<nat, RequestRecord>, applied: set<nat>, b: RequestBooks,
                            cutoff: Option<int>, from: int, to: int)
    requires RequestsKept(ledger, t, applied, b, cutoff)
    ensures Total(RowsOf(t.buckets, OverviewKeys(t.buckets, KnownModels(t.all), from, to)))
            == Total(RowsOf(t.buckets, WindowKeys(t.buckets, None, ModelScope, from, to)))
  {
    hide AmountsIn, RowsOf, AllRecorded, BucketsRecorded, OverviewKeys, Indexes, KnownModels;
    forall s | s in b.buckets
      ensures b.buckets[s].key.model in KnownModels(t.all)
    {
      ModelIsKnown(t, ledger, applied, b, cutoff, s);
    }
    OverviewReadsEveryModel(t.buckets, b.buckets, KnownModels(t.all), from, to);
    RowsAreContributions(t.buckets, b.buckets, OverviewKeys(t.buckets, KnownModels(t.all), from, to));
    RowsAreContributions(t.buckets, b.buckets, WindowKeys(t.buckets, None, ModelScope, from, to));
  }

  /** The overview of a window that starts at or after every prune cutoff counts, once, each
    * request of the window that was inside the retained period when it was applied. */
  lemma OverviewsAreExact(first: Db, run: Run, requests: Row, from: int, to: int)
    requires Unindexed(first) && from <= to <= I64_MAX && NotPruned(CutoffAfter(first, run), from)
    requires var t := DbAfter(first, run).requestTables;
             requests == Total(RowsOf(t.buckets, OverviewKeys(t.buckets, KnownModels(t.all), from, to)))
    ensures requests == Total(Scan(DbAfter(first, run).requests, RequestsBucketed(first, run), None, ModelScope, from,
                                   to))
  {
    var db := DbAfter(first, run);
    hide Unindexed, DbAfter, Total, Scan, CutoffAfter, RequestsBucketed, WindowKeys, RowsOf, OverviewKeys, Indexes,
         BucketsRecorded, AllRecorded, KnownModels;
    var b := RunsKeepBooks(first, run);
    OverviewIsAllModels(db.requestTables, db.requests, RequestsApplied(db), b.requests, b.cutoff, from, to);
    WindowTotalIsScan(db.requestTables.buckets, db.requests, b.requests, b.cutoff, None, ModelScope, from, to);
  }

  /** ... and once the statistics are ready it counts every request of a retained window. */
  lemma ReadyOverviewsAreExact(first: Db, run: Run, requests: Row, from: int, to: int)
    requires Unindexed(first) && ClockRuns(run) && Ready(DbAfter(first, run))
    requires Retained(NowAfter(run)) <= from <= to <= I64_MAX && NotPruned(CutoffAfter(first, run), from)
    requires var t := DbAfter(first, run).requestTables;
             requests == Total(RowsOf(t.buckets, OverviewKeys(t.buckets, KnownModels(t.all), from, to)))
    ensures var db := DbAfter(first, run);
            requests == Total(Scan(db.requests, db.requests.Keys, None, ModelScope, from, to))
  {
    ReadyAppliesAll(DbAfter(first, run));
    hide *;
    RetainedAreBucketed(first, run);
    RecentCoverWindow(DbAfter(first, run).requests, RequestsBucketed(first, run), NowAfter(run), None, ModelScope,
                      from, to);
    OverviewsAreExact(first, run, requests, from, to);
    WholeScanIff(DbAfter(first, run).requests, RequestsBucketed(first, run), None, ModelScope, from, to);
  }

  // ---------------------------------------------------------------- the ledgers

  lemma BackfillKeepsLedgers(db: Db, now: int)
    ensures var r := Backfill(db, now); r.Ok? ==> r.value.requests == db.requests && r.value.attempts == db.attempts
  {
    hide ApplyRequests, ApplyAttempts, ApplyManyAttemptBuckets, Batch, Advanced;
  }

  /** A step leaves a ledger as it is, or it is a successful recording of a new id. */
  lemma LedgerSteps(db: Db, s: Step, now: int)
    ensures var e := Next(db, s, now);
            && (e.requests == db.requests
                || (s.RecordsRequest? && s.id !in db.requests
                    && StoreModel.RecordRequest(db, s.id, s.request, now) == Ok(e)))
            && (e.attempts == db.attempts
                || (s.RecordsAttempt? && s.id !in db.attempts
                    && StoreModel.RecordAttempt(db, s.id, s.attempt, now) == Ok(e)))
  {
    if s.Backfills? {
      BackfillKeepsLedgers(db, now);
      hide Backfill;
    } else {
      hide ApplyRequest, ApplyAttempt, ApplyAttemptBuckets, FloorTo, Ready, Backfill;
    }
  }

  /** No step removes or changes a ledger row, and nothing is recorded before the statistics are
    * ready. Recording a known id changes nothing at all; it succeeds exactly when the statistics
    * are ready and the contents are the same. */
  lemma LedgersOnlyGrow(db: Db, s: Step, now: int)
    ensures var e := Next(db, s, now);
            && (forall i :: i in db.requests ==> i in e.requests && e.requests[i] == db.requests[i])
            && (forall i :: i in db.attempts ==> i in e.attempts && e.attempts[i] == db.attempts[i])
            && (!Ready(db) ==> e.requests == db.requests && e.attempts == db.attempts)
    ensures s.RecordsRequest? && s.id in db.requests ==>
              Next(db, s, now) == db && (Attempted(db, s, now).Ok? <==> Ready(db) && db.requests[s.id] == s.request)
    ensures s.RecordsAttempt? && s.id in db.attempts ==>
              Next(db, s, now) == db && (Attempted(db, s, now).Ok? <==> Ready(db) && db.attempts[s.id] == s.attempt)
  {
    LedgerSteps(db, s, now);
    hide ApplyRequest, ApplyAttempt, ApplyAttemptBuckets, Ready, Upgrade, Backfill, Prune, Downgrade;
  }

  lemma {:induction false} IncrementsFit<K>(t: map<K, Row>, keys: seq<K>, amount: Row)
    requires forall i, j :: 0 <= i < j < |keys| ==> keys[i] != keys[j]
    ensures IncrementAll(t, keys, amount).Ok? <==> forall k :: k in keys ==> Fits(Plus(Get(t, k), amount))
    ensures IncrementAll(t, keys, amount).Ok? ==>
              forall k :: k !in keys ==> Get(IncrementAll(t, keys, amount).value, k) == Get(t, k)
  {
    if keys != [] {
      var front, last := keys[..|keys| - 1], keys[|keys| - 1];
      IncrementsFit(t, front, amount);
      hide Fits, Plus;
      assert keys == front + [last] && last !in front;
    }
  }

  /** A new request is recorded exactly when its bytes, and with it the rows it counts for, fit. */
  lemma RequestIsRecordedIff(db: Db, id: nat, r: RequestRecord, now: int)
    requires Ready(db) && id !in db.requests
    ensures StoreModel.RecordRequest(db, id, r, now).Ok? <==>
              && r.requestBytes + r.responseBytes <= U64_MAX
              && (r.startedAt >= Retained(now) ==> forall g: Grain, detailed ::
                    Fits(Plus(Get(db.requestTables.buckets, BucketKeyOf(r, g, detailed)), RequestDelta(r))))
              && (forall detailed ::
                    Fits(Plus(Get(db.requestTables.all, AllKeyOf(r, detailed)), RequestDelta(r))))
  {
    var buckets := RequestBucketKeys(r);
    forall g: Grain, detailed
      ensures BucketKeyOf(r, g, detailed) in buckets
    {
      assert g == Minute || g == Hour;
      assert BucketKeyOf(r, g, detailed) == buckets[(if g == Minute then 0 else 2) + (if detailed then 1 else 0)];
    }
    assert RequestAllKeys(r) == [AllKeyOf(r, false), AllKeyOf(r, true)];
    hide Fits, Plus, RequestDelta, IncrementAll, FloorTo, Target, Ready;
    IncrementsFit(db.requestTables.buckets, buckets, RequestDelta(r));
    IncrementsFit(db.requestTables.all, RequestAllKeys(r), RequestDelta(r));
  }

  /** A new attempt likewise. */
  lemma AttemptIsRecordedIff(db: Db, id: nat, a: AttemptRecord, now: int)
    requires Ready(db) && id !in db.attempts
    ensures StoreModel.RecordAttempt(db, id, a, now).Ok? <==>
              && Fits(Plus(Get(db.attemptTables.all, AttemptKeyOf(a)), AttemptDelta(a)))
              && (a.startedAt >= Retained(now) ==> forall g: Grain ::
                    Fits(Plus(Get(db.attemptTables.buckets, AttemptBucketKeyOf(a, g)), AttemptDelta(a))))
  {
    forall g: Grain
      ensures AttemptBucketKeyOf(a, g) in AttemptBucketKeys(a)
    {
      assert g == Minute || g == Hour;
      assert AttemptBucketKeyOf(a, g) == AttemptBucketKeys(a)[if g == Minute then 0 else 1];
    }
    hide Fits, Plus, AttemptDelta, IncrementAll, FloorTo, Ready;
    IncrementsFit(db.attemptTables.buckets, AttemptBucketKeys(a), AttemptDelta(a));
  }

  // ---------------------------------------------------------------- what the counters count

  lemma TotalTakesAt<K>(m: map<K, Row>, k: K, i: nat)
    requires k in m
    ensures At(Total(m), i) == At(Total(m - {k}), i) + At(m[k], i)
  {
    TotalTakes(m, k);
  }

  /** A counter that is one for the marked rows and zero for the others counts the marked rows. */
  lemma {:induction false} FlagsCount<K>(m: map<K, Row>, i: nat, marked: set<K>)
    requires marked <= m.Keys && forall k :: k in m ==> At(m[k], i) == if k in marked then 1 else 0
    ensures At(Total(m), i) == |marked|
    decreases |m|
  {
    if m == map[] {
      assert marked == {};
    } else {
      var k :| k in m;
      hide Total, At;
      TotalTakesAt(m, k, i);
      FlagsCount(m - {k}, i, marked - {k});
      if k !in marked {
        assert marked - {k} == marked;
      }
    }
  }

  lemma RequestFlags(r: RequestRecord)
    ensures At(RequestDelta(r), 0) == 1 && At(RequestDelta(r), 1) == Flag(r.errorClass.Some?)
    ensures At(RequestDelta(r), 2) == Flag(r.fallback == Some(true))
  {
  }

  ghost function FailedRequests(ledger: map<nat, RequestRecord>, ids: set<nat>): set<nat> {
    set i | i in ids && i in ledger && ledger[i].errorClass.Some?
  }

  ghost function FallbackRequests(ledger: map<nat, RequestRecord>, ids: set<nat>): set<nat> {
    set i | i in ids && i in ledger && ledger[i].fallback == Some(true)
  }

  /** In any total over requests, the first three counters are the numbers of requests, of failed
    * requests and of fallbacks among them. */
  lemma RequestCountersCount(ledger: map<nat, RequestRecord>, m: map<nat, Row>)
    requires forall i :: i in m ==> i in ledger && m[i] == RequestDelta(ledger[i])
    ensures At(Total(m), 0) == |m|
    ensures At(Total(m), 1) == |FailedRequests(ledger, m.Keys)|
    ensures At(Total(m), 2) == |FallbackRequests(ledger, m.Keys)|
  {
    forall i | i in m
      ensures At(m[i], 0) == 1 && At(m[i], 1) == Flag(ledger[i].errorClass.Some?)
      ensures At(m[i], 2) == Flag(ledger[i].fallback == Some(true))
    {
      RequestFlags(ledger[i]);
    }
    hide Total, At, RequestDelta;
    FlagsCount(m, 0, m.Keys);
    FlagsCount(m, 1, FailedRequests(ledger, m.Keys));
    FlagsCount(m, 2, FallbackRequests(ledger, m.Keys));
    assert |m.Keys| == |m|;
  }

  lemma AttemptFlags(a: AttemptRecord)
    ensures At(AttemptDelta(a), 0) == 1 && At(AttemptDelta(a), 1) == Flag(a.errorClass.None?)
    ensures At(AttemptDelta(a), 2) == Flag(a.errorClass.Some?)
  {
  }

  ghost function AttemptsThat(ledger: map<nat, AttemptRecord>, ids: set<nat>, failed: bool): set<nat> {
    set i | i in ids && i in ledger && ledger[i].errorClass.Some? == failed
  }

  /** In any total over attempts, the first three counters are the numbers of attempts, of
    * successes and of errors, and successes and errors add up. */
  lemma AttemptCountersAddUp(ledger: map<nat, AttemptRecord>, m: map<nat, Row>)
    requires forall i :: i in m ==> i in ledger && m[i] == AttemptDelta(ledger[i])
    ensures At(Total(m), 1) == |AttemptsThat(ledger, m.Keys, false)|
    ensures At(Total(m), 2) == |AttemptsThat(ledger, m.Keys, true)|
    ensures At(Total(m), 0) == |m| == At(Total(m), 1) + At(Total(m), 2)
  {
    forall i | i in m
      ensures At(m[i], 0) == 1 && At(m[i], 1) == Flag(ledger[i].errorClass.None?)
      ensures At(m[i], 2) == Flag(ledger[i].errorClass.Some?)
    {
      AttemptFlags(ledger[i]);
    }
    hide Total, At, AttemptDelta;
    FlagsCount(m, 0, m.Keys);
    FlagsCount(m, 1, AttemptsThat(ledger, m.Keys, false));
    FlagsCount(m, 2, AttemptsThat(ledger, m.Keys, true));
    SplitKeys(ledger, m.Keys);
    assert |m.Keys| == |m|;
  }

  lemma SplitKeys(ledger: map<nat, AttemptRecord>, keys: set<nat>)
    requires keys <= ledger.Keys
    ensures |AttemptsThat(ledger, keys, false)| + |AttemptsThat(ledger, keys, true)| == |keys|
  {
    var good, bad := AttemptsThat(ledger, keys, false), AttemptsThat(ledger, keys, true);
    assert good + bad == keys && good !! bad;
  }
}
