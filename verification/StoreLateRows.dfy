/** Rows that come too late for the buckets: a rebuild counts a row of all time, but in no bucket
  * when the retained period of the row has passed. */
module StoreLateRows {
  import opened Prelude
  import opened Counters
  import opened Rollup
  import opened StoreModel
  import opened StoreBooks
  import opened StoreRuns
  import opened StoreQueries
  import opened StoreReads
  import opened StoreTheorems
  import opened StoreRebuild

  /** Every step happens after the row's time has left the retained period. */
  predicate TooLateFor(run: Run, startedAt: int) { forall i :: 0 <= i < |run| ==> startedAt < Retained(run[i].now) }

  lemma {:induction false} LateStepsMiss(first: Db, run: Run, more: Run, id: nat)
    requires id in DbAfter(first, run).requests && id !in RequestsBucketed(first, run)
    requires TooLateFor(more, DbAfter(first, run).requests[id].startedAt)
    ensures id in DbAfter(first, run + more).requests && id !in RequestsBucketed(first, run + more)
    ensures DbAfter(first, run + more).requests[id] == DbAfter(first, run).requests[id]
  {
    hide Next, RequestsApplied, Resets;
    if more == [] {
      assert run + more == run;
    } else {
      var front, last := more[..|more| - 1], more[|more| - 1];
      LateStepsMiss(first, run, front, id);
      assert (run + more)[..|run + more| - 1] == run + front && (run + more)[|run + more| - 1] == last;
      LedgersOnlyGrow(DbAfter(first, run + front), last.step, last.now);
    }
  }

  lemma ResetForgets(first: Db, run: Run, reset: Timed<Step>)
    requires Resets(DbAfter(first, run), reset.step)
    ensures RequestsBucketed(first, run + [reset]) == {}
    ensures DbAfter(first, run + [reset]) == Next(DbAfter(first, run), reset.step, reset.now)
  {
    hide Next, Resets;
    assert (run + [reset])[..|run|] == run;
  }

  /** After a reset, a row whose retained period has passed is in no bucket any more, whatever
    * the rebuild and later steps do: no window that it falls into returns the whole ledger. */
  lemma LateRebuildMisses(first: Db, run: Run, reset: Timed<Step>, more: Run, id: nat, from: int, to: int)
    requires id in DbAfter(first, run).requests && Resets(DbAfter(first, run), reset.step)
    requires TooLateFor(more, DbAfter(first, run).requests[id].startedAt)
    requires StartsIn(DbAfter(first, run).requests[id].startedAt, from, to)
    ensures var db, r := DbAfter(first, run + [reset] + more), DbAfter(first, run).requests[id];
            && id in db.requests && db.requests[id] == r
            && !CoversWindow(db.requests, RequestsBucketed(first, run + [reset] + more), Some(ServedModel(r)),
                             ScopeOf(r, false), from, to)
            && !CoversWindow(db.requests, RequestsBucketed(first, run + [reset] + more), Some(ServedModel(r)),
                             ScopeOf(r, true), from, to)
  {
    var r := DbAfter(first, run).requests[id];
    ResetForgets(first, run, reset);
    LedgersOnlyGrow(DbAfter(first, run), reset.step, reset.now);
    LateStepsMiss(first, run + [reset], more, id);
    hide DbAfter, RequestsBucketed, Resets, StartsIn, TooLateFor, Target;
    assert Concerns(r, Some(ServedModel(r)), ScopeOf(r, false)) && Concerns(r, Some(ServedModel(r)), ScopeOf(r, true));
  }

  // ---------------------------------------------------------------- a run in which that happens

  lemma NoBatch(cursor: Option<nat>)
    ensures Batch({}, cursor) == []
  {
    CounterFits({}, cursor);
  }

  /** A small store without attempts is rebuilt in three batches. */
  lemma ThreeBatches(db: Db, now: int)
    requires Unindexed(db) && StatsMeta(db).version == SCHEMA_VERSION && db.attempts == map[]
    requires |db.requests| < BATCH_SIZE && Backfill(db, now).Ok?
    ensures var e := Next(Next(Next(db, Backfills, now), Backfills, now), Backfills, now);
            && Ready(e) && e.requests == db.requests && e.attempts == db.attempts
            && (db.requests == map[] ==> e.requestTables == db.requestTables)
  {
    hide ApplyRequests, ApplyAttempts, ApplyManyAttemptBuckets, Batch;
    CounterFits(db.requests.Keys, None);
    assert |db.requests.Keys| == |db.requests|;
    NoBatch(None);
    var one := Next(db, Backfills, now);
    FirstBatch(db, now);
    LastBatches(one, now);
  }

  lemma FirstBatch(db: Db, now: int)
    requires Unindexed(db) && StatsMeta(db).version == SCHEMA_VERSION && Backfill(db, now).Ok?
    requires |Batch(db.requests.Keys, None)| < BATCH_SIZE
    ensures var e := Next(db, Backfills, now);
            && e.requests == db.requests && e.attempts == db.attempts && e.meta.Some? && e.bucketMeta.None?
            && StatsMeta(e).version == SCHEMA_VERSION && StatsMeta(e).phase.AttemptsPhase?
            && StatsMeta(e).attemptCursor.None? && StatsMeta(e).migratedAttempts == 0
            && e.attemptTables == db.attemptTables
            && (db.requests == map[] ==> e.requestTables == db.requestTables)
  {
    hide Batch;
    NoBatch(None);
    hide ApplyRequest;
    assert db.requests == map[] ==> db.requests.Keys == {};
  }

  lemma LastBatches(db: Db, now: int)
    requires db.attempts == map[] && db.meta.Some? && db.bucketMeta.None? && StatsMeta(db).version == SCHEMA_VERSION
    requires StatsMeta(db).phase.AttemptsPhase? && StatsMeta(db).migratedAttempts == 0
    requires StatsMeta(db).attemptCursor.None?
    ensures var e := Next(Next(db, Backfills, now), Backfills, now);
            Ready(e) && e.requests == db.requests && e.attempts == db.attempts && e.requestTables == db.requestTables
  {
    hide Batch;
    NoBatch(None);
    assert db.attempts.Keys == {};
  }

  /** New rows with distinct keys fit. */
  lemma {:induction false} NewRowsFit<K>(t: map<K, Row>, keys: seq<K>, amount: Row)
    requires Fits(amount) && (forall i :: 0 <= i < |keys| ==> keys[i] !in t)
    requires forall i, j :: 0 <= i < j < |keys| ==> keys[i] != keys[j]
    ensures IncrementAll(t, keys, amount).Ok?
    ensures forall k :: k in IncrementAll(t, keys, amount).value ==> k in t || k in keys
  {
    if keys != [] {
      var front, last := keys[..|keys| - 1], keys[|keys| - 1];
      NewRowsFit(t, front, amount);
      assert keys == front + [last];
      assert Plus([], amount) == amount;
    }
  }

  function Reset(now: int): Timed<Step> { Timed(now, Downgrades(0)) }

  function Batches(now: int): Run { [Timed(now, Backfills), Timed(now, Backfills), Timed(now, Backfills)] }

  function Rebuild(now: int): Run { [Timed(now, Upgrades)] + Batches(now) }

  lemma OneMoreTimed(db: Db, run: Run, t: Timed<Step>)
    ensures DbAfter(db, run + [t]) == Next(DbAfter(db, run), t.step, t.now) && DbAfter(db, []) == db
  {
    hide Next;
    assert (run + [t])[..|run|] == run;
  }

  lemma BatchesAre(db: Db, now: int)
    ensures DbAfter(db, Batches(now)) == Next(Next(Next(db, Backfills, now), Backfills, now), Backfills, now)
  {
    var b := Timed(now, Backfills);
    OneMoreTimed(db, [], b);
    OneMoreTimed(db, [b], b);
    OneMoreTimed(db, [b, b], b);
    hide Next, DbAfter;
    assert [] + [b] == [b] && [b] + [b] == [b, b] && [b, b] + [b] == Batches(now);
  }

  lemma ResetDb(db: Db, now: int)
    requires StatsMeta(db).version == SCHEMA_VERSION
    ensures var e := Next(Next(db, Downgrades(0), now), Upgrades, now);
            && Unindexed(e) && StatsMeta(e).version == SCHEMA_VERSION && e.requests == db.requests
            && e.attempts == db.attempts
  {
  }

  /** A reset of a small store without attempts, and its rebuild, end ready with the same ledger. */
  lemma RebuildEnds(first: Db, recorded: Run, now: int)
    requires Unindexed(first) && first.requests == map[] && first.attempts == map[]
    requires var db := DbAfter(first, recorded);
             |db.requests| < BATCH_SIZE && db.attempts == map[] && StatsMeta(db).version == SCHEMA_VERSION
    ensures var db := DbAfter(first, recorded + [Reset(now)] + Rebuild(now));
            Ready(db) && db.requests == DbAfter(first, recorded).requests
  {
    var db := DbAfter(first, recorded);
    var restarted := Next(Next(db, Downgrades(0), now), Upgrades, now);
    ResetDb(db, now);
    var up := recorded + [Reset(now)] + [Timed(now, Upgrades)];
    OneMoreTimed(first, recorded, Reset(now));
    OneMoreTimed(first, recorded + [Reset(now)], Timed(now, Upgrades));
    assert DbAfter(first, up) == restarted;
    hide Next, DbAfter, Backfill, Unindexed, Ready, StatsMeta, Batches;
    NewStoreNeverFails(first, up, now);
    ThreeBatches(restarted, now);
    BatchesAre(restarted, now);
    RunsCompose(first, up, Batches(now));
    assert recorded + [Reset(now)] + Rebuild(now) == up + Batches(now);
  }

  const ROW := RequestRecord(0, None, None, None, None, None, None, None, None, 0, 0,
                             Usage(0, 0, 0, 0, 0, 0, 0, false), "")

  const NEW_STORE := Db(map[], map[], RequestTables(map[], map[]), AttemptTables(map[], map[]), None, None)

  function Recorded(): Run { Batches(0) + [Timed(0, RecordsRequest(0, ROW))] }

  lemma RowKeys()
    ensures RequestAllKeys(ROW)[0] != RequestAllKeys(ROW)[1]
    ensures forall i, j :: 0 <= i < j < 4 ==> RequestBucketKeys(ROW)[i] != RequestBucketKeys(ROW)[j]
    ensures Fits(RequestDelta(ROW))
  {
    hide FloorTo;
  }

  lemma RowApplies()
    ensures ApplyRequest(RequestTables(map[], map[]), ROW, 0).Ok?
  {
    RowKeys();
    NewRowsFit(map[], RequestAllKeys(ROW), RequestDelta(ROW));
    NewRowsFit(map[], RequestBucketKeys(ROW), RequestDelta(ROW));
    hide IncrementAll, RequestDelta, RequestAllKeys, RequestBucketKeys;
  }

  lemma RowIsRecorded(db: Db)
    requires Ready(db) && db.requests == map[] && db.requestTables == RequestTables(map[], map[])
    ensures var e := Next(db, RecordsRequest(0, ROW), 0);
            e.requests == map[0 := ROW] && e.attempts == db.attempts && e.meta == db.meta
  {
    RowApplies();
    hide ApplyRequest;
  }

  lemma RecordedStore()
    ensures var db := DbAfter(NEW_STORE, Recorded());
            db.requests == map[0 := ROW] && db.attempts == map[] && StatsMeta(db).version == SCHEMA_VERSION
  {
    NewStoreNeverFails(NEW_STORE, [], 0);
    assert DbAfter(NEW_STORE, []) == NEW_STORE;
    ThreeBatches(NEW_STORE, 0);
    BatchesAre(NEW_STORE, 0);
    OneMoreTimed(NEW_STORE, Batches(0), Timed(0, RecordsRequest(0, ROW)));
    hide Next, DbAfter;
    RowIsRecorded(DbAfter(NEW_STORE, Batches(0)));
  }

  lemma {:induction false} NothingPruned(first: Db, run: Run)
    requires forall i :: 0 <= i < |run| ==> !run[i].step.Prunes?
    ensures CutoffAfter(first, run).None?
  {
    hide DbAfter, Resets;
    if run != [] {
      NothingPruned(first, run[..|run| - 1]);
    }
  }

  lemma RunIsPlain(now: int)
    requires now >= 0
    ensures var run := Recorded() + [Reset(now)] + Rebuild(now);
            ClockRuns(run) && forall i :: 0 <= i < |run| ==> !run[i].step.Prunes?
  {
  }

  lemma RowIsLate(db: Db, now: int)
    requires now > RETENTION_MS
    ensures Resets(db, Reset(now).step) && TooLateFor(Rebuild(now), ROW.startedAt)
    ensures StartsIn(ROW.startedAt, 0, MINUTE_MS) && ScopeOf(ROW, false) == ModelScope
  {
  }

  /** A row is recorded in time; a downgrade and an upgrade that come when it has expired rebuild
    * everything; and a ready store, with nothing pruned, misses the row in its window. */
  lemma LateRebuildHappens(now: int)
    requires now > RETENTION_MS
    ensures var run := Recorded() + [Reset(now)] + Rebuild(now);
            var db := DbAfter(NEW_STORE, run);
            && Unindexed(NEW_STORE) && ClockRuns(run) && Ready(db) && CutoffAfter(NEW_STORE, run).None?
            && db.requests == map[0 := ROW]
            && !CoversWindow(db.requests, RequestsBucketed(NEW_STORE, run), Some(ServedModel(ROW)), ModelScope,
                             0, MINUTE_MS)
  {
    RecordedStore();
    RebuildEnds(NEW_STORE, Recorded(), now);
    RowIsLate(DbAfter(NEW_STORE, Recorded()), now);
    RunIsPlain(now);
    NothingPruned(NEW_STORE, Recorded() + [Reset(now)] + Rebuild(now));
    hide *;
    LateRebuildMisses(NEW_STORE, Recorded(), Reset(now), Rebuild(now), 0, 0, MINUTE_MS);
  }
}
