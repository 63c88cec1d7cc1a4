/** The statistics store: the tables, changed in place one transaction at a time. */
module Store {
  import opened Prelude
  import opened Sets
  import opened Counters
  import opened Rollup
  import opened StoreModel
  import opened StoreBooks
  import opened StoreRuns
  import opened StoreQueries
  import opened StoreReads

  // ---------------------------------------------------------------- inside a transaction

  /** Reads the next batch of ids in key order. */
  method ReadBatch(keys: set<nat>, cursor: Option<nat>) returns (ids: seq<nat>)
    ensures ids == Batch(keys, cursor)
  {
    var rest := Remaining(keys, cursor);
    ghost var all := Ascending(rest);
    ids := [];
    while rest != {} && |ids| < BATCH_SIZE
      invariant |ids| <= BATCH_SIZE && ids + Ascending(rest) == all
      decreases |rest|
    {
      var id := Least(rest);
      Associates(ids, [id], Ascending(rest - {id}));
      ids := ids + [id];
      rest := rest - {id};
    }
  }

  method IncrementEach<K(==)>(t: map<K, Row>, keys: seq<K>, amount: Row) returns (r: Result<map<K, Row>, string>)
    ensures r == IncrementAll(t, keys, amount)
  {
    hide Increment;
    r := Ok(t);
    for i := 0 to |keys|
      invariant r.Ok? && r == IncrementAll(t, keys[..i], amount)
    {
      assert keys[..i + 1][..i] == keys[..i];
      r := Increment(r.value, keys[i], amount);
      if r.Err? {
        FailedIncrement(t, keys, i + 1, amount);
        return;
      }
    }
    assert keys[..|keys|] == keys;
  }

  lemma {:induction false} FailedIncrement<K>(t: map<K, Row>, keys: seq<K>, n: nat, amount: Row)
    requires n <= |keys| && IncrementAll(t, keys[..n], amount).Err?
    ensures IncrementAll(t, keys, amount) == IncrementAll(t, keys[..n], amount)
  {
    hide Increment;
    if n == |keys| {
      assert keys[..n] == keys;
    } else {
      var front := keys[..|keys| - 1];
      assert front[..n] == keys[..n];
      FailedIncrement(t, front, n, amount);
    }
  }

  method ApplyRequestRollup(tables: RequestTables, r: RequestRecord, now: int)
    returns (result: Result<RequestTables, string>)
    ensures result == ApplyRequest(tables, r, now)
  {
    hide IncrementAll, RequestBucketKeys, RequestAllKeys;
    if r.requestBytes + r.responseBytes > U64_MAX {
      return Err("request byte count overflow");
    }
    var delta := RequestDelta(r);
    var buckets := tables.buckets;
    if r.startedAt >= Max(now - RETENTION_MS, I64_MIN) {
      var more := IncrementEach(buckets, RequestBucketKeys(r), delta);
      if more.Err? {
        return Err(more.error);
      }
      buckets := more.value;
    }
    var all := IncrementEach(tables.all, RequestAllKeys(r), delta);
    if all.Err? {
      return Err(all.error);
    }
    return Ok(RequestTables(buckets, all.value));
  }

  method ApplyBuckets(t: map<AttemptBucketKey, Row>, a: AttemptRecord, now: int)
    returns (result: Result<map<AttemptBucketKey, Row>, string>)
    ensures result == ApplyAttemptBuckets(t, a, now)
  {
    hide IncrementAll, AttemptBucketKeys;
    if a.startedAt < Max(now - RETENTION_MS, I64_MIN) {
      return Ok(t);
    }
    result := IncrementEach(t, AttemptBucketKeys(a), AttemptDelta(a));
  }

  lemma {:induction false} FailedRequest(t: RequestTables, ledger: map<nat, RequestRecord>, ids: seq<nat>, n: nat,
                                         now: int)
    requires Within(ids, ledger) && n <= |ids| && ApplyRequests(t, ledger, ids[..n], now).Err?
    ensures ApplyRequests(t, ledger, ids, now) == ApplyRequests(t, ledger, ids[..n], now)
  {
    hide ApplyRequest;
    if n == |ids| {
      assert ids[..n] == ids;
    } else {
      assert ids[..|ids| - 1][..n] == ids[..n];
      FailedRequest(t, ledger, ids[..|ids| - 1], n, now);
    }
  }

  method ApplyRequestBatch(tables: RequestTables, ledger: map<nat, RequestRecord>, ids: seq<nat>, now: int)
    returns (result: Result<RequestTables, string>)
    requires Within(ids, ledger)
    ensures result == ApplyRequests(tables, ledger, ids, now)
  {
    hide ApplyRequest;
    result := Ok(tables);
    for i := 0 to |ids|
      invariant result.Ok? && result == ApplyRequests(tables, ledger, ids[..i], now)
    {
      assert ids[..i + 1][..i] == ids[..i];
      result := ApplyRequestRollup(result.value, ledger[ids[i]], now);
      if result.Err? {
        FailedRequest(tables, ledger, ids, i + 1, now);
        return;
      }
    }
    assert ids[..|ids|] == ids;
  }

  lemma {:induction false} FailedAttempt(t: map<AttemptKey, Row>, ledger: map<nat, AttemptRecord>, ids: seq<nat>,
                                         n: nat)
    requires Within(ids, ledger) && n <= |ids| && ApplyAttempts(t, ledger, ids[..n]).Err?
    ensures ApplyAttempts(t, ledger, ids) == ApplyAttempts(t, ledger, ids[..n])
  {
    hide ApplyAttempt;
    if n == |ids| {
      assert ids[..n] == ids;
    } else {
      assert ids[..|ids| - 1][..n] == ids[..n];
      FailedAttempt(t, ledger, ids[..|ids| - 1], n);
    }
  }

  method ApplyAttemptBatch(t: map<AttemptKey, Row>, ledger: map<nat, AttemptRecord>, ids: seq<nat>)
    returns (result: Result<map<AttemptKey, Row>, string>)
    requires Within(ids, ledger)
    ensures result == ApplyAttempts(t, ledger, ids)
  {
    hide ApplyAttempt;
    result := Ok(t);
    for i := 0 to |ids|
      invariant result.Ok? && result == ApplyAttempts(t, ledger, ids[..i])
    {
      assert ids[..i + 1][..i] == ids[..i];
      result := ApplyAttempt(result.value, ledger[ids[i]]);
      if result.Err? {
        FailedAttempt(t, ledger, ids, i + 1);
        return;
      }
    }
    assert ids[..|ids|] == ids;
  }

  lemma {:induction false} FailedBuckets(t: map<AttemptBucketKey, Row>, ledger: map<nat, AttemptRecord>, ids: seq<nat>,
                                         n: nat, now: int)
    requires Within(ids, ledger) && n <= |ids| && ApplyManyAttemptBuckets(t, ledger, ids[..n], now).Err?
    ensures ApplyManyAttemptBuckets(t, ledger, ids, now) == ApplyManyAttemptBuckets(t, ledger, ids[..n], now)
  {
    hide ApplyAttemptBuckets;
    if n == |ids| {
      assert ids[..n] == ids;
    } else {
      assert ids[..|ids| - 1][..n] == ids[..n];
      FailedBuckets(t, ledger, ids[..|ids| - 1], n, now);
    }
  }

  method ApplyBucketBatch(t: map<AttemptBucketKey, Row>, ledger: map<nat, AttemptRecord>, ids: seq<nat>, now: int)
    returns (result: Result<map<AttemptBucketKey, Row>, string>)
    requires Within(ids, ledger)
    ensures result == ApplyManyAttemptBuckets(t, ledger, ids, now)
  {
    hide ApplyAttemptBuckets;
    result := Ok(t);
    for i := 0 to |ids|
      invariant result.Ok? && result == ApplyManyAttemptBuckets(t, ledger, ids[..i], now)
    {
      assert ids[..i + 1][..i] == ids[..i];
      result := ApplyBuckets(result.value, ledger[ids[i]], now);
      if result.Err? {
        FailedBuckets(t, ledger, ids, i + 1, now);
        return;
      }
    }
    assert ids[..|ids|] == ids;
  }

  // ---------------------------------------------------------------- progress of the rebuild

  function PhaseRank(p: Phase): nat { if p.RequestsPhase? then 2 else if p.AttemptsPhase? then 1 else 0 }

  /** How much of the ledger the current phase still has to pass. */
  function Pending(db: Db, m: Meta): nat {
    match m.phase
    case RequestsPhase => |Remaining(db.requests.Keys, m.requestCursor)|
    case AttemptsPhase => |Remaining(db.attempts.Keys, m.attemptCursor)|
    case ReadyPhase => 0
  }

  lemma BatchShrinks(keys: set<nat>, cursor: Option<nat>)
    requires Batch(keys, cursor) != []
    ensures |Remaining(keys, Advanced(cursor, Batch(keys, cursor)))| < |Remaining(keys, cursor)|
  {
    var before := Remaining(keys, cursor);
    var ids := Batch(keys, cursor);
    var last := ids[|ids| - 1];
    AscendingMembers(before);
    hide Ascending;
    assert last == Ascending(before)[|ids| - 1];
    assert last in before;
    var after := Remaining(keys, Advanced(cursor, ids));
    assert after <= before - {last};
    Smaller(after, before - {last});
    assert |before - {last}| == |before| - 1;
  }

  lemma Smaller(a: set<nat>, b: set<nat>)
    requires a <= b
    ensures |a| <= |b|
  {
    assert b == a + (b - a);
  }

  lemma BackfillRequestsProgresses(db: Db, m: Meta, now: int)
    requires m.phase.RequestsPhase? && BackfillRequests(db, m, now).Ok?
    ensures var e := BackfillRequests(db, m, now).value;
            && e == db.(requestTables := e.requestTables, meta := e.meta) && e.meta.Some?
            && e.meta.value.version == m.version && !e.meta.value.phase.ReadyPhase?
            && (e.meta.value.phase.RequestsPhase? ==> Pending(e, e.meta.value) < Pending(db, m))
  {
    hide Batch, Remaining, Advanced, ApplyRequests;
    BatchIsWithin(db.requests, m.requestCursor);
    if |Batch(db.requests.Keys, m.requestCursor)| > 0 {
      BatchShrinks(db.requests.Keys, m.requestCursor);
    }
  }

  lemma BackfillAttemptsProgresses(db: Db, m: Meta)
    requires m.phase.AttemptsPhase? && BackfillAttempts(db, m).Ok?
    ensures var e := BackfillAttempts(db, m).value;
            && e == db.(attemptTables := e.attemptTables, meta := e.meta) && e.meta.Some?
            && e.meta.value.version == m.version && !e.meta.value.phase.RequestsPhase?
            && (e.meta.value.phase.AttemptsPhase? ==> Pending(e, e.meta.value) < Pending(db, m))
  {
    hide Batch, Remaining, Advanced, ApplyAttempts;
    BatchIsWithin(db.attempts, m.attemptCursor);
    if |Batch(db.attempts.Keys, m.attemptCursor)| > 0 {
      BatchShrinks(db.attempts.Keys, m.attemptCursor);
    }
  }

  lemma BackfillBucketsProgresses(db: Db, m: BucketMeta, now: int)
    requires BackfillBuckets(db, m, now).Ok?
    ensures var e := BackfillBuckets(db, m, now).value;
            && e == db.(attemptTables := e.attemptTables, bucketMeta := e.bucketMeta) && e.bucketMeta.Some?
            && (!e.bucketMeta.value.ready ==>
                  |Remaining(e.attempts.Keys, e.bucketMeta.value.cursor)| < |Remaining(db.attempts.Keys, m.cursor)|)
  {
    hide Batch, Remaining, Advanced, ApplyManyAttemptBuckets;
    BatchIsWithin(db.attempts, m.cursor);
    if |Batch(db.attempts.Keys, m.cursor)| > 0 {
      BatchShrinks(db.attempts.Keys, m.cursor);
    }
  }

  lemma OneMoreStep(db: Db, run: Run, t: Timed<Step>)
    ensures DbAfter(db, run + [t]) == Next(DbAfter(db, run), t.step, t.now)
  {
    hide Next;
    assert (run + [t])[..|run|] == run;
  }

  lemma OneStep(db: Db, t: Timed<Step>)
    ensures DbAfter(db, [t]) == Next(db, t.step, t.now)
  {
    hide Next;
    assert [t][..0] == [];
  }

  /** The steps of a start-up: the schema check, batches, and the pruning of expired buckets. */
  predicate IsStartUp(run: Run) {
    forall i :: 0 <= i < |run| ==>
      run[i].step.Upgrades? || run[i].step.Backfills? || run[i].step == Prunes(Retained(run[i].now))
  }

  class StatsStore {
    var requests: map<nat, RequestRecord>
    var attempts: map<nat, AttemptRecord>
    var requestBuckets: map<BucketKey, Row>
    var requestAll: map<AllKey, Row>
    var attemptBuckets: map<AttemptBucketKey, Row>
    var attemptAll: map<AttemptKey, Row>
    var meta: Option<Meta>
    var bucketMeta: Option<BucketMeta>

    function Tables(): Db
      reads this
    {
      Db(requests, attempts, RequestTables(requestBuckets, requestAll), AttemptTables(attemptBuckets, attemptAll),
         meta, bucketMeta)
    }

    /** Opens what was committed before. */
    constructor (stored: Db)
      ensures Tables() == stored
    {
      requests, attempts := stored.requests, stored.attempts;
      requestBuckets, requestAll := stored.requestTables.buckets, stored.requestTables.all;
      attemptBuckets, attemptAll := stored.attemptTables.buckets, stored.attemptTables.all;
      meta, bucketMeta := stored.meta, stored.bucketMeta;
    }

    /** The request is recorded and counted, or nothing changes. */
    method RecordRequest(id: nat, r: RequestRecord, now: int) returns (result: Result<(), string>)
      modifies this
      ensures Tables() == Next(old(Tables()), RecordsRequest(id, r), now)
      ensures result.Ok? <==> StoreModel.RecordRequest(old(Tables()), id, r, now).Ok?
    {
      hide ApplyRequest;
      if !Ready(Tables()) {
        return Err("statistics schema migration is not complete");
      }
      if id in requests {
        if requests[id] == r {
          return Ok(());
        }
        return Err("request already exists with different contents");
      }
      var tables := ApplyRequestRollup(RequestTables(requestBuckets, requestAll), r, now);
      if tables.Err? {
        return Err(tables.error);
      }
      requests, requestBuckets, requestAll := requests[id := r], tables.value.buckets, tables.value.all;
      return Ok(());
    }

    /** The attempt is recorded and counted, or nothing changes. */
    method RecordAttempt(id: nat, a: AttemptRecord, now: int) returns (result: Result<(), string>)
      modifies this
      ensures Tables() == Next(old(Tables()), RecordsAttempt(id, a), now)
      ensures result.Ok? <==> StoreModel.RecordAttempt(old(Tables()), id, a, now).Ok?
    {
      hide ApplyAttempt, ApplyAttemptBuckets;
      if !Ready(Tables()) {
        return Err("statistics schema migration is not complete");
      }
      if id in attempts {
        if attempts[id] == a {
          return Ok(());
        }
        return Err("attempt already exists with different contents");
      }
      var all := ApplyAttempt(attemptAll, a);
      if all.Err? {
        return Err(all.error);
      }
      var buckets := ApplyBuckets(attemptBuckets, a, now);
      if buckets.Err? {
        return Err(buckets.error);
      }
      attempts, attemptAll, attemptBuckets := attempts[id := a], all.value, buckets.value;
      return Ok(());
    }

    method ResetRollups(version: nat)
      modifies this
      ensures Tables() == StoreModel.ResetRollups(old(Tables()), version)
    {
      requestBuckets, requestAll, attemptAll, attemptBuckets := map[], map[], map[], map[];
      bucketMeta := None;
      meta := Some(FreshMeta(version));
    }

    method DowngradeStatsSchema(version: nat) returns (result: Result<(), string>)
      modifies this
      ensures Tables() == Next(old(Tables()), Downgrades(version), 0)
      ensures result.Ok? <==> version < SCHEMA_VERSION
    {
      if version >= SCHEMA_VERSION {
        return Err("downgrade target is not older than the current statistics schema");
      }
      ResetRollups(version);
      return Ok(());
    }

    method PruneStats(cutoff: int)
      modifies this
      ensures Tables() == Prune(old(Tables()), cutoff)
      ensures forall k :: k in requestBuckets <==> k in old(requestBuckets) && k.bucket >= FloorTo(cutoff, 60_000)
      ensures forall k :: k in attemptBuckets <==> k in old(attemptBuckets) && k.bucket >= FloorTo(cutoff, 60_000)
    {
      var c := FloorTo(cutoff, MINUTE_MS);
      requestBuckets := map k | k in requestBuckets && k.bucket >= c :: requestBuckets[k];
      attemptBuckets := map k | k in attemptBuckets && k.bucket >= c :: attemptBuckets[k];
    }

    method PruneExpiredStats(now: int)
      modifies this
      ensures Tables() == Next(old(Tables()), Prunes(Retained(now)), now)
    {
      PruneStats(Max(now - RETENTION_MS, I64_MIN));
    }

    /** One batch of requests; `m` is the caller's copy of the progress marker. */
    method BackfillRequestsBatch(m: Meta, now: int) returns (result: Result<Meta, string>)
      modifies this
      ensures var r := BackfillRequests(old(Tables()), m, now);
              && result.Ok? == r.Ok? && Tables() == (if r.Ok? then r.value else old(Tables()))
              && (r.Ok? ==> meta == Some(result.value))
    {
      hide Batch, ApplyRequests, Advanced;
      var ids := ReadBatch(requests.Keys, m.requestCursor);
      BatchIsWithin(requests, m.requestCursor);
      var tables := ApplyRequestBatch(RequestTables(requestBuckets, requestAll), requests, ids, now);
      if tables.Err? {
        return Err(tables.error);
      }
      if m.migratedRequests + |ids| > U64_MAX {
        return Err("request migration counter overflow");
      }
      var after := m.(requestCursor := Advanced(m.requestCursor, ids), migratedRequests := m.migratedRequests + |ids|);
      if |ids| < BATCH_SIZE {
        after := after.(phase := AttemptsPhase);
      }
      requestBuckets, requestAll, meta := tables.value.buckets, tables.value.all, Some(after);
      return Ok(after);
    }

    /** One batch of attempts. */
    method BackfillAttemptsBatch(m: Meta) returns (result: Result<Meta, string>)
      modifies this
      ensures var r := BackfillAttempts(old(Tables()), m);
              && result.Ok? == r.Ok? && Tables() == (if r.Ok? then r.value else old(Tables()))
              && (r.Ok? ==> meta == Some(result.value))
    {
      hide Batch, ApplyAttempts, Advanced;
      var ids := ReadBatch(attempts.Keys, m.attemptCursor);
      BatchIsWithin(attempts, m.attemptCursor);
      var all := ApplyAttemptBatch(attemptAll, attempts, ids);
      if all.Err? {
        return Err(all.error);
      }
      if m.migratedAttempts + |ids| > U64_MAX {
        return Err("attempt migration counter overflow");
      }
      var after := m.(attemptCursor := Advanced(m.attemptCursor, ids), migratedAttempts := m.migratedAttempts + |ids|);
      if |ids| < BATCH_SIZE {
        after := after.(phase := ReadyPhase);
      }
      attemptAll, meta := all.value, Some(after);
      return Ok(after);
    }

    /** One batch of attempt buckets. */
    method BackfillAttemptBucketsBatch(m: BucketMeta, now: int) returns (result: Result<BucketMeta, string>)
      modifies this
      ensures var r := BackfillBuckets(old(Tables()), m, now);
              && result.Ok? == r.Ok? && Tables() == (if r.Ok? then r.value else old(Tables()))
              && (r.Ok? ==> bucketMeta == Some(result.value))
    {
      hide Batch, ApplyManyAttemptBuckets, Advanced;
      var ids := ReadBatch(attempts.Keys, m.cursor);
      BatchIsWithin(attempts, m.cursor);
      var buckets := ApplyBucketBatch(attemptBuckets, attempts, ids, now);
      if buckets.Err? {
        return Err(buckets.error);
      }
      var after := BucketMeta(Advanced(m.cursor, ids), |ids| < BATCH_SIZE);
      attemptBuckets, bucketMeta := buckets.value, Some(after);
      return Ok(after);
    }

    /** The two phases of the rebuild, a transaction a batch, from the committed marker to ready. */
    method Rebuild(clock: nat -> int, start: nat) returns (result: Result<(), string>, next: nat, ghost run: Run)
      requires StatsMeta(Tables()).version == SCHEMA_VERSION
      modifies this
      ensures IsStartUp(run) && Timely(run, clock, start) && next == start + |run|
              && Tables() == DbAfter(old(Tables()), run)
      ensures requests == old(requests) && attempts == old(attempts)
      ensures result.Ok? ==> StatsMeta(Tables()).version == SCHEMA_VERSION && StatsMeta(Tables()).phase.ReadyPhase?
      ensures result.Err? ==> StatsMeta(Tables()).version == SCHEMA_VERSION && Backfill(Tables(), clock(next)).Err?
    {
      hide Next, BackfillRequests, BackfillAttempts, Backfill, DbAfter, Pending;
      run, next := [], start;
      NoStep(Tables());
      var m := meta.GetOr(FreshMeta(SCHEMA_VERSION));
      while !m.phase.ReadyPhase?
        invariant m == StatsMeta(Tables()) && m.version == SCHEMA_VERSION
        invariant IsStartUp(run) && Timely(run, clock, start) && next == start + |run|
        invariant Tables() == DbAfter(old(Tables()), run)
        invariant requests == old(requests) && attempts == old(attempts)
        decreases PhaseRank(m.phase), Pending(Tables(), m)
      {
        ghost var before := Tables();
        BackfillsPhase(before, clock(next));
        if m.phase.RequestsPhase? {
          var done := BackfillRequestsBatch(m, clock(next));
          if done.Err? {
            return Err(done.error), next, run;
          }
          BackfillRequestsProgresses(before, m, clock(next));
          m := done.value;
        } else {
          var done := BackfillAttemptsBatch(m);
          if done.Err? {
            return Err(done.error), next, run;
          }
          BackfillAttemptsProgresses(before, m);
          m := done.value;
        }
        OneMoreStep(old(Tables()), run, Timed(clock(next), Backfills));
        run := run + [Timed(clock(next), Backfills)];
        next := next + 1;
      }
      result := Ok(());
    }

    method EnsureAttemptBuckets(clock: nat -> int, start: nat)
      returns (result: Result<(), string>, next: nat, ghost run: Run)
      requires StatsMeta(Tables()).version == SCHEMA_VERSION && StatsMeta(Tables()).phase.ReadyPhase?
      modifies this
      ensures IsStartUp(run) && Timely(run, clock, start) && next == start + |run|
              && Tables() == DbAfter(old(Tables()), run)
      ensures requests == old(requests) && attempts == old(attempts)
      ensures result.Ok? ==> Ready(Tables())
      ensures result.Err? ==> StatsMeta(Tables()).version == SCHEMA_VERSION && Backfill(Tables(), clock(next)).Err?
    {
      hide Next, BackfillBuckets, Backfill, DbAfter, Remaining;
      run, next := [], start;
      NoStep(Tables());
      var m := bucketMeta.GetOr(FRESH_BUCKET_META);
      while !m.ready
        invariant m == AttemptBucketMeta(Tables()) && meta == old(meta)
        invariant IsStartUp(run) && Timely(run, clock, start) && next == start + |run|
        invariant Tables() == DbAfter(old(Tables()), run)
        invariant requests == old(requests) && attempts == old(attempts)
        decreases !m.ready, |Remaining(attempts.Keys, m.cursor)|
      {
        ghost var before := Tables();
        BackfillsBuckets(before, clock(next));
        var done := BackfillAttemptBucketsBatch(m, clock(next));
        if done.Err? {
          return Err(done.error), next, run;
        }
        BackfillBucketsProgresses(before, m, clock(next));
        m := done.value;
        OneMoreStep(old(Tables()), run, Timed(clock(next), Backfills));
        run := run + [Timed(clock(next), Backfills)];
        next := next + 1;
      }
      result := Ok(());
    }

    /** Resumes or restarts the rebuild and takes it to its end. Each batch is a transaction of
      * its own, so what a start-up does to the tables is a run of steps, and a start-up that
      * succeeds leaves a store that takes records. `clock` gives the readings of the clock. */
    method EnsureStatsSchema(clock: nat -> int) returns (result: Result<(), string>, ghost run: Run)
      modifies this
      ensures IsStartUp(run) && Timely(run, clock, 0) && Tables() == DbAfter(old(Tables()), run)
      ensures requests == old(requests) && attempts == old(attempts)
      ensures result.Ok? ==> Ready(Tables())
      ensures result.Ok? ==>
                |run| > 0 && var now := clock(|run| - 1);
                && run[|run| - 1] == Timed(now, Prunes(Retained(now)))
                && (forall k :: k in requestBuckets ==> k.bucket >= FloorTo(Retained(now), 60_000))
                && (forall k :: k in attemptBuckets ==> k.bucket >= FloorTo(Retained(now), 60_000))
      ensures StatsMeta(old(Tables())).version > SCHEMA_VERSION ==> result.Err? && run == []
      ensures result.Err? && StatsMeta(old(Tables())).version <= SCHEMA_VERSION ==>
                StatsMeta(Tables()).version == SCHEMA_VERSION && Backfill(Tables(), clock(|run|)).Err?
    {
      hide Next, Prune, DbAfter, Upgrade, Backfill;
      run := [];
      NoStep(Tables());
      var m := meta.GetOr(FreshMeta(SCHEMA_VERSION));
      if m.version > SCHEMA_VERSION {
        return Err("unsupported statistics schema version"), run;
      }
      UpgradeIs(Tables(), clock(0));
      if m.version < SCHEMA_VERSION {
        ResetRollups(SCHEMA_VERSION);
      }
      run := [Timed(clock(0), Upgrades)];
      OneStep(old(Tables()), run[0]);
      assert Tables() == DbAfter(old(Tables()), run);
      var rebuilt, tick, more := Rebuild(clock, 1);
      run := Joined(old(Tables()), run, more, clock);
      if rebuilt.Err? {
        return rebuilt, run;
      }
      result, tick, more := EnsureAttemptBuckets(clock, tick);
      run := Joined(old(Tables()), run, more, clock);
      if result.Err? {
        return;
      }
      PruneKeepsReady(Tables(), clock(tick));
      ghost var before := Tables();
      OneStep(Tables(), Timed(clock(tick), Prunes(Retained(clock(tick)))));
      PruneExpiredStats(clock(tick));
      PruneDropsOld(before, clock(tick));
      run := Joined(old(Tables()), run, [Timed(clock(tick), Prunes(Retained(clock(tick))))], clock);
    }

    /** The totals of a model: of all time without bounds, of a window with both, and an error
      * when the bounds are incomplete or crossed, or when a total does not fit. */
    method RoutingRollup(model: string, from: Option<int>, to: Option<int>)
      returns (r: Result<StoreQueries.RoutingRollup, string>)
      ensures from.None? && to.None? ==> (r.Ok? <==> AllFit(AllTimeEntries(requestAll, model)))
      ensures from.None? && to.None? && r.Ok? ==> Accounts(r.value, AllTimeEntries(requestAll, model))
      ensures from.Some? && to.Some? && from.value <= to.value ==>
                (r.Ok? <==> AllFit(WindowEntries(requestBuckets, model, from.value, to.value)))
      ensures from.Some? && to.Some? && from.value <= to.value && r.Ok? ==>
                Accounts(r.value, WindowEntries(requestBuckets, model, from.value, to.value))
      ensures from.Some? != to.Some? || (from.Some? && from.value > to.value) ==> r.Err?
    {
      hide Accounts, AllFit, AllTimeEntries, WindowEntries;
      if from.None? && to.None? {
        r := ReadAllTime(requestAll, model);
      } else if from.Some? && to.Some? && from.value <= to.value {
        r := ReadWindow(requestBuckets, model, from.value, to.value);
      } else {
        r := Err("statistics range must provide a valid from_ms and to_ms");
      }
    }

    /** The overview of a bounded window: the requests of every known model, and the attempts. */
    method OverviewRollupWindow(from: int, to: int) returns (r: Result<OverviewRollup, string>)
      ensures r.Ok? <==>
                && from <= to
                && OverviewFits(requestBuckets, KnownModels(requestAll), from, to)
                && AllFit(AttemptWindowEntries(attemptBuckets, from, to))
      ensures r.Ok? ==>
                && r.value.requests
                   == Total(RowsOf(requestBuckets, OverviewKeys(requestBuckets, KnownModels(requestAll), from, to)))
                && Indexes(r.value.attempts, AttemptWindowEntries(attemptBuckets, from, to))
    {
      hide Indexes, Total, AttemptWindowEntries, OverviewKeys, RowsOf, OverviewFits, AllFit;
      if from > to {
        return Err("statistics range must provide a valid from_ms and to_ms");
      }
      var models := set k | k in requestAll && k.scope.ModelScope? :: k.model;
      var requests := ReadOverview(requestBuckets, models, from, to);
      if requests.Err? {
        return Err(requests.error);
      }
      var attempts := ReadAttemptWindow(attemptBuckets, from, to);
      if attempts.Err? {
        return Err(attempts.error);
      }
      return Ok(OverviewRollup(requests.value, attempts.value));
    }
  }

  datatype OverviewRollup = OverviewRollup(requests: Row, attempts: map<AttemptKey, Row>)

  ghost predicate Timely(run: Run, clock: nat -> int, start: nat) {
    forall i :: 0 <= i < |run| ==> run[i].now == clock(start + i)
  }

  lemma NoStep(db: Db)
    ensures DbAfter(db, []) == db
  {
  }

  lemma BackfillsPhase(db: Db, now: int)
    requires StatsMeta(db).version == SCHEMA_VERSION && !StatsMeta(db).phase.ReadyPhase?
    ensures var m := StatsMeta(db);
            var r := if m.phase.RequestsPhase? then BackfillRequests(db, m, now) else BackfillAttempts(db, m);
            Next(db, Backfills, now) == (if r.Ok? then r.value else db) && Backfill(db, now) == r
  {
    hide BackfillRequests, BackfillAttempts;
  }

  lemma BackfillsBuckets(db: Db, now: int)
    requires StatsMeta(db).version == SCHEMA_VERSION && StatsMeta(db).phase.ReadyPhase? && !AttemptBucketMeta(db).ready
    ensures var r := BackfillBuckets(db, AttemptBucketMeta(db), now);
            Next(db, Backfills, now) == (if r.Ok? then r.value else db) && Backfill(db, now) == r
  {
    hide BackfillBuckets;
  }

  lemma UpgradeIs(db: Db, now: int)
    requires StatsMeta(db).version <= SCHEMA_VERSION
    ensures Next(db, Upgrades, now)
            == if StatsMeta(db).version < SCHEMA_VERSION then StoreModel.ResetRollups(db, SCHEMA_VERSION) else db
  {
  }

  lemma PruneDropsOld(db: Db, now: int)
    ensures var (e, c) := (Next(db, Prunes(Retained(now)), now), FloorTo(Retained(now), 60_000));
            && (forall k :: k in e.requestTables.buckets ==> k.bucket >= c)
            && (forall k :: k in e.attemptTables.buckets ==> k.bucket >= c)
  {
  }

  lemma PruneKeepsReady(db: Db, now: int)
    requires Ready(db)
    ensures var e := Next(db, Prunes(Retained(now)), now);
            Ready(e) && e.requests == db.requests && e.attempts == db.attempts
  {
  }

  lemma Joined(db: Db, run: Run, more: Run, clock: nat -> int) returns (all: Run)
    requires IsStartUp(run) && IsStartUp(more) && Timely(run, clock, 0) && Timely(more, clock, |run|)
    ensures all == run + more && IsStartUp(all) && Timely(all, clock, 0)
    ensures DbAfter(db, all) == DbAfter(DbAfter(db, run), more)
  {
    RunsCompose(db, run, more);
    all := run + more;
    hide DbAfter, Next;
  }
}
