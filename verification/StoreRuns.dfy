/** Runs of the statistics store: live recording, batched backfills, resets, pruning and crashes,
  * in any order. Each step is one committed transaction or a refusal that changes nothing, so a
  * crash between steps leaves just the last committed database. */
module StoreRuns {
  import opened Prelude
  import opened Sets
  import opened Counters
  import opened Rollup
  import opened StoreModel
  import opened StoreBooks

  // ---------------------------------------------------------------- batches

  /** The ids a backfill with this cursor has passed. */
  function UpTo(keys: set<nat>, cursor: Option<nat>): set<nat> { set id | id in keys && !After(cursor, id) }

  lemma TakenIsBelowRest(rest: set<nat>, n: nat, id: nat)
    requires 0 < n <= |Ascending(rest)|
    ensures id in Members(Ascending(rest)[..n]) <==> id in rest && id <= Ascending(rest)[n - 1]
  {
    AscendingMembers(rest);
    hide Ascending;
    var all := Ascending(rest);
    if id in rest && id <= all[n - 1] {
      var i :| 0 <= i < |all| && all[i] == id;
      assert i < n;
      assert all[..n][i] == id;
    }
    if id in Members(all[..n]) {
      var i :| 0 <= i < n && all[..n][i] == id;
      assert all[i] == id;
    }
  }

  lemma CountOfDistinct(ids: seq<nat>)
    requires DistinctFrom(ids, {})
    ensures |Members(ids)| == |ids|
  {
    if ids != [] {
      CountOfDistinct(ids[..|ids| - 1]);
      MembersOfFront(ids);
      LastIsNew(ids, {});
    }
  }

  lemma BatchIsDistinct(keys: set<nat>, cursor: Option<nat>)
    ensures DistinctFrom(Batch(keys, cursor), UpTo(keys, cursor))
  {
    var rest := Remaining(keys, cursor);
    AscendingMembers(rest);
    hide Ascending;
    var ids := Batch(keys, cursor);
    assert forall i :: 0 <= i < |ids| ==> ids[i] == Ascending(rest)[i];
    assert forall i :: 0 <= i < |ids| ==> Ascending(rest)[i] in rest;
  }

  lemma BatchCovers(keys: set<nat>, cursor: Option<nat>)
    ensures var ids := Batch(keys, cursor);
            && UpTo(keys, cursor) + Members(ids) == UpTo(keys, Advanced(cursor, ids))
            && (|ids| < BATCH_SIZE ==> UpTo(keys, Advanced(cursor, ids)) == keys)
  {
    var rest := Remaining(keys, cursor);
    var all, ids := Ascending(rest), Batch(keys, cursor);
    AscendingMembers(rest);
    hide Ascending;
    if ids == [] {
      assert all == [] && rest == {} by {
        assert forall id :: id in rest ==> id in all;
      }
      assert Members(ids) == {};
    } else {
      var n := |ids|;
      assert ids == all[..n];
      forall id
        ensures id in Members(ids) <==> id in rest && id <= all[n - 1]
      {
        TakenIsBelowRest(rest, n, id);
      }
      assert all[n - 1] in rest;
      if n < BATCH_SIZE {
        assert n == |all|;
        forall id | id in keys
          ensures !After(Advanced(cursor, ids), id)
        {
          if id in rest {
            var i :| 0 <= i < |all| && all[i] == id;
            assert all[i] <= all[n - 1];
          }
        }
      }
    }
  }

  lemma BatchCounts(keys: set<nat>, cursor: Option<nat>)
    ensures var ids := Batch(keys, cursor);
            |UpTo(keys, Advanced(cursor, ids))| == |UpTo(keys, cursor)| + |ids|
  {
    hide UpTo, Batch, Advanced;
    var ids := Batch(keys, cursor);
    BatchIsDistinct(keys, cursor);
    BatchCovers(keys, cursor);
    CountOfDistinct(ids);
    assert UpTo(keys, cursor) !! Members(ids);
  }

  // ---------------------------------------------------------------- the invariant

  datatype Books = Books(requests: RequestBooks, attempts: map<nat, Entry<AttemptKey>>,
                         attemptBuckets: map<AttemptSlot, Entry<AttemptBucketKey>>, attemptsBucketed: set<nat>,
                         cutoff: Option<int>)

  const NO_BOOKS := Books(NO_REQUEST_BOOKS, map[], map[], {}, None)

  function RequestsApplied(db: Db): set<nat> {
    if StatsMeta(db).phase.RequestsPhase? then UpTo(db.requests.Keys, StatsMeta(db).requestCursor) else db.requests.Keys
  }

  function AttemptsApplied(db: Db): set<nat> {
    if StatsMeta(db).phase.ReadyPhase? then db.attempts.Keys else UpTo(db.attempts.Keys, StatsMeta(db).attemptCursor)
  }

  function AttemptsSeen(db: Db): set<nat> {
    if AttemptBucketMeta(db).ready then db.attempts.Keys else UpTo(db.attempts.Keys, AttemptBucketMeta(db).cursor)
  }

  /** Progress markers: an older version has made no progress, phases follow each other, and
    * the migration counters count the rows applied by the backfill. */
  ghost predicate Progress(db: Db) {
    var m := StatsMeta(db);
    && m.version <= SCHEMA_VERSION && (m.version < SCHEMA_VERSION ==> m == FreshMeta(m.version))
    && (m.phase.RequestsPhase? ==> m.attemptCursor.None? && m.migratedAttempts == 0)
    && (!m.phase.ReadyPhase? ==> db.bucketMeta.None?)
    && (!Ready(db) ==> m.migratedRequests == |RequestsApplied(db)| && m.migratedAttempts == |AttemptsApplied(db)|)
    && (Ready(db) ==> m.migratedRequests <= |db.requests| && m.migratedAttempts <= |db.attempts|)
  }

  ghost predicate Inv(db: Db, b: Books) {
    && Progress(db)
    && RequestsKept(db.requests, db.requestTables, RequestsApplied(db), b.requests, b.cutoff)
    && AttemptsKept(db.attempts, db.attemptTables.all, AttemptsApplied(db), b.attempts)
    && AttemptBucketsKept(db.attempts, db.attemptTables.buckets, AttemptsSeen(db), b.attemptBuckets,
                          b.attemptsBucketed, b.cutoff)
  }

  /** A step adds to the buckets just those rows it applies that are then in the retained period. */
  ghost predicate Adds(db: Db, b: Books, e: Db, c: Books, now: int) {
    && c.requests.bucketed
       == b.requests.bucketed + RecentRequests(e.requests, RequestsApplied(e) - RequestsApplied(db), now)
    && c.attemptsBucketed == b.attemptsBucketed + RecentAttempts(e.attempts, AttemptsSeen(e) - AttemptsSeen(db), now)
  }

  lemma AddsNothing(db: Db, b: Books, e: Db, c: Books, now: int)
    requires RequestsApplied(e) == RequestsApplied(db) && AttemptsSeen(e) == AttemptsSeen(db)
    requires c.requests.bucketed == b.requests.bucketed && c.attemptsBucketed == b.attemptsBucketed
    ensures Adds(db, b, e, c, now)
  {
    hide RequestsApplied, AttemptsSeen;
  }

  // ---------------------------------------------------------------- every step keeps it

  lemma ReadyAppliesAll(db: Db)
    requires Ready(db)
    ensures RequestsApplied(db) == db.requests.Keys && AttemptsApplied(db) == db.attempts.Keys
    ensures AttemptsSeen(db) == db.attempts.Keys
  {
  }

  lemma GrownKeys<R>(ledger: map<nat, R>, id: nat, r: R)
    requires id !in ledger
    ensures ledger[id := r].Keys == ledger.Keys + {id} && |ledger[id := r]| == |ledger| + 1
  {
    assert |ledger[id := r].Keys| == |ledger[id := r]| && |ledger.Keys| == |ledger|;
  }

  lemma RequestGrowthProgresses(db: Db, id: nat, r: RequestRecord, t: RequestTables)
    requires Progress(db) && Ready(db) && id !in db.requests
    ensures var e := db.(requests := db.requests[id := r], requestTables := t);
            Progress(e) && Ready(e) && RequestsApplied(e) == db.requests.Keys + {id}
            && AttemptsApplied(e) == AttemptsApplied(db) && AttemptsSeen(e) == AttemptsSeen(db)
  {
    hide UpTo;
    GrownKeys(db.requests, id, r);
  }

  lemma AttemptGrowthProgresses(db: Db, id: nat, a: AttemptRecord, t: AttemptTables)
    requires Progress(db) && Ready(db) && id !in db.attempts
    ensures var e := db.(attempts := db.attempts[id := a], attemptTables := t);
            Progress(e) && Ready(e) && AttemptsApplied(e) == db.attempts.Keys + {id} == AttemptsSeen(e)
            && RequestsApplied(e) == RequestsApplied(db)
  {
    hide UpTo;
    GrownKeys(db.attempts, id, a);
  }

  lemma NewRequestKeeps(db: Db, b: Books, now: int, id: nat, r: RequestRecord, e: Db) returns (c: Books)
    requires Inv(db, b) && RecordRequest(db, id, r, now) == Ok(e) && id !in db.requests
    ensures Inv(e, c) && c == b.(requests := c.requests)
    ensures c.requests.bucketed == b.requests.bucketed + RecentRequests(e.requests, {id}, now)
    ensures RequestsApplied(e) == RequestsApplied(db) + {id} && id !in RequestsApplied(db)
    ensures AttemptsSeen(e) == AttemptsSeen(db)
  {
    ReadyAppliesAll(db);
    RequestGrowthProgresses(db, id, r, e.requestTables);
    hide RequestsKept, AttemptsKept, AttemptBucketsKept, ApplyRequest, UpTo, Progress, RequestsApplied, AttemptsApplied,
         AttemptsSeen, RecentRequests;
    LedgerGrows(db.requests, db.requestTables, RequestsApplied(db), b.requests, b.cutoff, id, r);
    var d := ApplyRequestKeeps(e.requests, db.requestTables, db.requests.Keys, b.requests, b.cutoff, id, now,
                               e.requestTables);
    c := b.(requests := d);
  }

  lemma RecordRequestKeeps(db: Db, b: Books, now: int, id: nat, r: RequestRecord, e: Db) returns (c: Books)
    requires Inv(db, b) && RecordRequest(db, id, r, now) == Ok(e)
    ensures Inv(e, c) && Adds(db, b, e, c, now) && c.cutoff == b.cutoff
  {
    if id in db.requests {
      hide Inv, Adds, ApplyRequest;
      c := b;
      AddsNothing(db, b, e, c, now);
    } else {
      hide Inv, Adds, RecordRequest, RequestsApplied, AttemptsSeen;
      c := NewRequestKeeps(db, b, now, id, r, e);
      AddsRequests(db, b, e, c, {id}, now);
    }
  }

  lemma AddsRequests(db: Db, b: Books, e: Db, c: Books, ids: set<nat>, now: int)
    requires RequestsApplied(e) == RequestsApplied(db) + ids && RequestsApplied(db) !! ids
    requires AttemptsSeen(e) == AttemptsSeen(db) && c.attemptsBucketed == b.attemptsBucketed
    requires c.requests.bucketed == b.requests.bucketed + RecentRequests(e.requests, ids, now)
    ensures Adds(db, b, e, c, now)
  {
    hide RequestsApplied, AttemptsSeen;
    assert RequestsApplied(e) - RequestsApplied(db) == ids;
    assert AttemptsSeen(e) - AttemptsSeen(db) == {};
  }

  lemma AddsAttempts(db: Db, b: Books, e: Db, c: Books, ids: set<nat>, now: int)
    requires AttemptsSeen(e) == AttemptsSeen(db) + ids && AttemptsSeen(db) !! ids
    requires RequestsApplied(e) == RequestsApplied(db) && c.requests == b.requests
    requires c.attemptsBucketed == b.attemptsBucketed + RecentAttempts(e.attempts, ids, now)
    ensures Adds(db, b, e, c, now)
  {
    hide RequestsApplied, AttemptsSeen;
    assert AttemptsSeen(e) - AttemptsSeen(db) == ids;
    assert RequestsApplied(e) - RequestsApplied(db) == {};
  }

  lemma RecordedAttempt(db: Db, id: nat, a: AttemptRecord, now: int, e: Db)
    requires RecordAttempt(db, id, a, now) == Ok(e) && id !in db.attempts
    ensures Ready(db) && e == db.(attempts := db.attempts[id := a], attemptTables := e.attemptTables)
    ensures ApplyAttempt(db.attemptTables.all, e.attempts[id]) == Ok(e.attemptTables.all)
    ensures ApplyAttemptBuckets(db.attemptTables.buckets, e.attempts[id], now) == Ok(e.attemptTables.buckets)
  {
    hide ApplyAttempt, ApplyAttemptBuckets, Ready;
  }

  lemma NewAttemptIsKept(db: Db, b: Books, now: int, id: nat, a: AttemptRecord, e: Db) returns (c: Books)
    requires AttemptsKept(e.attempts, db.attemptTables.all, db.attempts.Keys, b.attempts)
    requires AttemptBucketsKept(e.attempts, db.attemptTables.buckets, db.attempts.Keys, b.attemptBuckets,
                                b.attemptsBucketed, b.cutoff)
    requires e.attempts == db.attempts[id := a] && id !in db.attempts
    requires ApplyAttempt(db.attemptTables.all, e.attempts[id]) == Ok(e.attemptTables.all)
    requires ApplyAttemptBuckets(db.attemptTables.buckets, e.attempts[id], now) == Ok(e.attemptTables.buckets)
    ensures c == b.(attempts := c.attempts, attemptBuckets := c.attemptBuckets, attemptsBucketed := c.attemptsBucketed)
    ensures AttemptsKept(e.attempts, e.attemptTables.all, db.attempts.Keys + {id}, c.attempts)
    ensures AttemptBucketsKept(e.attempts, e.attemptTables.buckets, db.attempts.Keys + {id}, c.attemptBuckets,
                               c.attemptsBucketed, b.cutoff)
    ensures c.attemptsBucketed == b.attemptsBucketed + RecentAttempts(e.attempts, {id}, now)
  {
    hide AttemptsKept, AttemptBucketsKept, ApplyAttempt, ApplyAttemptBuckets;
    var m := ApplyAttemptKeeps(e.attempts, db.attemptTables.all, db.attempts.Keys, b.attempts, id, e.attemptTables.all);
    var n, more := ApplyAttemptBucketsKeeps(e.attempts, db.attemptTables.buckets, db.attempts.Keys, b.attemptBuckets,
                                            b.attemptsBucketed, b.cutoff, id, now, e.attemptTables.buckets);
    c := b.(attempts := m, attemptBuckets := n, attemptsBucketed := more);
  }

  lemma NewAttemptKeeps(db: Db, b: Books, now: int, id: nat, a: AttemptRecord, e: Db) returns (c: Books)
    requires Inv(db, b) && RecordAttempt(db, id, a, now) == Ok(e) && id !in db.attempts
    ensures Inv(e, c) && c == b.(attempts := c.attempts, attemptBuckets := c.attemptBuckets,
                                 attemptsBucketed := b.attemptsBucketed + RecentAttempts(e.attempts, {id}, now))
    ensures RequestsApplied(e) == RequestsApplied(db)
    ensures AttemptsSeen(e) == AttemptsSeen(db) + {id} && id !in AttemptsSeen(db)
  {
    RecordedAttempt(db, id, a, now, e);
    ReadyAppliesAll(db);
    hide RequestsKept, AttemptsKept, AttemptBucketsKept, ApplyAttempt, ApplyAttemptBuckets, UpTo, Progress,
         RequestsApplied, AttemptsApplied, AttemptsSeen, RecordAttempt, Ready, RecentAttempts;
    AttemptGrowthProgresses(db, id, a, e.attemptTables);
    AttemptLedgerGrows(db.attempts, db.attemptTables, AttemptsApplied(db), AttemptsSeen(db), b.attempts,
                       b.attemptBuckets, b.attemptsBucketed, b.cutoff, id, a);
    c := NewAttemptIsKept(db, b, now, id, a, e);
  }

  lemma RecordAttemptKeeps(db: Db, b: Books, now: int, id: nat, a: AttemptRecord, e: Db) returns (c: Books)
    requires Inv(db, b) && RecordAttempt(db, id, a, now) == Ok(e)
    ensures Inv(e, c) && Adds(db, b, e, c, now) && c.cutoff == b.cutoff
  {
    if id in db.attempts {
      hide Inv, Adds, ApplyAttempt, ApplyAttemptBuckets;
      c := b;
      AddsNothing(db, b, e, c, now);
    } else {
      hide Inv, Adds, RecordAttempt, RequestsApplied, AttemptsSeen;
      c := NewAttemptKeeps(db, b, now, id, a, e);
      AddsAttempts(db, b, e, c, {id}, now);
    }
  }

  lemma ResetKeeps(db: Db, version: nat)
    requires version <= SCHEMA_VERSION
    ensures Inv(ResetRollups(db, version), NO_BOOKS)
  {
    var e := ResetRollups(db, version);
    NothingKept(e.requests);
    NoAttemptsKept(e.attempts);
    hide RequestsKept, AttemptsKept, AttemptBucketsKept;
    assert RequestsApplied(e) == {} && AttemptsApplied(e) == {} && AttemptsSeen(e) == {};
  }

  lemma UnindexedKeeps(db: Db)
    requires Unindexed(db)
    ensures Inv(db, NO_BOOKS)
  {
    NothingKept(db.requests);
    NoAttemptsKept(db.attempts);
    hide RequestsKept, AttemptsKept, AttemptBucketsKept;
    assert RequestsApplied(db) == {} && AttemptsApplied(db) == {} && AttemptsSeen(db) == {};
  }

  lemma PruneKeeps(db: Db, b: Books, cutoff: int) returns (c: Books)
    requires Inv(db, b)
    ensures c.requests.bucketed == b.requests.bucketed && c.attemptsBucketed == b.attemptsBucketed
    ensures Inv(Prune(db, cutoff), c) && c.cutoff == Later(b.cutoff, FloorTo(cutoff, MINUTE_MS))
  {
    hide RequestsKept, AttemptsKept, AttemptBucketsKept, FloorTo, UpTo;
    var e, f := Prune(db, cutoff), FloorTo(cutoff, MINUTE_MS);
    var d := PruneKeepsRequests(db.requests, db.requestTables, RequestsApplied(db), b.requests, b.cutoff, f,
                                e.requestTables);
    var n := PruneKeepsAttempts(db.attempts, db.attemptTables.buckets, AttemptsSeen(db), b.attemptBuckets,
                                b.attemptsBucketed, b.cutoff, f, e.attemptTables.buckets);
    c := b.(requests := d, attemptBuckets := n, cutoff := Later(b.cutoff, f));
  }

  lemma BackfillRequestsKeeps(db: Db, b: Books, now: int, e: Db) returns (c: Books)
    requires Inv(db, b) && StatsMeta(db).version == SCHEMA_VERSION && StatsMeta(db).phase.RequestsPhase?
    requires BackfillRequests(db, StatsMeta(db), now) == Ok(e)
    ensures Inv(e, c) && Adds(db, b, e, c, now) && c.cutoff == b.cutoff
  {
    hide RequestsKept, AttemptsKept, AttemptBucketsKept, ApplyRequests, UpTo, Batch, Advanced;
    var keys, cursor := db.requests.Keys, StatsMeta(db).requestCursor;
    var ids := Batch(keys, cursor);
    BatchIsWithin(db.requests, cursor);
    BatchIsDistinct(keys, cursor);
    BatchCovers(keys, cursor);
    BatchCounts(keys, cursor);
    var d := ApplyRequestsKeeps(db.requests, db.requestTables, UpTo(keys, cursor), b.requests, b.cutoff, ids, now,
                                e.requestTables);
    c := b.(requests := d);
    BatchAddsRequests(db, b, now, e, c);
  }

  lemma BatchAddsRequests(db: Db, b: Books, now: int, e: Db, c: Books)
    requires StatsMeta(db).version == SCHEMA_VERSION && StatsMeta(db).phase.RequestsPhase?
    requires BackfillRequests(db, StatsMeta(db), now) == Ok(e) && c.attemptsBucketed == b.attemptsBucketed
    requires c.requests.bucketed
             == b.requests.bucketed
                + RecentRequests(db.requests, Members(Batch(db.requests.Keys, StatsMeta(db).requestCursor)), now)
    ensures Adds(db, b, e, c, now)
  {
    hide ApplyRequests, UpTo, Batch, Advanced, Adds;
    var keys, cursor := db.requests.Keys, StatsMeta(db).requestCursor;
    var ids := Batch(keys, cursor);
    BatchCovers(keys, cursor);
    BatchIsDistinct(keys, cursor);
    BatchIsWithin(db.requests, cursor);
    AddsRequests(db, b, e, c, Members(ids), now);
  }

  lemma BackfillAttemptsKeeps(db: Db, b: Books, now: int, e: Db) returns (c: Books)
    requires Inv(db, b) && StatsMeta(db).version == SCHEMA_VERSION && StatsMeta(db).phase.AttemptsPhase?
    requires BackfillAttempts(db, StatsMeta(db)) == Ok(e)
    ensures Inv(e, c) && Adds(db, b, e, c, now) && c.cutoff == b.cutoff
  {
    hide RequestsKept, AttemptsKept, AttemptBucketsKept, ApplyAttempts, UpTo, Batch, Advanced;
    var keys, cursor := db.attempts.Keys, StatsMeta(db).attemptCursor;
    var ids := Batch(keys, cursor);
    BatchIsWithin(db.attempts, cursor);
    BatchIsDistinct(keys, cursor);
    BatchCovers(keys, cursor);
    BatchCounts(keys, cursor);
    var m := ApplyAttemptsKeeps(db.attempts, db.attemptTables.all, UpTo(keys, cursor), b.attempts, ids,
                                e.attemptTables.all);
    c := b.(attempts := m);
    AddsNothing(db, b, e, c, now);
  }

  lemma BackfillBucketsKeeps(db: Db, b: Books, now: int, e: Db) returns (c: Books)
    requires Inv(db, b) && StatsMeta(db).version == SCHEMA_VERSION && StatsMeta(db).phase.ReadyPhase?
    requires !AttemptBucketMeta(db).ready && BackfillBuckets(db, AttemptBucketMeta(db), now) == Ok(e)
    ensures Inv(e, c) && Adds(db, b, e, c, now) && c.cutoff == b.cutoff
  {
    hide RequestsKept, AttemptsKept, AttemptBucketsKept, ApplyManyAttemptBuckets, UpTo, Batch, Advanced;
    var keys, cursor := db.attempts.Keys, AttemptBucketMeta(db).cursor;
    var ids := Batch(keys, cursor);
    BatchIsWithin(db.attempts, cursor);
    BatchIsDistinct(keys, cursor);
    BatchCovers(keys, cursor);
    var n, more := ApplyManyKeeps(db.attempts, db.attemptTables.buckets, UpTo(keys, cursor), b.attemptBuckets,
                                  b.attemptsBucketed, b.cutoff, ids, now, e.attemptTables.buckets);
    c := b.(attemptBuckets := n, attemptsBucketed := more);
    AddsAttempts(db, b, e, c, Members(ids), now);
  }

  // ---------------------------------------------------------------- runs

  datatype Step =
    | RecordsRequest(id: nat, request: RequestRecord)
    | RecordsAttempt(id: nat, attempt: AttemptRecord)
    | Upgrades
    | Backfills
    | Prunes(cutoff: int)
    | Downgrades(version: nat)

  /** The schema check a start-up makes before it resumes the backfill. */
  function Upgrade(db: Db): Result<Db, string> {
    if StatsMeta(db).version > SCHEMA_VERSION then Err("unsupported statistics schema version")
    else if StatsMeta(db).version < SCHEMA_VERSION then Ok(ResetRollups(db, SCHEMA_VERSION))
    else Ok(db)
  }

  /** The next batch of the rebuild, whatever it is working on. */
  function Backfill(db: Db, now: int): Result<Db, string> {
    var m := StatsMeta(db);
    if m.version != SCHEMA_VERSION then Err("unsupported statistics schema version")
    else
      match m.phase
      case RequestsPhase => BackfillRequests(db, m, now)
      case AttemptsPhase => BackfillAttempts(db, m)
      case ReadyPhase =>
        if AttemptBucketMeta(db).ready then Ok(db) else BackfillBuckets(db, AttemptBucketMeta(db), now)
  }

  function Attempted(db: Db, s: Step, now: int): Result<Db, string> {
    match s
    case RecordsRequest(id, r) => RecordRequest(db, id, r, now)
    case RecordsAttempt(id, a) => RecordAttempt(db, id, a, now)
    case Upgrades => Upgrade(db)
    case Backfills => Backfill(db, now)
    case Prunes(cutoff) => Ok(Prune(db, cutoff))
    case Downgrades(version) => Downgrade(db, version)
  }

  /** A refused or failed transaction is rolled back. */
  function Next(db: Db, s: Step, now: int): Db {
    var r := Attempted(db, s, now);
    if r.Ok? then r.value else db
  }

  /** Whether the step drops and restarts every rollup. */
  predicate Resets(db: Db, s: Step) {
    (s.Downgrades? && s.version < SCHEMA_VERSION) || (s.Upgrades? && StatsMeta(db).version < SCHEMA_VERSION)
  }

  type Run = seq<Timed<Step>>

  /** The database after a run from a first one. */
  function DbAfter(first: Db, run: Run): Db {
    if run == [] then first else Next(DbAfter(first, run[..|run| - 1]), run[|run| - 1].step, run[|run| - 1].now)
  }

  function NowAfter(run: Run): int { if run == [] then I64_MIN else run[|run| - 1].now }

  /** The latest minute pruned up to since the rollups were last restarted. */
  function CutoffAfter(first: Db, run: Run): Option<int> {
    if run == [] then None
    else
      var front, s := run[..|run| - 1], run[|run| - 1].step;
      if Resets(DbAfter(first, front), s) then None
      else if s.Prunes? then Later(CutoffAfter(first, front), FloorTo(s.cutoff, MINUTE_MS))
      else CutoffAfter(first, front)
  }

  /** The requests that were inside the retained period when they were applied, at the time of
    * the step that applied them, since the rollups were last restarted. */
  function RequestsBucketed(first: Db, run: Run): set<nat> {
    if run == [] then {}
    else
      var front, last := run[..|run| - 1], run[|run| - 1];
      var db, e := DbAfter(first, front), DbAfter(first, run);
      if Resets(db, last.step) then {}
      else RequestsBucketed(first, front)
           + RecentRequests(e.requests, RequestsApplied(e) - RequestsApplied(db), last.now)
  }

  /** The same of the attempts. */
  function AttemptsBucketed(first: Db, run: Run): set<nat> {
    if run == [] then {}
    else
      var front, last := run[..|run| - 1], run[|run| - 1];
      var db, e := DbAfter(first, front), DbAfter(first, run);
      if Resets(db, last.step) then {}
      else AttemptsBucketed(first, front) + RecentAttempts(e.attempts, AttemptsSeen(e) - AttemptsSeen(db), last.now)
  }

  lemma StepKeeps(db: Db, b: Books, now: int, s: Step) returns (c: Books)
    requires Inv(db, b)
    ensures Inv(Next(db, s, now), c)
    ensures if Resets(db, s) then c == NO_BOOKS else Adds(db, b, Next(db, s, now), c, now)
    ensures !Resets(db, s) ==>
              c.cutoff == if s.Prunes? then Later(b.cutoff, FloorTo(s.cutoff, MINUTE_MS)) else b.cutoff
  {
    hide Inv, Adds, RecordRequest, RecordAttempt, Backfill, Prune, ResetRollups, FloorTo;
    c := b;
    var r := Attempted(db, s, now);
    AddsNothing(db, b, db, b, now);
    if r.Ok? {
      match s {
        case RecordsRequest(id, request) => c := RecordRequestKeeps(db, b, now, id, request, r.value);
        case RecordsAttempt(id, attempt) => c := RecordAttemptKeeps(db, b, now, id, attempt, r.value);
        case Prunes(cutoff) =>
          c := PruneKeeps(db, b, cutoff);
          PruneAppliesNothing(db, cutoff);
          AddsNothing(db, b, r.value, c, now);
        case Downgrades(version) =>
          ResetKeeps(db, version);
          c := NO_BOOKS;
        case Upgrades =>
          if StatsMeta(db).version < SCHEMA_VERSION {
            ResetKeeps(db, SCHEMA_VERSION);
            c := NO_BOOKS;
          }
        case Backfills => c := BackfillKeeps(db, b, now, r.value);
      }
    }
  }

  lemma PruneAppliesNothing(db: Db, cutoff: int)
    ensures RequestsApplied(Prune(db, cutoff)) == RequestsApplied(db)
    ensures AttemptsSeen(Prune(db, cutoff)) == AttemptsSeen(db)
  {
  }

  lemma BackfillKeeps(db: Db, b: Books, now: int, e: Db) returns (c: Books)
    requires Inv(db, b) && Backfill(db, now) == Ok(e)
    ensures Inv(e, c) && Adds(db, b, e, c, now) && c.cutoff == b.cutoff
  {
    hide Inv, BackfillRequests, BackfillAttempts, BackfillBuckets;
    match StatsMeta(db).phase
    case RequestsPhase => c := BackfillRequestsKeeps(db, b, now, e);
    case AttemptsPhase => c := BackfillAttemptsKeeps(db, b, now, e);
    case ReadyPhase =>
      if AttemptBucketMeta(db).ready {
        c := b;
      } else {
        c := BackfillBucketsKeeps(db, b, now, e);
      }
  }

  lemma {:induction false} RunsCompose(db: Db, run: Run, more: Run)
    ensures DbAfter(db, run + more) == DbAfter(DbAfter(db, run), more)
  {
    hide Next;
    if more == [] {
      assert run + more == run;
    } else {
      RunsCompose(db, run, more[..|more| - 1]);
      assert (run + more)[..|run + more| - 1] == run + more[..|more| - 1];
    }
  }

  /** The upgrade of a store of any older version, whatever its rollups hold, leaves an unindexed
    * database with the same ledgers, and what follows is a run from there. */
  lemma UpgradeRestarts(db: Db, now: int, run: Run)
    requires StatsMeta(db).version < SCHEMA_VERSION
    ensures var u := DbAfter(db, [Timed(now, Upgrades)]);
            && Unindexed(u) && u.requests == db.requests && u.attempts == db.attempts
            && DbAfter(db, [Timed(now, Upgrades)] + run) == DbAfter(u, run)
  {
    var upgrade := [Timed(now, Upgrades)];
    assert upgrade[..0] == [];
    RunsCompose(db, upgrade, run);
    assert DbAfter(db, upgrade) == ResetRollups(db, SCHEMA_VERSION);
  }

  /** After any run the books balance: the rollups are the contributions of the applied rows, and
    * the buckets those of the rows that were retained when they were applied. */
  lemma {:induction false} RunsKeepBooks(first: Db, run: Run) returns (b: Books)
    requires Unindexed(first)
    ensures Inv(DbAfter(first, run), b) && b.cutoff == CutoffAfter(first, run)
    ensures b.requests.bucketed == RequestsBucketed(first, run) && b.attemptsBucketed == AttemptsBucketed(first, run)
  {
    hide Inv, Next, FloorTo, Unindexed;
    if run == [] {
      UnindexedKeeps(first);
      b := NO_BOOKS;
    } else {
      var front, last := run[..|run| - 1], run[|run| - 1];
      var a := RunsKeepBooks(first, front);
      b := StepKeeps(DbAfter(first, front), a, last.now, last.step);
    }
  }
}
