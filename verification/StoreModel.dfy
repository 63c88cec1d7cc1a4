/** The statistics database: two ledgers, four derived rollup tables, and the progress of
  * rebuilding the rollups. Each operation is one write transaction: it yields the next
  * database, or an error that leaves the database as it was. */
module StoreModel {
  import opened Prelude
  import opened Failure
  import opened Sets
  import opened Counters
  import opened Rollup

  const MINUTE_MS: nat := 60_000
  const HOUR_MS: nat := 3_600_000
  const RETENTION_MS: nat := 32 * 24 * HOUR_MS
  const BATCH_SIZE: nat := 1_000
  const SCHEMA_VERSION: nat := 3
  const UNCLASSIFIED_MODEL := "\0unclassified"
  const I64_MIN: int := -I64_MAX - 1

  // ---------------------------------------------------------------- ledger rows

  datatype Usage = Usage(input: nat, cacheHit: nat, cacheMiss: nat, reasoning: nat, reasoningEstimated: nat,
                         output: nat, total: nat, providerReported: bool)

  /** Fields no rollup reads are summed up in `other`. */
  datatype RequestRecord = RequestRecord(startedAt: int, servedModel: Option<string>, errorClass: Option<FailureClass>,
                                         fallback: Option<bool>, routeLayerIndex: Option<nat>,
                                         routeLayer: Option<string>,
                                         backend: Option<string>, credential: Option<string>,
                                         upstreamModel: Option<string>, requestBytes: nat, responseBytes: nat,
                                         usage: Usage, other: string)

  datatype AttemptRecord = AttemptRecord(startedAt: int, backend: string, upstreamModel: string,
                                         errorClass: Option<FailureClass>, usage: Usage, other: string)

  function ServedModel(r: RequestRecord): string { r.servedModel.GetOr(UNCLASSIFIED_MODEL) }

  function Flag(b: bool): nat { if b then 1 else 0 }

  function RequestDelta(r: RequestRecord): Row {
    [1, Flag(r.errorClass.Some?), Flag(r.fallback == Some(true)), r.usage.input, r.usage.cacheHit, r.usage.cacheMiss,
     r.usage.reasoning, r.usage.reasoningEstimated, r.usage.output, r.usage.total, r.requestBytes + r.responseBytes]
  }

  predicate BytesFit(r: RequestRecord) { r.requestBytes + r.responseBytes <= U64_MAX }

  function AttemptDelta(a: AttemptRecord): Row {
    [1, Flag(a.errorClass.None?), Flag(a.errorClass.Some?), Flag(a.usage.providerReported), a.usage.input,
     a.usage.cacheHit, a.usage.cacheMiss, a.usage.reasoning, a.usage.reasoningEstimated, a.usage.output]
  }

  // ---------------------------------------------------------------- keys

  datatype Route = Route(layerIndex: nat, layer: string, backend: string, credential: string, upstreamModel: string)

  datatype Scope = ModelScope | TargetScope(route: Route) | UnattributedScope

  datatype Grain = Minute | Hour {
    function Unit(): nat { if Minute? then MINUTE_MS else HOUR_MS }
  }

  datatype BucketKey = BucketKey(model: string, grain: Grain, bucket: int, scope: Scope)

  datatype AllKey = AllKey(model: string, scope: Scope)

  datatype AttemptKey = AttemptKey(backend: string, model: string)

  datatype AttemptBucketKey = AttemptBucketKey(grain: Grain, bucket: int, key: AttemptKey)

  function FloorTo(value: int, unit: nat): int
    requires unit > 0
  {
    value / unit * unit
  }

  function Target(r: RequestRecord): Option<Route> {
    if r.routeLayerIndex.Some? && r.routeLayerIndex.value <= U32_MAX && r.routeLayer.Some? && r.backend.Some?
       && r.credential.Some? && r.upstreamModel.Some?
    then Some(Route(r.routeLayerIndex.value, r.routeLayer.value, r.backend.value, r.credential.value,
                    r.upstreamModel.value))
    else None
  }

  /** A request counts once for its model and once for its target or as unattributed. */
  function ScopeOf(r: RequestRecord, detailed: bool): Scope {
    if !detailed then ModelScope
    else if Target(r).Some? then TargetScope(Target(r).value)
    else UnattributedScope
  }

  function BucketKeyOf(r: RequestRecord, g: Grain, detailed: bool): BucketKey {
    BucketKey(ServedModel(r), g, FloorTo(r.startedAt, g.Unit()), ScopeOf(r, detailed))
  }

  function AllKeyOf(r: RequestRecord, detailed: bool): AllKey { AllKey(ServedModel(r), ScopeOf(r, detailed)) }

  function AttemptKeyOf(a: AttemptRecord): AttemptKey { AttemptKey(a.backend, a.upstreamModel) }

  function AttemptBucketKeyOf(a: AttemptRecord, g: Grain): AttemptBucketKey {
    AttemptBucketKey(g, FloorTo(a.startedAt, g.Unit()), AttemptKeyOf(a))
  }

  // ---------------------------------------------------------------- applying one ledger row

  /** The start of the retained period. */
  function Retained(now: int): int { Max(now - RETENTION_MS, I64_MIN) }

  function IncrementAll<K>(t: map<K, Row>, keys: seq<K>, amount: Row): Result<map<K, Row>, string> {
    if keys == [] then Ok(t)
    else
      var front := IncrementAll(t, keys[..|keys| - 1], amount);
      if front.Err? then front else Increment(front.value, keys[|keys| - 1], amount)
  }

  datatype RequestTables = RequestTables(buckets: map<BucketKey, Row>, all: map<AllKey, Row>)

  datatype AttemptTables = AttemptTables(buckets: map<AttemptBucketKey, Row>, all: map<AttemptKey, Row>)

  function RequestBucketKeys(r: RequestRecord): seq<BucketKey> {
    [BucketKeyOf(r, Minute, false), BucketKeyOf(r, Minute, true), BucketKeyOf(r, Hour, false),
     BucketKeyOf(r, Hour, true)]
  }

  function RequestAllKeys(r: RequestRecord): seq<AllKey> { [AllKeyOf(r, false), AllKeyOf(r, true)] }

  function AttemptBucketKeys(a: AttemptRecord): seq<AttemptBucketKey> {
    [AttemptBucketKeyOf(a, Minute), AttemptBucketKeyOf(a, Hour)]
  }

  function RequestBuckets(t: map<BucketKey, Row>, r: RequestRecord, now: int): Result<map<BucketKey, Row>, string> {
    if r.startedAt >= Retained(now) then IncrementAll(t, RequestBucketKeys(r), RequestDelta(r)) else Ok(t)
  }

  function ApplyRequest(t: RequestTables, r: RequestRecord, now: int): Result<RequestTables, string> {
    if !BytesFit(r) then Err("request byte count overflow")
    else
      var buckets := RequestBuckets(t.buckets, r, now);
      if buckets.Err? then Err(buckets.error)
      else
        var all := IncrementAll(t.all, RequestAllKeys(r), RequestDelta(r));
        if all.Err? then Err(all.error) else Ok(RequestTables(buckets.value, all.value))
  }

  function ApplyAttempt(t: map<AttemptKey, Row>, a: AttemptRecord): Result<map<AttemptKey, Row>, string> {
    Increment(t, AttemptKeyOf(a), AttemptDelta(a))
  }

  function ApplyAttemptBuckets(t: map<AttemptBucketKey, Row>, a: AttemptRecord, now: int)
    : Result<map<AttemptBucketKey, Row>, string>
  {
    if a.startedAt < Retained(now) then Ok(t) else IncrementAll(t, AttemptBucketKeys(a), AttemptDelta(a))
  }

  // ---------------------------------------------------------------- the database

  datatype Phase = RequestsPhase | AttemptsPhase | ReadyPhase

  datatype Meta = Meta(version: nat, phase: Phase, requestCursor: Option<nat>, attemptCursor: Option<nat>,
                       migratedRequests: nat, migratedAttempts: nat)

  datatype BucketMeta = BucketMeta(cursor: Option<nat>, ready: bool)

  function FreshMeta(version: nat): Meta { Meta(version, RequestsPhase, None, None, 0, 0) }

  const FRESH_BUCKET_META := BucketMeta(None, false)

  /** Record ids are numbers in their key order. */
  datatype Db = Db(requests: map<nat, RequestRecord>, attempts: map<nat, AttemptRecord>,
                   requestTables: RequestTables, attemptTables: AttemptTables,
                   meta: Option<Meta>, bucketMeta: Option<BucketMeta>)

  /** A database none of whose ledger rows has been counted: a new one, one that was kept before
    * there were statistics, or one whose rollups have just been reset. */
  predicate Unindexed(db: Db) {
    && db.requestTables == RequestTables(map[], map[]) && db.attemptTables == AttemptTables(map[], map[])
    && (db.meta.Some? ==> db.meta.value.version <= SCHEMA_VERSION && db.meta.value == FreshMeta(db.meta.value.version))
    && db.bucketMeta.None?
  }

  function StatsMeta(db: Db): Meta { db.meta.GetOr(FreshMeta(SCHEMA_VERSION)) }

  function AttemptBucketMeta(db: Db): BucketMeta { db.bucketMeta.GetOr(FRESH_BUCKET_META) }

  predicate Ready(db: Db) {
    && db.meta.Some? && db.meta.value.version == SCHEMA_VERSION && db.meta.value.phase.ReadyPhase?
    && db.bucketMeta.Some? && db.bucketMeta.value.ready
  }

  function RecordRequest(db: Db, id: nat, r: RequestRecord, now: int): Result<Db, string> {
    if !Ready(db) then Err("statistics schema migration is not complete")
    else if id in db.requests then
      if db.requests[id] == r then Ok(db) else Err("request already exists with different contents")
    else
      var tables := ApplyRequest(db.requestTables, r, now);
      if tables.Err? then Err(tables.error)
      else Ok(db.(requests := db.requests[id := r], requestTables := tables.value))
  }

  function RecordAttempt(db: Db, id: nat, a: AttemptRecord, now: int): Result<Db, string> {
    if !Ready(db) then Err("statistics schema migration is not complete")
    else if id in db.attempts then
      if db.attempts[id] == a then Ok(db) else Err("attempt already exists with different contents")
    else
      var all := ApplyAttempt(db.attemptTables.all, a);
      if all.Err? then Err(all.error)
      else
        var buckets := ApplyAttemptBuckets(db.attemptTables.buckets, a, now);
        if buckets.Err? then Err(buckets.error)
        else Ok(db.(attempts := db.attempts[id := a], attemptTables := AttemptTables(buckets.value, all.value)))
  }

  function ResetRollups(db: Db, version: nat): Db {
    db.(requestTables := RequestTables(map[], map[]), attemptTables := AttemptTables(map[], map[]),
        meta := Some(FreshMeta(version)), bucketMeta := None)
  }

  function Downgrade(db: Db, version: nat): Result<Db, string> {
    if version >= SCHEMA_VERSION then Err("downgrade target is not older than the current statistics schema")
    else Ok(ResetRollups(db, version))
  }

  /** Drops the bucket rows that start before the cutoff's minute. */
  function Prune(db: Db, cutoff: int): Db {
    var c := FloorTo(cutoff, MINUTE_MS);
    db.(requestTables := db.requestTables.(
          buckets := map k | k in db.requestTables.buckets && k.bucket >= c :: db.requestTables.buckets[k]),
        attemptTables := db.attemptTables.(
          buckets := map k | k in db.attemptTables.buckets && k.bucket >= c :: db.attemptTables.buckets[k]))
  }

  // ---------------------------------------------------------------- backfill batches

  predicate After(cursor: Option<nat>, id: nat) { cursor.None? || cursor.value < id }

  function Remaining(keys: set<nat>, cursor: Option<nat>): set<nat> { set id | id in keys && After(cursor, id) }

  /** The next ids after the cursor in key order, at most a batch of them. */
  function Batch(keys: set<nat>, cursor: Option<nat>): seq<nat> {
    var rest := Ascending(Remaining(keys, cursor));
    if |rest| <= BATCH_SIZE then rest else rest[..BATCH_SIZE]
  }

  function Advanced(cursor: Option<nat>, ids: seq<nat>): Option<nat> {
    if ids == [] then cursor else Some(ids[|ids| - 1])
  }

  predicate Within<R>(ids: seq<nat>, ledger: map<nat, R>) { forall i :: 0 <= i < |ids| ==> ids[i] in ledger }

  function ApplyRequests(t: RequestTables, ledger: map<nat, RequestRecord>, ids: seq<nat>, now: int)
    : Result<RequestTables, string>
    requires Within(ids, ledger)
  {
    if ids == [] then Ok(t)
    else
      var front := ApplyRequests(t, ledger, ids[..|ids| - 1], now);
      if front.Err? then front else ApplyRequest(front.value, ledger[ids[|ids| - 1]], now)
  }

  function ApplyAttempts(t: map<AttemptKey, Row>, ledger: map<nat, AttemptRecord>, ids: seq<nat>)
    : Result<map<AttemptKey, Row>, string>
    requires Within(ids, ledger)
  {
    if ids == [] then Ok(t)
    else
      var front := ApplyAttempts(t, ledger, ids[..|ids| - 1]);
      if front.Err? then front else ApplyAttempt(front.value, ledger[ids[|ids| - 1]])
  }

  function ApplyManyAttemptBuckets(t: map<AttemptBucketKey, Row>, ledger: map<nat, AttemptRecord>, ids: seq<nat>,
                                   now: int)
    : Result<map<AttemptBucketKey, Row>, string>
    requires Within(ids, ledger)
  {
    if ids == [] then Ok(t)
    else
      var front := ApplyManyAttemptBuckets(t, ledger, ids[..|ids| - 1], now);
      if front.Err? then front else ApplyAttemptBuckets(front.value, ledger[ids[|ids| - 1]], now)
  }

  lemma BatchIsWithin<R>(ledger: map<nat, R>, cursor: Option<nat>)
    ensures Within(Batch(ledger.Keys, cursor), ledger)
  {
    var rest := Remaining(ledger.Keys, cursor);
    AscendingMembers(rest);
    hide Ascending;
    forall i | 0 <= i < |Batch(ledger.Keys, cursor)|
      ensures Batch(ledger.Keys, cursor)[i] in ledger
    {
      assert Batch(ledger.Keys, cursor)[i] == Ascending(rest)[i];
      assert Ascending(rest)[i] in rest;
    }
  }

  function BackfillRequests(db: Db, meta: Meta, now: int): Result<Db, string> {
    var ids := Batch(db.requests.Keys, meta.requestCursor);
    BatchIsWithin(db.requests, meta.requestCursor);
    var tables := ApplyRequests(db.requestTables, db.requests, ids, now);
    if tables.Err? then Err(tables.error)
    else if meta.migratedRequests + |ids| > U64_MAX then Err("request migration counter overflow")
    else
      var after := meta.(requestCursor := Advanced(meta.requestCursor, ids),
                         migratedRequests := meta.migratedRequests + |ids|,
                         phase := if |ids| < BATCH_SIZE then AttemptsPhase else meta.phase);
      Ok(db.(requestTables := tables.value, meta := Some(after)))
  }

  function BackfillAttempts(db: Db, meta: Meta): Result<Db, string> {
    var ids := Batch(db.attempts.Keys, meta.attemptCursor);
    BatchIsWithin(db.attempts, meta.attemptCursor);
    var all := ApplyAttempts(db.attemptTables.all, db.attempts, ids);
    if all.Err? then Err(all.error)
    else if meta.migratedAttempts + |ids| > U64_MAX then Err("attempt migration counter overflow")
    else
      var after := meta.(attemptCursor := Advanced(meta.attemptCursor, ids),
                         migratedAttempts := meta.migratedAttempts + |ids|,
                         phase := if |ids| < BATCH_SIZE then ReadyPhase else meta.phase);
      Ok(db.(attemptTables := db.attemptTables.(all := all.value), meta := Some(after)))
  }

  function BackfillBuckets(db: Db, meta: BucketMeta, now: int): Result<Db, string> {
    var ids := Batch(db.attempts.Keys, meta.cursor);
    BatchIsWithin(db.attempts, meta.cursor);
    var buckets := ApplyManyAttemptBuckets(db.attemptTables.buckets, db.attempts, ids, now);
    if buckets.Err? then Err(buckets.error)
    else
      Ok(db.(attemptTables := db.attemptTables.(buckets := buckets.value),
             bucketMeta := Some(BucketMeta(Advanced(meta.cursor, ids), |ids| < BATCH_SIZE))))
  }
}
