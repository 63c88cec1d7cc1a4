/** A ledger that was recorded live can always be rebuilt: no batch of a backfill overflows. */
module StoreRebuild {
  import opened Prelude
  import opened Counters
  import opened Rollup
  import opened StoreModel
  import opened StoreBooks
  import opened StoreRuns
  import opened StoreQueries
  import opened StoreReads
  import opened StoreTheorems

  /** Every all-time total of the whole ledger fits. */
  ghost predicate RequestsSumUp(ledger: map<nat, RequestRecord>) {
    && (forall i :: i in ledger ==> BytesFit(ledger[i]))
    && forall k: AllKey :: Fits(Total(AllTimeScan(ledger, ledger.Keys, k)))
  }

  ghost predicate AttemptsSumUp(ledger: map<nat, AttemptRecord>) {
    forall key: AttemptKey :: Fits(Total(AttemptTotalScan(ledger, key)))
  }

  // ---------------------------------------------------------------- increments succeed

  /** Increments succeed when the totals they lead to fit. */
  lemma {:induction false} IncrementsSucceed<C, K(!new)>(t: map<K, Row>, m: map<C, Entry<K>>, slots: seq<C>,
                                                           keys: seq<K>, amount: Row)
    requires Indexes(t, m) && |slots| == |keys| && NewSlots(m, slots)
    requires AllFit(WithEntries(m, slots, keys, amount))
    ensures IncrementAll(t, keys, amount).Ok?
  {
    hide Indexes, Plus, Fits, AllFit, Total;
    if slots != [] {
      var last := |slots| - 1;
      var before := WithEntries(m, slots[..last], keys[..last], amount);
      WithEntriesIs(m, slots[..last], keys[..last], amount);
      assert slots[last] !in slots[..last];
      SomeFit(before, slots[last], Entry(keys[last], amount));
      IncrementsSucceed(t, m, slots[..last], keys[..last], amount);
      var front := IncrementAll(t, keys[..last], amount).value;
      IncrementsIndex(t, m, slots[..last], keys[..last], amount, front);
      IncrementFits(front, before, slots[last], Entry(keys[last], amount));
    }
  }

  lemma SomeFit<C, K(!new)>(m: map<C, Entry<K>>, c: C, e: Entry<K>)
    requires c !in m && AllFit(m[c := e])
    ensures AllFit(m)
  {
    hide Total, Fits;
    forall k: K
      ensures Fits(Total(AmountsIn(m, {k})))
    {
      AmountsInMore(m, c, e, {k});
      PartFits(AmountsIn(m[c := e], {k}), AmountsIn(m, {k}));
    }
  }

  lemma IncrementFits<C, K(!new)>(t: map<K, Row>, m: map<C, Entry<K>>, c: C, e: Entry<K>)
    requires Indexes(t, m) && c !in m && AllFit(m[c := e])
    ensures Increment(t, e.key, e.amount).Ok?
  {
    hide Total, Fits, Plus, AmountsIn;
    GetGrows(t, m, c, e);
  }

  // ---------------------------------------------------------------- requests

  /** Rows that are distinct rows of another table have a total that fits if the other's does. */
  lemma EmbeddedFits<C, D>(a: map<C, Row>, whole: map<D, Row>, f: map<C, D>)
    requires f.Keys == a.Keys && (forall c :: c in f ==> f[c] in whole && whole[f[c]] == a[c])
    requires forall c, d :: c in f && d in f && f[c] == f[d] ==> c == d
    requires Fits(Total(whole))
    ensures Fits(Total(a))
  {
    hide Total, Fits;
    var b := map d | d in whole && d in f.Values :: whole[d];
    TotalOfRenamed(f, a, b);
    PartFits(whole, b);
  }

  /** What is counted in a bucket is part of what is counted of all time. */
  lemma BucketFits(ledger: map<nat, RequestRecord>, bucketed: set<nat>, cutoff: Option<int>,
                   m: map<Slot, Entry<BucketKey>>, k: BucketKey)
    requires BucketsRecorded(ledger, bucketed, cutoff, m) && RequestsSumUp(ledger)
    ensures Fits(Total(AmountsIn(m, {k})))
  {
    hide RequestsSumUp, Total, Fits, RequestDelta, FloorTo, Target;
    SumsUpAt(ledger, AllKey(k.model, k.scope));
    var f := map s | s in AmountsIn(m, {k}) :: s.id;
    forall s | s in f
      ensures s == Slot(s.id, k.grain, !k.scope.ModelScope?)
      ensures s.id in AllTimeScan(ledger, ledger.Keys, AllKey(k.model, k.scope))
      ensures AllTimeScan(ledger, ledger.Keys, AllKey(k.model, k.scope))[s.id] == AmountsIn(m, {k})[s]
    {
      SlotScope(ledger[s.id], s.detailed, k.scope);
    }
    EmbeddedFits(AmountsIn(m, {k}), AllTimeScan(ledger, ledger.Keys, AllKey(k.model, k.scope)), f);
  }

  lemma SumsUpAt(ledger: map<nat, RequestRecord>, k: AllKey)
    requires RequestsSumUp(ledger)
    ensures Fits(Total(AllTimeScan(ledger, ledger.Keys, k)))
  {
  }

  lemma AllSlotsFit(ledger: map<nat, RequestRecord>, applied: set<nat>, m: map<AllSlot, Entry<AllKey>>)
    requires AllRecorded(ledger, applied, m) && RequestsSumUp(ledger)
    ensures AllFit(m)
  {
    hide Total, Fits, AllRecorded, RequestsSumUp, AmountsIn;
    forall k: AllKey
      ensures Fits(Total(AmountsIn(m, {k})))
    {
      var t := map key | key in (set s | s in m :: m[s].key) :: Total(AmountsIn(m, {key}));
      MadeTableIndexes(m, t);
      AllTimeIsScan(t, ledger, applied, m, k);
      GetIsTotal(t, m, k);
      SumsUpAt(ledger, k);
      ScanOfSome(ledger, applied, k);
    }
  }

  lemma MadeTableIndexes<C, K>(m: map<C, Entry<K>>, t: map<K, Row>)
    requires t == map key | key in (set s | s in m :: m[s].key) :: Total(AmountsIn(m, {key}))
    ensures Indexes(t, m)
  {
    hide Total;
  }

  lemma ScanOfSome(ledger: map<nat, RequestRecord>, applied: set<nat>, k: AllKey)
    requires Fits(Total(AllTimeScan(ledger, ledger.Keys, k)))
    ensures Fits(Total(AllTimeScan(ledger, applied, k)))
  {
    hide Total, Fits;
    PartFits(AllTimeScan(ledger, ledger.Keys, k), AllTimeScan(ledger, applied, k));
  }

  lemma ApplyRequestSucceeds(ledger: map<nat, RequestRecord>, t: RequestTables, applied: set<nat>, b: RequestBooks,
                             cutoff: Option<int>, id: nat, later: int)
    requires RequestsKept(ledger, t, applied, b, cutoff) && id in ledger && id !in applied && RequestsSumUp(ledger)
    ensures ApplyRequest(t, ledger[id], later).Ok?
  {
    assert BytesFit(ledger[id]);
    hide IncrementAll, RequestDelta, Indexes, AllRecorded, BucketsRecorded, BucketKeyOf, AllKeyOf, NewSlots,
         WithEntries, RequestsSumUp, AllFit;
    var delta := RequestDelta(ledger[id]);
    var all := AllSlotsRecord(ledger, applied, b.all, id);
    AllSlotsFit(ledger, applied + {id}, all);
    IncrementsSucceed(t.all, b.all, AllSlots(id), RequestAllKeys(ledger[id]), delta);
    var buckets := BucketSlotsRecord(ledger, b.bucketed, cutoff, b.buckets, id);
    BucketsFit(ledger, b.bucketed + {id}, cutoff, buckets);
    IncrementsSucceed(t.buckets, b.buckets, BucketSlots(id), RequestBucketKeys(ledger[id]), delta);
  }

  lemma BucketsFit(ledger: map<nat, RequestRecord>, bucketed: set<nat>, cutoff: Option<int>,
                   m: map<Slot, Entry<BucketKey>>)
    requires BucketsRecorded(ledger, bucketed, cutoff, m) && RequestsSumUp(ledger)
    ensures AllFit(m)
  {
    hide BucketsRecorded, RequestsSumUp, Fits, Total, AmountsIn;
    forall k: BucketKey
      ensures Fits(Total(AmountsIn(m, {k})))
    {
      BucketFits(ledger, bucketed, cutoff, m, k);
    }
  }

  lemma {:induction false} ApplyRequestsSucceeds(ledger: map<nat, RequestRecord>, t: RequestTables, applied: set<nat>,
                                                 b: RequestBooks, cutoff: Option<int>, ids: seq<nat>, later: int)
    requires RequestsKept(ledger, t, applied, b, cutoff) && RequestsSumUp(ledger)
    requires Within(ids, ledger) && DistinctFrom(ids, applied)
    ensures ApplyRequests(t, ledger, ids, later).Ok?
  {
    if ids != [] {
      hide RequestsKept, ApplyRequest, Members, RequestsSumUp;
      var front, last := ids[..|ids| - 1], ids[|ids| - 1];
      ApplyRequestsSucceeds(ledger, t, applied, b, cutoff, front, later);
      var v := ApplyRequests(t, ledger, front, later).value;
      var d := ApplyRequestsKeeps(ledger, t, applied, b, cutoff, front, later, v);
      LastIsNew(ids, applied);
      ApplyRequestSucceeds(ledger, v, applied + Members(front), d, cutoff, last, later);
    }
  }

  // ---------------------------------------------------------------- attempts

  lemma AttemptsSumUpAt(ledger: map<nat, AttemptRecord>, key: AttemptKey)
    requires AttemptsSumUp(ledger)
    ensures Fits(Total(AttemptTotalScan(ledger, key)))
  {
  }

  lemma AttemptEntriesFit(ledger: map<nat, AttemptRecord>, m: map<nat, Entry<AttemptKey>>)
    requires m.Keys <= ledger.Keys && AttemptsSumUp(ledger)
    requires forall i :: i in m ==> m[i] == Entry(AttemptKeyOf(ledger[i]), AttemptDelta(ledger[i]))
    ensures AllFit(m)
  {
    hide Total, Fits, AttemptDelta, AttemptKeyOf, AttemptsSumUp;
    forall key: AttemptKey
      ensures Fits(Total(AmountsIn(m, {key})))
    {
      AttemptsSumUpAt(ledger, key);
      PartFits(AttemptTotalScan(ledger, key), AmountsIn(m, {key}));
    }
  }

  lemma ApplyAttemptSucceeds(ledger: map<nat, AttemptRecord>, t: map<AttemptKey, Row>, applied: set<nat>,
                             m: map<nat, Entry<AttemptKey>>, id: nat)
    requires AttemptsKept(ledger, t, applied, m) && id in ledger && id !in applied && AttemptsSumUp(ledger)
    ensures ApplyAttempt(t, ledger[id]).Ok?
  {
    hide Indexes, Plus, Fits, AttemptDelta, AttemptsSumUp, AllFit, AttemptKeyOf, Increment;
    var e := Entry(AttemptKeyOf(ledger[id]), AttemptDelta(ledger[id]));
    AttemptEntriesFit(ledger, m[id := e]);
    IncrementFits(t, m, id, e);
  }

  lemma {:induction false} ApplyAttemptsSucceeds(ledger: map<nat, AttemptRecord>, t: map<AttemptKey, Row>,
                                                 applied: set<nat>, m: map<nat, Entry<AttemptKey>>, ids: seq<nat>)
    requires AttemptsKept(ledger, t, applied, m) && AttemptsSumUp(ledger)
    requires Within(ids, ledger) && DistinctFrom(ids, applied)
    ensures ApplyAttempts(t, ledger, ids).Ok?
  {
    if ids != [] {
      var front, last := ids[..|ids| - 1], ids[|ids| - 1];
      LastIsNew(ids, applied);
      assert Within(front, ledger) && DistinctFrom(front, applied) && last in ledger;
      hide AttemptsKept, ApplyAttempt, Members, AttemptsSumUp, Within, DistinctFrom;
      ApplyAttemptsSucceeds(ledger, t, applied, m, front);
      var v := ApplyAttempts(t, ledger, front).value;
      var d := ApplyAttemptsKeeps(ledger, t, applied, m, front, v);
      ApplyAttemptSucceeds(ledger, v, applied + Members(front), d, last);
    }
  }

  ghost predicate AttemptSlotsRecorded(ledger: map<nat, AttemptRecord>, m: map<AttemptSlot, Entry<AttemptBucketKey>>) {
    forall s :: s in m ==>
      s.id in ledger && m[s] == Entry(AttemptBucketKeyOf(ledger[s.id], s.grain), AttemptDelta(ledger[s.id]))
  }

  lemma AttemptBucketFits(ledger: map<nat, AttemptRecord>, m: map<AttemptSlot, Entry<AttemptBucketKey>>,
                          k: AttemptBucketKey)
    requires AttemptSlotsRecorded(ledger, m) && AttemptsSumUp(ledger)
    ensures Fits(Total(AmountsIn(m, {k})))
  {
    hide AttemptsSumUp, Total, Fits, AttemptDelta, FloorTo;
    AttemptsSumUpAt(ledger, k.key);
    var f := map s | s in AmountsIn(m, {k}) :: s.id;
    assert forall s :: s in f ==> s == AttemptSlot(s.id, k.grain);
    EmbeddedFits(AmountsIn(m, {k}), AttemptTotalScan(ledger, k.key), f);
  }

  lemma AttemptBucketsFit(ledger: map<nat, AttemptRecord>, m: map<AttemptSlot, Entry<AttemptBucketKey>>)
    requires AttemptSlotsRecorded(ledger, m) && AttemptsSumUp(ledger)
    ensures AllFit(m)
  {
    hide AttemptSlotsRecorded, AttemptsSumUp, Fits, Total, AmountsIn;
    forall k: AttemptBucketKey
      ensures Fits(Total(AmountsIn(m, {k})))
    {
      AttemptBucketFits(ledger, m, k);
    }
  }

  lemma ApplyAttemptBucketsSucceeds(ledger: map<nat, AttemptRecord>, t: map<AttemptBucketKey, Row>, applied: set<nat>,
                                    m: map<AttemptSlot, Entry<AttemptBucketKey>>, bucketed: set<nat>,
                                    cutoff: Option<int>, id: nat, later: int)
    requires AttemptBucketsKept(ledger, t, applied, m, bucketed, cutoff) && id in ledger && id !in applied
    requires AttemptsSumUp(ledger)
    ensures ApplyAttemptBuckets(t, ledger[id], later).Ok?
  {
    hide Indexes, IncrementAll, AttemptDelta, AttemptBucketKeyOf, FloorTo, NewSlots, WithEntries, AttemptsSumUp, AllFit;
    var n := AttemptSlotsRecord(ledger, m, id);
    AttemptBucketsFit(ledger, n);
    IncrementsSucceed(t, m, AttemptSlots(id), AttemptBucketKeys(ledger[id]), AttemptDelta(ledger[id]));
  }

  lemma {:induction false} ApplyManySucceeds(ledger: map<nat, AttemptRecord>, t: map<AttemptBucketKey, Row>,
                                             applied: set<nat>, m: map<AttemptSlot, Entry<AttemptBucketKey>>,
                                             bucketed: set<nat>, cutoff: Option<int>, ids: seq<nat>, later: int)
    requires AttemptBucketsKept(ledger, t, applied, m, bucketed, cutoff) && AttemptsSumUp(ledger)
    requires Within(ids, ledger) && DistinctFrom(ids, applied)
    ensures ApplyManyAttemptBuckets(t, ledger, ids, later).Ok?
  {
    if ids != [] {
      hide AttemptBucketsKept, ApplyAttemptBuckets, Members, AttemptsSumUp;
      var front, last := ids[..|ids| - 1], ids[|ids| - 1];
      ApplyManySucceeds(ledger, t, applied, m, bucketed, cutoff, front, later);
      var v := ApplyManyAttemptBuckets(t, ledger, front, later).value;
      var d, some := ApplyManyKeeps(ledger, t, applied, m, bucketed, cutoff, front, later, v);
      LastIsNew(ids, applied);
      ApplyAttemptBucketsSucceeds(ledger, v, applied + Members(front), d, some, cutoff, last, later);
    }
  }

  // ---------------------------------------------------------------- recording keeps totals in bounds

  lemma {:induction false} IncrementAllFits<K>(t: map<K, Row>, keys: seq<K>, amount: Row, u: map<K, Row>)
    requires IncrementAll(t, keys, amount) == Ok(u)
    ensures forall i :: 0 <= i < |keys| ==> keys[i] in u && Fits(u[keys[i]])
  {
    hide Plus, Fits;
    if keys != [] {
      var last := |keys| - 1;
      var front := IncrementAll(t, keys[..last], amount).value;
      IncrementAllFits(t, keys[..last], amount, front);
      assert forall i :: 0 <= i < last ==> keys[..last][i] == keys[i];
    }
  }

  lemma OtherScans(ledger: map<nat, RequestRecord>, id: nat, r: RequestRecord, k: AllKey)
    requires id !in ledger && !Feeds(r, k)
    ensures AllTimeScan(ledger[id := r], ledger[id := r].Keys, k) == AllTimeScan(ledger, ledger.Keys, k)
  {
    hide Feeds, RequestDelta;
  }

  lemma RecordedRows(db: Db, id: nat, r: RequestRecord, now: int, e: Db)
    requires StoreModel.RecordRequest(db, id, r, now) == Ok(e) && id !in db.requests
    ensures Ready(db) && Ready(e) && e.requests == db.requests[id := r] && e.attempts == db.attempts && BytesFit(r)
    ensures IncrementAll(db.requestTables.all, RequestAllKeys(r), RequestDelta(r)) == Ok(e.requestTables.all)
  {
    hide IncrementAll, RequestDelta, RequestAllKeys, RequestBuckets;
  }

  lemma GrownTotalFits(ledger: map<nat, RequestRecord>, id: nat, r: RequestRecord, t: map<AllKey, Row>,
                       u: map<AllKey, Row>, m: map<AllSlot, Entry<AllKey>>, k: AllKey)
    requires RequestsSumUp(ledger) && id !in ledger
    requires IncrementAll(t, RequestAllKeys(r), RequestDelta(r)) == Ok(u)
    requires Indexes(u, m) && AllRecorded(ledger[id := r], ledger.Keys + {id}, m)
    ensures Fits(Total(AllTimeScan(ledger[id := r], ledger.Keys + {id}, k)))
  {
    hide Total, Fits, AllTimeScan, RequestDelta, AllRecorded, Indexes, IncrementAll, AllKeyOf, RequestsSumUp;
    assert ledger[id := r].Keys == ledger.Keys + {id};
    if Feeds(r, k) {
      IncrementAllFits(t, RequestAllKeys(r), RequestDelta(r), u);
      AllTimeIsScan(u, ledger[id := r], ledger.Keys + {id}, m, k);
      assert k == RequestAllKeys(r)[if AllKeyOf(r, false) == k then 0 else 1];
    } else {
      OtherScans(ledger, id, r, k);
      SumsUpAt(ledger, k);
    }
  }

  lemma RecordedBooks(db: Db, b: Books, now: int, id: nat, r: RequestRecord, e: Db)
    returns (m: map<AllSlot, Entry<AllKey>>)
    requires Inv(db, b) && StoreModel.RecordRequest(db, id, r, now) == Ok(e) && Ready(e)
    ensures Indexes(e.requestTables.all, m) && AllRecorded(e.requests, e.requests.Keys, m)
  {
    hide Indexes, AllRecorded, BucketsRecorded, RecordRequest, AttemptsKept, AttemptBucketsKept, Progress,
         Ready, RequestsApplied, AttemptsApplied, AttemptsSeen;
    var c := RecordRequestKeeps(db, b, now, id, r, e);
    ReadyAppliesAll(e);
    m := c.requests.all;
  }

  lemma GrownLedgerSumsUp(ledger: map<nat, RequestRecord>, id: nat, r: RequestRecord, t: map<AllKey, Row>,
                          u: map<AllKey, Row>, m: map<AllSlot, Entry<AllKey>>)
    requires RequestsSumUp(ledger) && id !in ledger && BytesFit(r)
    requires IncrementAll(t, RequestAllKeys(r), RequestDelta(r)) == Ok(u)
    requires Indexes(u, m) && AllRecorded(ledger[id := r], ledger[id := r].Keys, m)
    ensures RequestsSumUp(ledger[id := r])
  {
    hide Total, Fits, AllTimeScan, RequestDelta, AllRecorded, Indexes, IncrementAll, RequestAllKeys, BytesFit;
    var grown := ledger[id := r];
    assert grown.Keys == ledger.Keys + {id};
    forall k: AllKey
      ensures Fits(Total(AllTimeScan(grown, grown.Keys, k)))
    {
      GrownTotalFits(ledger, id, r, t, u, m, k);
    }
  }

  lemma RequestsStillSumUp(db: Db, b: Books, now: int, id: nat, r: RequestRecord, e: Db)
    requires Inv(db, b) && RequestsSumUp(db.requests) && id !in db.requests
    requires StoreModel.RecordRequest(db, id, r, now) == Ok(e)
    ensures RequestsSumUp(e.requests)
  {
    hide Inv, RequestsSumUp, RecordRequest, Ready, IncrementAll, RequestDelta, RequestAllKeys, Indexes, AllRecorded,
         BytesFit;
    RecordedRows(db, id, r, now, e);
    var m := RecordedBooks(db, b, now, id, r, e);
    GrownLedgerSumsUp(db.requests, id, r, db.requestTables.all, e.requestTables.all, m);
  }

  lemma OtherAttemptScans(ledger: map<nat, AttemptRecord>, id: nat, a: AttemptRecord, key: AttemptKey)
    requires id !in ledger && AttemptKeyOf(a) != key
    ensures AttemptTotalScan(ledger[id := a], key) == AttemptTotalScan(ledger, key)
  {
    hide AttemptDelta;
  }

  lemma RecordedAttemptRow(db: Db, id: nat, a: AttemptRecord, now: int, e: Db)
    requires StoreModel.RecordAttempt(db, id, a, now) == Ok(e) && id !in db.attempts
    ensures Ready(e) && e.attempts == db.attempts[id := a] && e.requests == db.requests
    ensures AttemptKeyOf(a) in e.attemptTables.all && Fits(e.attemptTables.all[AttemptKeyOf(a)])
  {
    hide Plus, Fits, AttemptDelta, ApplyAttemptBuckets;
  }

  lemma AttemptsStillSumUp(db: Db, b: Books, now: int, id: nat, a: AttemptRecord, e: Db)
    requires Inv(db, b) && AttemptsSumUp(db.attempts) && id !in db.attempts
    requires StoreModel.RecordAttempt(db, id, a, now) == Ok(e)
    ensures AttemptsSumUp(e.attempts)
  {
    var c := RecordAttemptKeeps(db, b, now, id, a, e);
    RecordedAttemptRow(db, id, a, now, e);
    ReadyAppliesAll(e);
    hide Total, Fits, AttemptTotalScan, RecordAttempt, AttemptsKept, AttemptBucketsKept, RequestsKept, Progress,
         AttemptsApplied, Ready, AttemptKeyOf;
    forall key: AttemptKey
      ensures Fits(Total(AttemptTotalScan(e.attempts, key)))
    {
      if AttemptKeyOf(a) == key {
        AttemptTotalIsScan(e.attempts, e.attemptTables.all, c.attempts, key);
      } else {
        OtherAttemptScans(db.attempts, id, a, key);
        AttemptsSumUpAt(db.attempts, key);
      }
    }
  }

  lemma {:induction false} LedgersSumUp(first: Db, run: Run)
    requires Unindexed(first) && RequestsSumUp(first.requests) && AttemptsSumUp(first.attempts)
    ensures RequestsSumUp(DbAfter(first, run).requests) && AttemptsSumUp(DbAfter(first, run).attempts)
  {
    hide RequestsSumUp, AttemptsSumUp, Next, Inv, Unindexed;
    if run != [] {
      var front, last := run[..|run| - 1], run[|run| - 1];
      LedgersSumUp(first, front);
      var b := RunsKeepBooks(first, front);
      var db, e := DbAfter(first, front), DbAfter(first, run);
      LedgerSteps(db, last.step, last.now);
      if e.requests != db.requests {
        RequestsStillSumUp(db, b, last.now, last.step.id, last.step.request, e);
      }
      if e.attempts != db.attempts {
        AttemptsStillSumUp(db, b, last.now, last.step.id, last.step.attempt, e);
      }
    }
  }

  // ---------------------------------------------------------------- batches succeed

  lemma CounterFits(keys: set<nat>, cursor: Option<nat>)
    ensures |UpTo(keys, cursor)| + |Batch(keys, cursor)| <= |keys|
  {
    hide Batch, Advanced;
    BatchCounts(keys, cursor);
    var all := UpTo(keys, Advanced(cursor, Batch(keys, cursor)));
    assert keys == all + (keys - all);
  }

  lemma RequestBatchSucceeds(db: Db, b: Books, now: int)
    requires Inv(db, b) && StatsMeta(db).phase.RequestsPhase? && RequestsSumUp(db.requests)
    requires |db.requests| <= U64_MAX
    ensures BackfillRequests(db, StatsMeta(db), now).Ok?
  {
    hide RequestsKept, AttemptsKept, AttemptBucketsKept, ApplyRequests, UpTo, Batch, Advanced, RequestsSumUp;
    var keys, cursor := db.requests.Keys, StatsMeta(db).requestCursor;
    BatchIsWithin(db.requests, cursor);
    BatchIsDistinct(keys, cursor);
    CounterFits(keys, cursor);
    assert |keys| == |db.requests|;
    ApplyRequestsSucceeds(db.requests, db.requestTables, UpTo(keys, cursor), b.requests, b.cutoff,
                          Batch(keys, cursor), now);
  }

  lemma AttemptBatchSucceeds(db: Db, b: Books, now: int)
    requires Inv(db, b) && StatsMeta(db).phase.AttemptsPhase? && AttemptsSumUp(db.attempts)
    requires |db.attempts| <= U64_MAX
    ensures BackfillAttempts(db, StatsMeta(db)).Ok?
  {
    hide RequestsKept, AttemptsKept, AttemptBucketsKept, ApplyAttempts, UpTo, Batch, Advanced, AttemptsSumUp;
    var keys, cursor := db.attempts.Keys, StatsMeta(db).attemptCursor;
    BatchIsWithin(db.attempts, cursor);
    BatchIsDistinct(keys, cursor);
    CounterFits(keys, cursor);
    assert |keys| == |db.attempts|;
    ApplyAttemptsSucceeds(db.attempts, db.attemptTables.all, UpTo(keys, cursor), b.attempts, Batch(keys, cursor));
  }

  lemma BucketBatchSucceeds(db: Db, b: Books, now: int)
    requires Inv(db, b) && !AttemptBucketMeta(db).ready && AttemptsSumUp(db.attempts)
    ensures BackfillBuckets(db, AttemptBucketMeta(db), now).Ok?
  {
    hide RequestsKept, AttemptsKept, AttemptBucketsKept, ApplyManyAttemptBuckets, UpTo, Batch, Advanced, AttemptsSumUp;
    var keys, cursor := db.attempts.Keys, AttemptBucketMeta(db).cursor;
    BatchIsWithin(db.attempts, cursor);
    BatchIsDistinct(keys, cursor);
    ApplyManySucceeds(db.attempts, db.attemptTables.buckets, UpTo(keys, cursor), b.attemptBuckets, b.attemptsBucketed,
                      b.cutoff, Batch(keys, cursor), now);
  }

  /** After any run, a start-up is never stuck: the schema version is known, and no batch of the
    * rebuild fails. It is enough that the totals of the ledgers fitted at first, since later rows are
    * recorded only while they fit. */
  lemma RebuildNeverFails(first: Db, run: Run, now: int)
    requires Unindexed(first) && RequestsSumUp(first.requests) && AttemptsSumUp(first.attempts)
    requires |DbAfter(first, run).requests| <= U64_MAX && |DbAfter(first, run).attempts| <= U64_MAX
    ensures var db := DbAfter(first, run);
            && StatsMeta(db).version <= SCHEMA_VERSION
            && (StatsMeta(db).version == SCHEMA_VERSION ==> Backfill(db, now).Ok?)
  {
    var db := DbAfter(first, run);
    hide DbAfter, BackfillRequests, BackfillAttempts, BackfillBuckets, RequestsKept, AttemptsKept, AttemptBucketsKept,
         RequestsSumUp, AttemptsSumUp, CutoffAfter, Unindexed;
    var b := RunsKeepBooks(first, run);
    LedgersSumUp(first, run);
    match StatsMeta(db).phase
    case RequestsPhase => RequestBatchSucceeds(db, b, now);
    case AttemptsPhase => AttemptBatchSucceeds(db, b, now);
    case ReadyPhase =>
      if !AttemptBucketMeta(db).ready {
        BucketBatchSucceeds(db, b, now);
      }
  }

  /** In particular after any run of a new store. */
  lemma NewStoreNeverFails(first: Db, run: Run, now: int)
    requires Unindexed(first) && first.requests == map[] && first.attempts == map[]
    requires |DbAfter(first, run).requests| <= U64_MAX && |DbAfter(first, run).attempts| <= U64_MAX
    ensures var db := DbAfter(first, run);
            && StatsMeta(db).version <= SCHEMA_VERSION
            && (StatsMeta(db).version == SCHEMA_VERSION ==> Backfill(db, now).Ok?)
  {
    hide *;
    NothingSumsUp();
    RebuildNeverFails(first, run, now);
  }

  /** The ledgers of a new store fit. */
  lemma NothingSumsUp()
    ensures RequestsSumUp(map[]) && AttemptsSumUp(map[])
  {
    hide Fits;
    assert Fits([]) by { NoneFit(); }
    assert forall k: AllKey :: AllTimeScan(map[], {}, k) == map[];
    assert forall key: AttemptKey :: AttemptTotalScan(map[], key) == map[];
  }

  lemma NoneFit()
    ensures Fits([])
  {
  }
}
