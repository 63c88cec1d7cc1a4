/** What the rollup tables stand for: which ledger rows were counted, and where. */
module StoreBooks {
  import opened Prelude
  import opened Counters
  import opened Rollup
  import opened StoreModel

  // ---------------------------------------------------------------- several increments

  ghost function WithEntries<C, K>(m: map<C, Entry<K>>, slots: seq<C>, keys: seq<K>, amount: Row): map<C, Entry<K>>
    requires |slots| == |keys|
  {
    if slots == [] then m
    else
      var last := |slots| - 1;
      WithEntries(m, slots[..last], keys[..last], amount)[slots[last] := Entry(keys[last], amount)]
  }

  ghost predicate NewSlots<C, K>(m: map<C, Entry<K>>, slots: seq<C>) {
    && (forall i :: 0 <= i < |slots| ==> slots[i] !in m)
    && (forall i, j :: 0 <= i < j < |slots| ==> slots[i] != slots[j])
  }

  lemma {:induction false} WithEntriesIs<C, K>(m: map<C, Entry<K>>, slots: seq<C>, keys: seq<K>, amount: Row)
    requires |slots| == |keys| && NewSlots(m, slots)
    ensures var w := WithEntries(m, slots, keys, amount);
            && (forall c :: c in w <==> c in m || c in slots)
            && (forall c :: c in m ==> w[c] == m[c])
            && (forall i :: 0 <= i < |slots| ==> w[slots[i]] == Entry(keys[i], amount))
  {
    if slots != [] {
      var last := |slots| - 1;
      WithEntriesIs(m, slots[..last], keys[..last], amount);
      assert slots == slots[..last] + [slots[last]];
      assert forall i :: 0 <= i < last ==> slots[i] == slots[..last][i];
    }
  }

  lemma {:induction false} IncrementsIndex<C, K>(t: map<K, Row>, m: map<C, Entry<K>>, slots: seq<C>, keys: seq<K>,
                                                 amount: Row, u: map<K, Row>)
    requires Indexes(t, m) && |slots| == |keys| && NewSlots(m, slots)
    requires IncrementAll(t, keys, amount) == Ok(u)
    ensures Indexes(u, WithEntries(m, slots, keys, amount))
  {
    hide Indexes, Plus, Fits;
    if slots != [] {
      var last := |slots| - 1;
      var front := IncrementAll(t, keys[..last], amount);
      IncrementsIndex(t, m, slots[..last], keys[..last], amount, front.value);
      WithEntriesIs(m, slots[..last], keys[..last], amount);
      assert slots[last] !in slots[..last];
      IncrementIndexes(front.value, WithEntries(m, slots[..last], keys[..last], amount), slots[last],
                       Entry(keys[last], amount));
    }
  }

  // ---------------------------------------------------------------- requests

  datatype Slot = Slot(id: nat, grain: Grain, detailed: bool)

  datatype AllSlot = AllSlot(id: nat, detailed: bool)

  /** The contributions present in the two request tables, and the requests that were inside
    * the retained period when they were applied. */
  datatype RequestBooks = RequestBooks(all: map<AllSlot, Entry<AllKey>>, buckets: map<Slot, Entry<BucketKey>>,
                                       bucketed: set<nat>)

  const NO_REQUEST_BOOKS := RequestBooks(map[], map[], {})

  predicate NotPruned(cutoff: Option<int>, bucket: int) { cutoff.None? || cutoff.value <= bucket }

  ghost predicate AllRecorded(ledger: map<nat, RequestRecord>, applied: set<nat>, m: map<AllSlot, Entry<AllKey>>) {
    && applied <= ledger.Keys
    && (forall s: AllSlot :: s in m <==> s.id in applied)
    && (forall s :: s in m ==> m[s] == Entry(AllKeyOf(ledger[s.id], s.detailed), RequestDelta(ledger[s.id])))
  }

  ghost predicate BucketsRecorded(ledger: map<nat, RequestRecord>, bucketed: set<nat>, cutoff: Option<int>,
                                  m: map<Slot, Entry<BucketKey>>)
  {
    && bucketed <= ledger.Keys
    && (forall s :: s in m ==> s.id in bucketed)
    && (forall s :: s in m ==>
          m[s] == Entry(BucketKeyOf(ledger[s.id], s.grain, s.detailed), RequestDelta(ledger[s.id])))
    && (forall s: Slot :: s.id in bucketed && NotPruned(cutoff, FloorTo(ledger[s.id].startedAt, s.grain.Unit())) ==>
         s in m)
    && (forall i, g :: Slot(i, g, false) in m <==> Slot(i, g, true) in m)
  }

  /** The rows that are inside the retained period of a moment. */
  function RecentRequests(ledger: map<nat, RequestRecord>, ids: set<nat>, now: int): set<nat> {
    set i | i in ids && i in ledger && ledger[i].startedAt >= Retained(now)
  }

  ghost predicate RequestsKept(ledger: map<nat, RequestRecord>, t: RequestTables, applied: set<nat>, b: RequestBooks,
                               cutoff: Option<int>)
  {
    && Indexes(t.all, b.all) && Indexes(t.buckets, b.buckets)
    && AllRecorded(ledger, applied, b.all)
    && BucketsRecorded(ledger, b.bucketed, cutoff, b.buckets)
    && b.bucketed <= applied
  }

  function BucketSlots(id: nat): seq<Slot> {
    [Slot(id, Minute, false), Slot(id, Minute, true), Slot(id, Hour, false), Slot(id, Hour, true)]
  }

  function AllSlots(id: nat): seq<AllSlot> { [AllSlot(id, false), AllSlot(id, true)] }

  lemma AllSlotsRecord(ledger: map<nat, RequestRecord>, applied: set<nat>, m: map<AllSlot, Entry<AllKey>>, id: nat)
    returns (n: map<AllSlot, Entry<AllKey>>)
    requires AllRecorded(ledger, applied, m) && id in ledger && id !in applied
    ensures NewSlots(m, AllSlots(id))
    ensures n == WithEntries(m, AllSlots(id), RequestAllKeys(ledger[id]), RequestDelta(ledger[id]))
    ensures AllRecorded(ledger, applied + {id}, n)
  {
    hide IncrementAll, RequestDelta, AllKeyOf, WithEntries;
    var keys, delta := RequestAllKeys(ledger[id]), RequestDelta(ledger[id]);
    n := WithEntries(m, AllSlots(id), keys, delta);
    WithEntriesIs(m, AllSlots(id), keys, delta);
    forall s: AllSlot | s.id in applied + {id}
      ensures s in n && n[s] == Entry(AllKeyOf(ledger[s.id], s.detailed), RequestDelta(ledger[s.id]))
    {
      if s.id == id {
        assert s == AllSlots(id)[if s.detailed then 1 else 0];
      }
    }
  }

  function SlotIndex(s: Slot): nat {
    (if s.grain.Minute? then 0 else 2) + (if s.detailed then 1 else 0)
  }

  lemma BucketSlotsRecord(ledger: map<nat, RequestRecord>, bucketed: set<nat>, cutoff: Option<int>,
                          m: map<Slot, Entry<BucketKey>>, id: nat) returns (n: map<Slot, Entry<BucketKey>>)
    requires BucketsRecorded(ledger, bucketed, cutoff, m) && id in ledger && id !in bucketed
    ensures NewSlots(m, BucketSlots(id))
    ensures n == WithEntries(m, BucketSlots(id), RequestBucketKeys(ledger[id]), RequestDelta(ledger[id]))
    ensures BucketsRecorded(ledger, bucketed + {id}, cutoff, n)
  {
    hide IncrementAll, RequestDelta, BucketKeyOf, WithEntries, FloorTo;
    var keys, delta := RequestBucketKeys(ledger[id]), RequestDelta(ledger[id]);
    n := WithEntries(m, BucketSlots(id), keys, delta);
    WithEntriesIs(m, BucketSlots(id), keys, delta);
    forall s: Slot | s.id == id
      ensures s in n && n[s] == Entry(BucketKeyOf(ledger[s.id], s.grain, s.detailed), delta)
    {
      assert s == BucketSlots(id)[SlotIndex(s)];
    }
    assert forall s :: s in n ==> s in m || s.id == id;
  }

  /** Applying one more row counts exactly that row. */
  lemma ApplyRequestKeeps(ledger: map<nat, RequestRecord>, t: RequestTables, applied: set<nat>, b: RequestBooks,
                          cutoff: Option<int>, id: nat, now: int, u: RequestTables) returns (c: RequestBooks)
    requires RequestsKept(ledger, t, applied, b, cutoff) && id in ledger && id !in applied
    requires ApplyRequest(t, ledger[id], now) == Ok(u)
    ensures RequestsKept(ledger, u, applied + {id}, c, cutoff)
    ensures c.bucketed == b.bucketed + RecentRequests(ledger, {id}, now)
  {
    hide IncrementAll, RequestDelta, Indexes, AllRecorded, BucketsRecorded, BucketKeyOf, AllKeyOf, NewSlots,
         WithEntries;
    var delta := RequestDelta(ledger[id]);
    var all := AllSlotsRecord(ledger, applied, b.all, id);
    IncrementsIndex(t.all, b.all, AllSlots(id), RequestAllKeys(ledger[id]), delta, u.all);
    if ledger[id].startedAt >= Retained(now) {
      var buckets := BucketSlotsRecord(ledger, b.bucketed, cutoff, b.buckets, id);
      IncrementsIndex(t.buckets, b.buckets, BucketSlots(id), RequestBucketKeys(ledger[id]), delta, u.buckets);
      c := RequestBooks(all, buckets, b.bucketed + {id});
    } else {
      c := RequestBooks(all, b.buckets, b.bucketed);
    }
  }

  predicate DistinctFrom(ids: seq<nat>, applied: set<nat>) {
    && (forall i :: 0 <= i < |ids| ==> ids[i] !in applied)
    && (forall i, j :: 0 <= i < j < |ids| ==> ids[i] != ids[j])
  }

  function Members(ids: seq<nat>): set<nat> { set i | 0 <= i < |ids| :: ids[i] }

  lemma NoMembers()
    ensures Members([]) == {}
  {
  }

  lemma MembersOfFront(ids: seq<nat>)
    requires ids != []
    ensures Members(ids) == Members(ids[..|ids| - 1]) + {ids[|ids| - 1]}
  {
    var front := ids[..|ids| - 1];
    forall x | x in Members(ids)
      ensures x in Members(front) + {ids[|ids| - 1]}
    {
      var i :| 0 <= i < |ids| && ids[i] == x;
      assert i < |ids| - 1 ==> front[i] == x;
    }
    forall x | x in Members(front)
      ensures x in Members(ids)
    {
      var i :| 0 <= i < |front| && front[i] == x;
      assert ids[i] == x;
    }
  }

  lemma {:induction false} ApplyRequestsKeeps(ledger: map<nat, RequestRecord>, t: RequestTables, applied: set<nat>,
                                              b: RequestBooks, cutoff: Option<int>, ids: seq<nat>, now: int,
                                              u: RequestTables) returns (c: RequestBooks)
    requires RequestsKept(ledger, t, applied, b, cutoff)
    requires Within(ids, ledger) && DistinctFrom(ids, applied) && ApplyRequests(t, ledger, ids, now) == Ok(u)
    ensures RequestsKept(ledger, u, applied + Members(ids), c, cutoff)
    ensures c.bucketed == b.bucketed + RecentRequests(ledger, Members(ids), now)
  {
    if ids == [] {
      hide Indexes, AllRecorded, BucketsRecorded;
      c := b;
      assert applied + Members(ids) == applied;
    } else {
      hide RequestsKept, ApplyRequest, Members;
      var front, last := ids[..|ids| - 1], ids[|ids| - 1];
      var v := ApplyRequests(t, ledger, front, now).value;
      var d := ApplyRequestsKeeps(ledger, t, applied, b, cutoff, front, now, v);
      MembersOfFront(ids);
      LastIsNew(ids, applied);
      c := ApplyRequestKeeps(ledger, v, applied + Members(front), d, cutoff, last, now, u);
      assert applied + Members(front) + {last} == applied + Members(ids);
    }
  }

  lemma LastIsNew(ids: seq<nat>, applied: set<nat>)
    requires ids != [] && DistinctFrom(ids, applied)
    ensures ids[|ids| - 1] !in applied + Members(ids[..|ids| - 1])
  {
  }

  /** A request that is added to the ledger is not yet counted. */
  lemma LedgerGrows(ledger: map<nat, RequestRecord>, t: RequestTables, applied: set<nat>, b: RequestBooks,
                    cutoff: Option<int>, id: nat, r: RequestRecord)
    requires RequestsKept(ledger, t, applied, b, cutoff) && id !in ledger
    ensures RequestsKept(ledger[id := r], t, applied, b, cutoff) && id !in applied
  {
    hide Indexes, RequestDelta, AllKeyOf, BucketKeyOf, FloorTo;
  }

  lemma NothingKept(ledger: map<nat, RequestRecord>)
    ensures RequestsKept(ledger, RequestTables(map[], map[]), {}, NO_REQUEST_BOOKS, None)
  {
    hide Total;
  }

  // ---------------------------------------------------------------- pruning

  function Later(cutoff: Option<int>, c: int): Option<int> {
    if cutoff.None? then Some(c) else Some(Max(cutoff.value, c))
  }

  lemma PruneKeepsRequests(ledger: map<nat, RequestRecord>, t: RequestTables, applied: set<nat>, b: RequestBooks,
                           cutoff: Option<int>, c: int, u: RequestTables) returns (d: RequestBooks)
    requires RequestsKept(ledger, t, applied, b, cutoff)
    requires u == t.(buckets := map k | k in t.buckets && k.bucket >= c :: t.buckets[k])
    ensures RequestsKept(ledger, u, applied, d, Later(cutoff, c)) && d.bucketed == b.bucketed
  {
    hide Total, AmountsIn, AllRecorded, RequestDelta, FloorTo;
    d := b.(buckets := map s | s in b.buckets && b.buckets[s].key.bucket >= c :: b.buckets[s]);
    DropIndexes(t.buckets, b.buckets, u.buckets, d.buckets);
    hide Indexes;
  }

  // ---------------------------------------------------------------- attempts

  datatype AttemptSlot = AttemptSlot(id: nat, grain: Grain)

  ghost predicate AttemptsKept(ledger: map<nat, AttemptRecord>, t: map<AttemptKey, Row>, applied: set<nat>,
                               m: map<nat, Entry<AttemptKey>>)
  {
    && Indexes(t, m) && applied <= ledger.Keys && m.Keys == applied
    && (forall i :: i in m ==> m[i] == Entry(AttemptKeyOf(ledger[i]), AttemptDelta(ledger[i])))
  }

  ghost predicate AttemptBucketsKept(ledger: map<nat, AttemptRecord>, t: map<AttemptBucketKey, Row>, applied: set<nat>,
                                     m: map<AttemptSlot, Entry<AttemptBucketKey>>, bucketed: set<nat>,
                                     cutoff: Option<int>)
  {
    && Indexes(t, m) && bucketed <= applied <= ledger.Keys
    && (forall s :: s in m ==> s.id in bucketed)
    && (forall s :: s in m ==> m[s] == Entry(AttemptBucketKeyOf(ledger[s.id], s.grain), AttemptDelta(ledger[s.id])))
    && (forall s: AttemptSlot :: s.id in bucketed && NotPruned(cutoff, FloorTo(ledger[s.id].startedAt, s.grain.Unit()))
                                 ==> s in m)
  }

  function RecentAttempts(ledger: map<nat, AttemptRecord>, ids: set<nat>, now: int): set<nat> {
    set i | i in ids && i in ledger && ledger[i].startedAt >= Retained(now)
  }

  lemma ApplyAttemptKeeps(ledger: map<nat, AttemptRecord>, t: map<AttemptKey, Row>, applied: set<nat>,
                          m: map<nat, Entry<AttemptKey>>, id: nat, u: map<AttemptKey, Row>)
    returns (n: map<nat, Entry<AttemptKey>>)
    requires AttemptsKept(ledger, t, applied, m) && id in ledger && id !in applied
    requires ApplyAttempt(t, ledger[id]) == Ok(u)
    ensures AttemptsKept(ledger, u, applied + {id}, n)
  {
    hide Indexes, Plus, Fits, AttemptDelta;
    var e := Entry(AttemptKeyOf(ledger[id]), AttemptDelta(ledger[id]));
    IncrementIndexes(t, m, id, e);
    n := m[id := e];
  }

  lemma {:induction false} ApplyAttemptsKeeps(ledger: map<nat, AttemptRecord>, t: map<AttemptKey, Row>,
                                              applied: set<nat>,
                                              m: map<nat, Entry<AttemptKey>>, ids: seq<nat>, u: map<AttemptKey, Row>)
    returns (n: map<nat, Entry<AttemptKey>>)
    requires AttemptsKept(ledger, t, applied, m) && Within(ids, ledger) && DistinctFrom(ids, applied)
    requires ApplyAttempts(t, ledger, ids) == Ok(u)
    ensures AttemptsKept(ledger, u, applied + Members(ids), n)
  {
    hide AttemptsKept, ApplyAttempt, Members;
    if ids == [] {
      NoMembers();
      assert applied + Members(ids) == applied;
      n := m;
    } else {
      var front, last := ids[..|ids| - 1], ids[|ids| - 1];
      var v := ApplyAttempts(t, ledger, front).value;
      var d := ApplyAttemptsKeeps(ledger, t, applied, m, front, v);
      MembersOfFront(ids);
      LastIsNew(ids, applied);
      n := ApplyAttemptKeeps(ledger, v, applied + Members(front), d, last, u);
      assert applied + Members(front) + {last} == applied + Members(ids);
    }
  }

  function AttemptSlots(id: nat): seq<AttemptSlot> { [AttemptSlot(id, Minute), AttemptSlot(id, Hour)] }

  lemma AttemptSlotsRecord(ledger: map<nat, AttemptRecord>, m: map<AttemptSlot, Entry<AttemptBucketKey>>, id: nat)
    returns (n: map<AttemptSlot, Entry<AttemptBucketKey>>)
    requires id in ledger && (forall s :: s in m ==> s.id != id)
    ensures NewSlots(m, AttemptSlots(id))
    ensures n == WithEntries(m, AttemptSlots(id), AttemptBucketKeys(ledger[id]), AttemptDelta(ledger[id]))
    ensures forall s :: s in n <==> s in m || s.id == id
    ensures forall s :: s in m ==> n[s] == m[s]
    ensures forall s :: s in n && s.id == id ==>
              n[s] == Entry(AttemptBucketKeyOf(ledger[id], s.grain), AttemptDelta(ledger[id]))
  {
    hide IncrementAll, AttemptDelta, AttemptBucketKeyOf, WithEntries;
    var keys, delta := AttemptBucketKeys(ledger[id]), AttemptDelta(ledger[id]);
    n := WithEntries(m, AttemptSlots(id), keys, delta);
    WithEntriesIs(m, AttemptSlots(id), keys, delta);
    forall s: AttemptSlot | s.id == id
      ensures s in n && n[s] == Entry(AttemptBucketKeyOf(ledger[id], s.grain), delta)
    {
      assert s == AttemptSlots(id)[if s.grain.Minute? then 0 else 1];
    }
  }

  lemma ApplyAttemptBucketsKeeps(ledger: map<nat, AttemptRecord>, t: map<AttemptBucketKey, Row>, applied: set<nat>,
                                 m: map<AttemptSlot, Entry<AttemptBucketKey>>, bucketed: set<nat>, cutoff: Option<int>,
                                 id: nat, now: int, u: map<AttemptBucketKey, Row>)
    returns (n: map<AttemptSlot, Entry<AttemptBucketKey>>, more: set<nat>)
    requires AttemptBucketsKept(ledger, t, applied, m, bucketed, cutoff)
    requires id in ledger && id !in applied && ApplyAttemptBuckets(t, ledger[id], now) == Ok(u)
    ensures AttemptBucketsKept(ledger, u, applied + {id}, n, more, cutoff)
    ensures more == bucketed + RecentAttempts(ledger, {id}, now)
  {
    hide Indexes, IncrementAll, AttemptDelta, AttemptBucketKeyOf, FloorTo, NewSlots, WithEntries;
    if ledger[id].startedAt < Retained(now) {
      n, more := m, bucketed;
    } else {
      n := AttemptSlotsRecord(ledger, m, id);
      IncrementsIndex(t, m, AttemptSlots(id), AttemptBucketKeys(ledger[id]), AttemptDelta(ledger[id]), u);
      more := bucketed + {id};
    }
  }

  lemma {:induction false} ApplyManyKeeps(ledger: map<nat, AttemptRecord>, t: map<AttemptBucketKey, Row>,
                                          applied: set<nat>,
                                          m: map<AttemptSlot, Entry<AttemptBucketKey>>, bucketed: set<nat>,
                                          cutoff: Option<int>, ids: seq<nat>, now: int,
                                          u: map<AttemptBucketKey, Row>)
    returns (n: map<AttemptSlot, Entry<AttemptBucketKey>>, more: set<nat>)
    requires AttemptBucketsKept(ledger, t, applied, m, bucketed, cutoff)
    requires Within(ids, ledger) && DistinctFrom(ids, applied) && ApplyManyAttemptBuckets(t, ledger, ids, now) == Ok(u)
    ensures AttemptBucketsKept(ledger, u, applied + Members(ids), n, more, cutoff)
    ensures more == bucketed + RecentAttempts(ledger, Members(ids), now)
  {
    hide AttemptBucketsKept, ApplyAttemptBuckets, Members;
    if ids == [] {
      NoMembers();
      assert applied + Members(ids) == applied;
      n, more := m, bucketed;
    } else {
      var front, last := ids[..|ids| - 1], ids[|ids| - 1];
      var v := ApplyManyAttemptBuckets(t, ledger, front, now).value;
      var d, some := ApplyManyKeeps(ledger, t, applied, m, bucketed, cutoff, front, now, v);
      MembersOfFront(ids);
      LastIsNew(ids, applied);
      n, more := ApplyAttemptBucketsKeeps(ledger, v, applied + Members(front), d, some, cutoff, last, now, u);
      assert applied + Members(front) + {last} == applied + Members(ids);
    }
  }

  lemma AttemptLedgerGrows(ledger: map<nat, AttemptRecord>, t: AttemptTables, applied: set<nat>, seen: set<nat>,
                           m: map<nat, Entry<AttemptKey>>, n: map<AttemptSlot, Entry<AttemptBucketKey>>,
                           bucketed: set<nat>, cutoff: Option<int>, id: nat, a: AttemptRecord)
    requires AttemptsKept(ledger, t.all, applied, m) && id !in ledger
    requires AttemptBucketsKept(ledger, t.buckets, seen, n, bucketed, cutoff)
    ensures AttemptsKept(ledger[id := a], t.all, applied, m) && id !in applied && id !in seen
    ensures AttemptBucketsKept(ledger[id := a], t.buckets, seen, n, bucketed, cutoff)
  {
    hide Indexes, AttemptDelta, AttemptBucketKeyOf, FloorTo, AttemptKeyOf;
  }

  lemma NoAttemptsKept(ledger: map<nat, AttemptRecord>)
    ensures AttemptsKept(ledger, map[], {}, map[])
    ensures AttemptBucketsKept(ledger, map[], {}, map[], {}, None)
  {
    hide Total;
  }

  lemma PruneKeepsAttempts(ledger: map<nat, AttemptRecord>, t: map<AttemptBucketKey, Row>, applied: set<nat>,
                           m: map<AttemptSlot, Entry<AttemptBucketKey>>, bucketed: set<nat>, cutoff: Option<int>,
                           c: int, u: map<AttemptBucketKey, Row>)
    returns (n: map<AttemptSlot, Entry<AttemptBucketKey>>)
    requires AttemptBucketsKept(ledger, t, applied, m, bucketed, cutoff)
    requires u == map k | k in t && k.bucket >= c :: t[k]
    ensures AttemptBucketsKept(ledger, u, applied, n, bucketed, Later(cutoff, c))
  {
    hide Total, AmountsIn, AttemptDelta, FloorTo;
    n := map s | s in m && m[s].key.bucket >= c :: m[s];
    DropIndexes(t, m, u, n);
    hide Indexes;
  }
}
