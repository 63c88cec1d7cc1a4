/** What the window queries read, and that they agree with a scan of the ledger. */
module StoreQueries {
  import opened Prelude
  import opened Counters
  import opened Rollup
  import opened StoreModel
  import opened StoreBooks
  import opened StoreRuns

  // ---------------------------------------------------------------- the ranges of a window

  function CeilTo(value: int, unit: nat): int
    requires unit > 0
  {
    var floor := FloorTo(value, unit);
    if floor == value then value else Min(floor + unit, I64_MAX)
  }

  datatype Range = Range(grain: Grain, start: int, end: int)

  function BucketRanges(from: int, to: int): (ranges: seq<Range>)
    ensures |ranges| == 3
  {
    var firstFullHour, lastFullHour := CeilTo(from, HOUR_MS), FloorTo(to, HOUR_MS);
    var leftEnd := Min(firstFullHour, to);
    [Range(Minute, from, leftEnd), Range(Hour, firstFullHour, lastFullHour),
     Range(Minute, Max(lastFullHour, leftEnd), to)]
  }

  predicate InRange(r: Range, g: Grain, bucket: int) { r.grain == g && r.start <= bucket < r.end }

  predicate InWindow(g: Grain, bucket: int, from: int, to: int) {
    var ranges := BucketRanges(from, to);
    InRange(ranges[0], g, bucket) || InRange(ranges[1], g, bucket) || InRange(ranges[2], g, bucket)
  }

  predicate IsUnit(unit: nat) { unit == MINUTE_MS || unit == HOUR_MS }

  lemma FloorBounds(t: int, unit: nat)
    requires IsUnit(unit)
    ensures FloorTo(t, unit) <= t < FloorTo(t, unit) + unit && FloorTo(t, unit) % unit == 0
  {
    MinuteFloor(t);
    HourFloor(t);
    hide FloorTo;
  }

  lemma MinuteFloor(t: int)
    ensures FloorTo(t, 60_000) <= t < FloorTo(t, 60_000) + 60_000 && FloorTo(t, 60_000) % 60_000 == 0
  {
  }

  lemma HourFloor(t: int)
    ensures FloorTo(t, 3_600_000) <= t < FloorTo(t, 3_600_000) + 3_600_000 && FloorTo(t, 3_600_000) % 3_600_000 == 0
  {
  }

  /** A multiple of the unit is passed by a time exactly when it is passed by the time's floor. */
  lemma FloorPasses(t: int, unit: nat, bound: int)
    requires IsUnit(unit) && bound % unit == 0
    ensures bound <= t <==> bound <= FloorTo(t, unit)
  {
    if unit == 60_000 {
      assert bound == bound / 60_000 * 60_000;
    } else {
      assert bound == bound / 3_600_000 * 3_600_000;
    }
  }

  lemma HourIsMinutes(bound: int)
    requires bound % HOUR_MS == 0
    ensures bound % MINUTE_MS == 0
  {
    assert bound == 60 * (bound / HOUR_MS) * MINUTE_MS;
  }

  lemma CeilBounds(value: int, unit: nat)
    requires IsUnit(unit) && value <= I64_MAX
    ensures value <= CeilTo(value, unit) && (CeilTo(value, unit) % unit == 0 || CeilTo(value, unit) == I64_MAX)
    ensures CeilTo(value, unit) <= FloorTo(value, unit) + unit
  {
    FloorBounds(value, unit);
    UnitSteps(FloorTo(value, unit), unit);
    hide FloorTo;
  }

  lemma UnitSteps(a: int, unit: nat)
    requires IsUnit(unit) && a % unit == 0
    ensures (a + unit) % unit == 0
  {
    if unit == 60_000 {
    } else {
      assert unit == 3_600_000;
    }
  }

  /** The three ranges of a window never overlap and together count each minute of it exactly
    * once, in its minute bucket or in its hour bucket. */
  lemma OneBucketCounts(t: int, from: int, to: int)
    requires from <= to <= I64_MAX
    ensures var minute := InWindow(Minute, FloorTo(t, MINUTE_MS), from, to);
            var hour := InWindow(Hour, FloorTo(t, HOUR_MS), from, to);
            && !(minute && hour)
            && (minute || hour <==> from <= FloorTo(t, MINUTE_MS) < to)
  {
    var m, h := FloorTo(t, MINUTE_MS), FloorTo(t, HOUR_MS);
    var first, last := CeilTo(from, HOUR_MS), FloorTo(to, HOUR_MS);
    CeilBounds(from, HOUR_MS);
    FloorBounds(to, HOUR_MS);
    if first <= last {
      if first % HOUR_MS == 0 {
        HourIsMinutes(first);
        FloorPasses(t, HOUR_MS, first);
        FloorPasses(t, MINUTE_MS, first);
      }
      HourIsMinutes(last);
      FloorPasses(t, HOUR_MS, last);
      FloorPasses(t, MINUTE_MS, last);
    } else {
      FloorBounds(from, HOUR_MS);
      hide FloorTo;
      assert first <= FloorTo(from, HOUR_MS) + HOUR_MS;
      if to > first {
        FloorReaches(first, to);
      }
    }
  }

  lemma FloorReaches(first: int, to: int)
    requires first < to <= I64_MAX && (first % HOUR_MS == 0 || first == I64_MAX)
    ensures first <= FloorTo(to, HOUR_MS)
  {
    FloorPasses(to, HOUR_MS, first);
  }

  lemma WindowStartsAtFrom(g: Grain, bucket: int, from: int, to: int)
    requires from <= to <= I64_MAX && InWindow(g, bucket, from, to)
    ensures from <= bucket
  {
    CeilBounds(from, HOUR_MS);
    hide FloorTo, CeilTo;
  }

  // ---------------------------------------------------------------- results

  /** The totals of one model in a window: overall, by target, and without a target. */
  datatype RoutingRollup = RoutingRollup(total: Row, targets: map<Route, Row>, unattributed: Row) {
    function Of(scope: Scope): Row {
      match scope
      case ModelScope => total
      case TargetScope(route) => Get(targets, route)
      case UnattributedScope => unattributed
    }
  }

  const NO_ROLLUP := RoutingRollup([], map[], [])

  ghost predicate Accounts<C>(res: RoutingRollup, m: map<C, Entry<Scope>>) {
    && (forall s: Scope :: res.Of(s) == Total(AmountsIn(m, {s})))
    && (forall c :: c in m && m[c].key.TargetScope? ==> m[c].key.route in res.targets)
    && (forall r :: r in res.targets ==> exists c :: c in m && m[c].key == TargetScope(r))
  }

  /** The rows a window query reads. */
  ghost function WindowEntries(t: map<BucketKey, Row>, model: string, from: int, to: int)
    : map<BucketKey, Entry<Scope>>
  {
    map k | k in t && k.model == model && InWindow(k.grain, k.bucket, from, to) :: Entry(k.scope, t[k])
  }

  ghost function AllTimeEntries(t: map<AllKey, Row>, model: string): map<AllKey, Entry<Scope>> {
    map k | k in t && k.model == model :: Entry(k.scope, t[k])
  }

  /** Whether a query, of one model or of all, is about the model. */
  predicate IsFor(wanted: Option<string>, model: string) { wanted.None? || wanted.value == model }

  ghost function WindowKeys(t: map<BucketKey, Row>, model: Option<string>, scope: Scope, from: int, to: int)
    : set<BucketKey>
  {
    set k | k in t && IsFor(model, k.model) && k.scope == scope && InWindow(k.grain, k.bucket, from, to)
  }

  lemma WindowRows(t: map<BucketKey, Row>, model: string, scope: Scope, from: int, to: int)
    ensures AmountsIn(WindowEntries(t, model, from, to), {scope})
            == RowsOf(t, WindowKeys(t, Some(model), scope, from, to))
  {
    hide InWindow;
  }

  // ---------------------------------------------------------------- the scan

  /** Whether the request counts for the scope of the model. */
  predicate Concerns(r: RequestRecord, model: Option<string>, scope: Scope) {
    IsFor(model, ServedModel(r)) && ScopeOf(r, !scope.ModelScope?) == scope
  }

  predicate StartsIn(startedAt: int, from: int, to: int) { from <= FloorTo(startedAt, MINUTE_MS) < to }

  ghost function Scan(ledger: map<nat, RequestRecord>, ids: set<nat>, model: Option<string>, scope: Scope, from: int,
                      to: int)
    : map<nat, Row>
  {
    map i | i in ledger && i in ids && Concerns(ledger[i], model, scope) && StartsIn(ledger[i].startedAt, from, to)
      :: RequestDelta(ledger[i])
  }

  lemma AlignedWindow(startedAt: int, from: int, to: int)
    requires from % MINUTE_MS == 0 && to % MINUTE_MS == 0
    ensures StartsIn(startedAt, from, to) <==> from <= startedAt < to
  {
    FloorPasses(startedAt, MINUTE_MS, from);
    FloorPasses(startedAt, MINUTE_MS, to);
  }

  ghost predicate Counts(t: map<BucketKey, Row>, ledger: map<nat, RequestRecord>, b: RequestBooks,
                         cutoff: Option<int>) {
    Indexes(t, b.buckets) && BucketsRecorded(ledger, b.bucketed, cutoff, b.buckets)
  }

  ghost function InWindowSlots(b: RequestBooks, t: map<BucketKey, Row>, model: Option<string>, scope: Scope, from: int,
                               to: int)
    : map<Slot, Row>
  {
    AmountsIn(b.buckets, WindowKeys(t, model, scope, from, to))
  }

  lemma SlotScope(r: RequestRecord, detailed: bool, scope: Scope)
    requires ScopeOf(r, detailed) == scope
    ensures detailed == !scope.ModelScope?
  {
  }

  /** A contribution that a window reads belongs to a row of the scan. */
  lemma SlotIsScanned(t: map<BucketKey, Row>, ledger: map<nat, RequestRecord>, b: RequestBooks, cutoff: Option<int>,
                      model: Option<string>, scope: Scope, from: int, to: int, s: Slot)
    requires Counts(t, ledger, b, cutoff) && from <= to <= I64_MAX
    requires s in InWindowSlots(b, t, model, scope, from, to)
    ensures s in b.buckets && s.id in b.bucketed && s.id in ledger && s.detailed == !scope.ModelScope?
    ensures s.id in Scan(ledger, b.bucketed, model, scope, from, to)
    ensures InWindowSlots(b, t, model, scope, from, to)[s] == Scan(ledger, b.bucketed, model, scope, from, to)[s.id]
    ensures InWindow(s.grain, FloorTo(ledger[s.id].startedAt, s.grain.Unit()), from, to)
  {
    hide Indexes, InWindow, FloorTo, RequestDelta, Target;
    var r := ledger[s.id];
    SlotScope(r, s.detailed, scope);
    OneBucketCounts(r.startedAt, from, to);
  }

  /** A row of the scan is read by the window in exactly one of its buckets. */
  lemma ScannedHasSlot(t: map<BucketKey, Row>, ledger: map<nat, RequestRecord>, b: RequestBooks, cutoff: Option<int>,
                       model: Option<string>, scope: Scope, from: int, to: int, id: nat) returns (s: Slot)
    requires Counts(t, ledger, b, cutoff) && from <= to <= I64_MAX && NotPruned(cutoff, from)
    requires id in Scan(ledger, b.bucketed, model, scope, from, to)
    ensures s.id == id && s in InWindowSlots(b, t, model, scope, from, to)
  {
    hide InWindow, FloorTo, RequestDelta, Target, Total;
    var r := ledger[id];
    OneBucketCounts(r.startedAt, from, to);
    var g := if InWindow(Minute, FloorTo(r.startedAt, MINUTE_MS), from, to) then Minute else Hour;
    WindowStartsAtFrom(g, FloorTo(r.startedAt, g.Unit()), from, to);
    s := Slot(id, g, !scope.ModelScope?);
    assert NotPruned(cutoff, FloorTo(r.startedAt, g.Unit()));
    assert s in b.buckets && b.buckets[s].key in t;
  }

  lemma SlotsRename(t: map<BucketKey, Row>, ledger: map<nat, RequestRecord>, b: RequestBooks, cutoff: Option<int>,
                    model: Option<string>, scope: Scope, from: int, to: int)
    requires Counts(t, ledger, b, cutoff) && from <= to <= I64_MAX && NotPruned(cutoff, from)
    ensures Total(InWindowSlots(b, t, model, scope, from, to))
            == Total(Scan(ledger, b.bucketed, model, scope, from, to))
  {
    var a, c := InWindowSlots(b, t, model, scope, from, to), Scan(ledger, b.bucketed, model, scope, from, to);
    var f := map s | s in a :: s.id;
    hide Counts, Scan, InWindowSlots, InWindow, FloorTo, Total;
    forall s | s in f
      ensures f[s] in c && c[f[s]] == a[s]
    {
      SlotIsScanned(t, ledger, b, cutoff, model, scope, from, to, s);
    }
    forall s, u | s in f && u in f && f[s] == f[u]
      ensures s == u
    {
      SlotIsScanned(t, ledger, b, cutoff, model, scope, from, to, s);
      SlotIsScanned(t, ledger, b, cutoff, model, scope, from, to, u);
      OneBucketCounts(ledger[s.id].startedAt, from, to);
    }
    forall i | i in c
      ensures exists s :: s in f && f[s] == i
    {
      var s := ScannedHasSlot(t, ledger, b, cutoff, model, scope, from, to, i);
      assert s in f && f[s] == i;
    }
    TotalOfRenamed(f, a, c);
  }

  /** In a window that starts at or after every prune cutoff, each total of the mixed minute and
    * hour query is the total of a scan of the rows that were inside the retained period when
    * they were applied. */
  lemma WindowIsScan(t: map<BucketKey, Row>, ledger: map<nat, RequestRecord>, b: RequestBooks, cutoff: Option<int>,
                     res: RoutingRollup, model: string, scope: Scope, from: int, to: int)
    requires Counts(t, ledger, b, cutoff) && from <= to <= I64_MAX && NotPruned(cutoff, from)
    requires Accounts(res, WindowEntries(t, model, from, to))
    ensures res.Of(scope) == Total(Scan(ledger, b.bucketed, Some(model), scope, from, to))
  {
    hide Total, Scan, WindowEntries, AmountsIn, RowsOf;
    WindowRows(t, model, scope, from, to);
    RowsAreContributions(t, b.buckets, WindowKeys(t, Some(model), scope, from, to));
    SlotsRename(t, ledger, b, cutoff, Some(model), scope, from, to);
  }

  // ---------------------------------------------------------------- conservation

  ghost function Detailed<C>(m: map<C, Entry<Scope>>): map<C, Row> {
    map c | c in m && !m[c].key.ModelScope? :: m[c].amount
  }

  ghost function Targeted<C>(m: map<C, Entry<Scope>>): map<C, Row> {
    map c | c in m && m[c].key.TargetScope? :: m[c].amount
  }

  ghost function ByRoute<C>(m: map<C, Entry<Scope>>): map<C, Entry<Route>> {
    map c | c in m && m[c].key.TargetScope? :: Entry(m[c].key.route, m[c].amount)
  }

  lemma ByRouteAt<C>(m: map<C, Entry<Scope>>, r: Route)
    ensures AmountsIn(ByRoute(m), {r}) == AmountsIn(m, {TargetScope(r)})
  {
  }

  lemma TargetsIndex<C>(res: RoutingRollup, m: map<C, Entry<Scope>>)
    requires Accounts(res, m)
    ensures Indexes(res.targets, ByRoute(m))
  {
    hide Total, AmountsIn;
    forall r | r in res.targets
      ensures res.targets[r] == Total(AmountsIn(ByRoute(m), {r}))
    {
      ByRouteAt(m, r);
      assert res.Of(TargetScope(r)) == res.targets[r];
    }
  }

  lemma AllTargeted<C>(res: RoutingRollup, m: map<C, Entry<Scope>>)
    requires Accounts(res, m)
    ensures AmountsIn(ByRoute(m), res.targets.Keys) == Targeted(m)
  {
    hide Total;
  }

  lemma AllRows<K>(t: map<K, Row>)
    ensures RowsOf(t, t.Keys) == t
  {
  }

  lemma TargetsAddUp<C>(res: RoutingRollup, m: map<C, Entry<Scope>>)
    requires Accounts(res, m)
    ensures Total(res.targets) == Total(Targeted(m))
  {
    TargetsIndex(res, m);
    AllTargeted(res, m);
    AllRows(res.targets);
    hide *;
    RowsAreContributions(res.targets, ByRoute(m), res.targets.Keys);
  }

  /** The targets and the unattributed part of a result add up to everything counted in detail. */
  lemma DetailAddsUp<C>(res: RoutingRollup, m: map<C, Entry<Scope>>)
    requires Accounts(res, m)
    ensures Plus(Total(res.targets), res.unattributed) == Total(Detailed(m))
  {
    TargetsAddUp(res, m);
    hide Total;
    var u := AmountsIn(m, {UnattributedScope});
    assert res.Of(UnattributedScope) == Total(u);
    TotalOfUnion(Targeted(m), u);
    assert (Targeted(m) + u).Keys == Detailed(m).Keys;
    assert Targeted(m) + u == Detailed(m);
  }

  /** Each contribution to the model's row of a bucket has a twin in one detailed row of the
    * same bucket. */
  lemma TwinsRename(t: map<BucketKey, Row>, ledger: map<nat, RequestRecord>, b: RequestBooks, cutoff: Option<int>,
                    model: string, from: int, to: int, broad: set<BucketKey>, narrow: set<BucketKey>)
    requires Counts(t, ledger, b, cutoff) && broad == WindowKeys(t, Some(model), ModelScope, from, to)
    requires narrow == NarrowKeys(t, model, from, to)
    ensures Total(AmountsIn(b.buckets, broad)) == Total(AmountsIn(b.buckets, narrow))
  {
    var a, c := AmountsIn(b.buckets, broad), AmountsIn(b.buckets, narrow);
    var f := map s | s in a :: Slot(s.id, s.grain, true);
    hide Total, Counts, AmountsIn, WindowKeys, NarrowKeys;
    forall s | s in a
      ensures !s.detailed && f[s] in c && c[f[s]] == a[s]
    {
      BroadHasTwin(t, ledger, b, cutoff, model, from, to, s);
    }
    forall s | s in c
      ensures exists u :: u in f && f[u] == s
    {
      NarrowHasTwin(t, ledger, b, cutoff, model, from, to, s);
      var u := Slot(s.id, s.grain, false);
      assert u in f && f[u] == s;
    }
    TotalOfRenamed(f, a, c);
  }

  ghost function NarrowKeys(t: map<BucketKey, Row>, model: string, from: int, to: int): set<BucketKey> {
    set k | k in t && k.model == model && !k.scope.ModelScope? && InWindow(k.grain, k.bucket, from, to)
  }

  lemma BroadHasTwin(t: map<BucketKey, Row>, ledger: map<nat, RequestRecord>, b: RequestBooks, cutoff: Option<int>,
                     model: string, from: int, to: int, s: Slot)
    requires Counts(t, ledger, b, cutoff) && s in AmountsIn(b.buckets, WindowKeys(t, Some(model), ModelScope, from, to))
    ensures var c, u := AmountsIn(b.buckets, NarrowKeys(t, model, from, to)), Slot(s.id, s.grain, true);
            !s.detailed && u in c && c[u] == AmountsIn(b.buckets, WindowKeys(t, Some(model), ModelScope, from, to))[s]
  {
    hide Total, InWindow, FloorTo, RequestDelta, Target;
    SlotScope(ledger[s.id], s.detailed, ModelScope);
    var u := Slot(s.id, s.grain, true);
    assert s == Slot(s.id, s.grain, false);
    assert u in b.buckets && b.buckets[u].key in t;
  }

  lemma NarrowHasTwin(t: map<BucketKey, Row>, ledger: map<nat, RequestRecord>, b: RequestBooks, cutoff: Option<int>,
                      model: string, from: int, to: int, s: Slot)
    requires Counts(t, ledger, b, cutoff) && s in AmountsIn(b.buckets, NarrowKeys(t, model, from, to))
    ensures s.detailed && Slot(s.id, s.grain, false)
                           in AmountsIn(b.buckets, WindowKeys(t, Some(model), ModelScope, from, to))
  {
    hide Total, InWindow, FloorTo, RequestDelta, Target;
    SlotScope(ledger[s.id], s.detailed, b.buckets[s].key.scope);
    var u := Slot(s.id, s.grain, false);
    assert s == Slot(s.id, s.grain, true);
    assert u in b.buckets && b.buckets[u].key in t;
  }

  lemma NarrowRows(t: map<BucketKey, Row>, model: string, from: int, to: int)
    ensures Detailed(WindowEntries(t, model, from, to))
            == RowsOf(t, NarrowKeys(t, model, from, to))
  {
    hide InWindow;
  }

  /** In every window, whatever has been pruned, the total of a model is the sum of its targets
    * and its unattributed part. */
  lemma WindowConserves(t: map<BucketKey, Row>, ledger: map<nat, RequestRecord>, b: RequestBooks, cutoff: Option<int>,
                        res: RoutingRollup, model: string, from: int, to: int)
    requires Counts(t, ledger, b, cutoff) && Accounts(res, WindowEntries(t, model, from, to))
    ensures res.total == Plus(Total(res.targets), res.unattributed)
  {
    var broad := WindowKeys(t, Some(model), ModelScope, from, to);
    var narrow := NarrowKeys(t, model, from, to);
    DetailAddsUp(res, WindowEntries(t, model, from, to));
    NarrowRows(t, model, from, to);
    WindowRows(t, model, ModelScope, from, to);
    hide Total, WindowEntries, AmountsIn, RowsOf, Detailed;
    RowsAreContributions(t, b.buckets, broad);
    RowsAreContributions(t, b.buckets, narrow);
    TwinsRename(t, ledger, b, cutoff, model, from, to, broad, narrow);
    assert res.Of(ModelScope) == res.total;
  }

  // ---------------------------------------------------------------- all-time totals

  predicate Feeds(r: RequestRecord, k: AllKey) { AllKeyOf(r, false) == k || AllKeyOf(r, true) == k }

  ghost function AllTimeScan(ledger: map<nat, RequestRecord>, ids: set<nat>, k: AllKey): map<nat, Row> {
    map i | i in ledger && i in ids && Feeds(ledger[i], k) :: RequestDelta(ledger[i])
  }

  lemma AllSlotIsScanned(t: map<AllKey, Row>, ledger: map<nat, RequestRecord>, applied: set<nat>,
                         m: map<AllSlot, Entry<AllKey>>, k: AllKey, s: AllSlot)
    requires AllRecorded(ledger, applied, m) && s in AmountsIn(m, {k})
    ensures s.detailed == !k.scope.ModelScope? && s.id in AllTimeScan(ledger, applied, k)
    ensures AllTimeScan(ledger, applied, k)[s.id] == AmountsIn(m, {k})[s]
  {
    hide RequestDelta, Target;
    SlotScope(ledger[s.id], s.detailed, k.scope);
  }

  lemma ScannedHasAllSlot(ledger: map<nat, RequestRecord>, applied: set<nat>, m: map<AllSlot, Entry<AllKey>>, k: AllKey,
                          id: nat)
    requires AllRecorded(ledger, applied, m) && id in AllTimeScan(ledger, applied, k)
    ensures AllSlot(id, !k.scope.ModelScope?) in AmountsIn(m, {k})
  {
    hide RequestDelta, Target;
    var s := AllSlot(id, !k.scope.ModelScope?);
    assert s in m;
  }

  /** A row of the all-time table is the total of a scan of the applied requests. */
  lemma AllTimeIsScan(t: map<AllKey, Row>, ledger: map<nat, RequestRecord>, applied: set<nat>,
                      m: map<AllSlot, Entry<AllKey>>, k: AllKey)
    requires Indexes(t, m) && AllRecorded(ledger, applied, m)
    ensures Get(t, k) == Total(AllTimeScan(ledger, applied, k))
  {
    hide Total, Indexes, AllRecorded, AmountsIn, AllTimeScan;
    GetIsTotal(t, m, k);
    var a, c := AmountsIn(m, {k}), AllTimeScan(ledger, applied, k);
    var f := map s | s in a :: s.id;
    forall s | s in a
      ensures s.detailed == !k.scope.ModelScope? && f[s] in c && c[f[s]] == a[s]
    {
      AllSlotIsScanned(t, ledger, applied, m, k, s);
    }
    forall i | i in c
      ensures exists s :: s in f && f[s] == i
    {
      ScannedHasAllSlot(ledger, applied, m, k, i);
      var s := AllSlot(i, !k.scope.ModelScope?);
      assert s in f && f[s] == i;
    }
    TotalOfRenamed(f, a, c);
  }

  // ---------------------------------------------------------------- attempts

  predicate AttemptInWindow(k: AttemptBucketKey, from: int, to: int) { InWindow(k.grain, k.bucket, from, to) }

  ghost function AttemptWindowKeys(t: map<AttemptBucketKey, Row>, key: AttemptKey, from: int, to: int)
    : set<AttemptBucketKey>
  {
    set k | k in t && k.key == key && AttemptInWindow(k, from, to)
  }

  ghost function AttemptScan(ledger: map<nat, AttemptRecord>, ids: set<nat>, key: AttemptKey, from: int, to: int)
    : map<nat, Row>
  {
    map i | i in ledger && i in ids && AttemptKeyOf(ledger[i]) == key && StartsIn(ledger[i].startedAt, from, to)
      :: AttemptDelta(ledger[i])
  }

  lemma AttemptKeysAreRows(t: map<AttemptBucketKey, Row>, key: AttemptKey, from: int, to: int)
    ensures AttemptWindowKeys(t, key, from, to) <= t.Keys
  {
  }

  lemma AttemptSlotIsScanned(t: map<AttemptBucketKey, Row>, ledger: map<nat, AttemptRecord>, applied: set<nat>,
                             m: map<AttemptSlot, Entry<AttemptBucketKey>>, bucketed: set<nat>, cutoff: Option<int>,
                             key: AttemptKey, from: int, to: int, s: AttemptSlot)
    requires AttemptBucketsKept(ledger, t, applied, m, bucketed, cutoff) && from <= to <= I64_MAX
    requires s in AmountsIn(m, AttemptWindowKeys(t, key, from, to))
    ensures s in m && s.id in ledger && s.id in AttemptScan(ledger, bucketed, key, from, to)
    ensures AmountsIn(m, AttemptWindowKeys(t, key, from, to))[s] == AttemptScan(ledger, bucketed, key, from, to)[s.id]
    ensures InWindow(s.grain, FloorTo(ledger[s.id].startedAt, s.grain.Unit()), from, to)
  {
    hide Indexes, InWindow, FloorTo, AttemptDelta;
    OneBucketCounts(ledger[s.id].startedAt, from, to);
  }

  lemma ScannedAttemptHasSlot(t: map<AttemptBucketKey, Row>, ledger: map<nat, AttemptRecord>, applied: set<nat>,
                              m: map<AttemptSlot, Entry<AttemptBucketKey>>, bucketed: set<nat>, cutoff: Option<int>,
                              key: AttemptKey, from: int, to: int, id: nat) returns (s: AttemptSlot)
    requires AttemptBucketsKept(ledger, t, applied, m, bucketed, cutoff)
    requires from <= to <= I64_MAX && NotPruned(cutoff, from) && id in AttemptScan(ledger, bucketed, key, from, to)
    ensures s.id == id && s in AmountsIn(m, AttemptWindowKeys(t, key, from, to))
  {
    hide InWindow, FloorTo, AttemptDelta, Total;
    var at := ledger[id].startedAt;
    OneBucketCounts(at, from, to);
    var g := if InWindow(Minute, FloorTo(at, MINUTE_MS), from, to) then Minute else Hour;
    WindowStartsAtFrom(g, FloorTo(at, g.Unit()), from, to);
    s := AttemptSlot(id, g);
    assert NotPruned(cutoff, FloorTo(at, g.Unit()));
    assert s in m && m[s].key in t;
  }

  lemma SameAttemptSameSlot(t: map<AttemptBucketKey, Row>, ledger: map<nat, AttemptRecord>, applied: set<nat>,
                            m: map<AttemptSlot, Entry<AttemptBucketKey>>, bucketed: set<nat>, cutoff: Option<int>,
                            key: AttemptKey, from: int, to: int, s: AttemptSlot, u: AttemptSlot)
    requires AttemptBucketsKept(ledger, t, applied, m, bucketed, cutoff) && from <= to <= I64_MAX && s.id == u.id
    requires s in AmountsIn(m, AttemptWindowKeys(t, key, from, to))
             && u in AmountsIn(m, AttemptWindowKeys(t, key, from, to))
    ensures s == u
  {
    hide InWindow, FloorTo, AttemptScan, AttemptWindowKeys, AttemptBucketsKept, AmountsIn;
    AttemptSlotIsScanned(t, ledger, applied, m, bucketed, cutoff, key, from, to, s);
    AttemptSlotIsScanned(t, ledger, applied, m, bucketed, cutoff, key, from, to, u);
    OneBucketCounts(ledger[s.id].startedAt, from, to);
  }

  lemma AttemptSlotsRename(t: map<AttemptBucketKey, Row>, ledger: map<nat, AttemptRecord>, applied: set<nat>,
                           m: map<AttemptSlot, Entry<AttemptBucketKey>>, bucketed: set<nat>, cutoff: Option<int>,
                           key: AttemptKey, from: int, to: int, a: map<AttemptSlot, Row>, c: map<nat, Row>)
    returns (f: map<AttemptSlot, nat>)
    requires AttemptBucketsKept(ledger, t, applied, m, bucketed, cutoff)
    requires from <= to <= I64_MAX && NotPruned(cutoff, from)
    requires a == AmountsIn(m, AttemptWindowKeys(t, key, from, to)) && c == AttemptScan(ledger, bucketed, key, from, to)
    ensures Renames(f, a, c)
  {
    f := map s | s in a :: s.id;
    hide InWindow, FloorTo, Total, AttemptScan, AttemptWindowKeys, AttemptBucketsKept, AmountsIn, NotPruned;
    forall s | s in a
      ensures s.id in c && c[s.id] == a[s]
    {
      AttemptSlotIsScanned(t, ledger, applied, m, bucketed, cutoff, key, from, to, s);
    }
    forall s, u | s in a && u in a && s.id == u.id
      ensures s == u
    {
      SameAttemptSameSlot(t, ledger, applied, m, bucketed, cutoff, key, from, to, s, u);
    }
    forall i | i in c
      ensures exists s :: s in f && f[s] == i
    {
      var s := ScannedAttemptHasSlot(t, ledger, applied, m, bucketed, cutoff, key, from, to, i);
      assert s in f && f[s] == i;
    }
    RenamingById(f, a, c);
  }

  lemma RenamingById(f: map<AttemptSlot, nat>, a: map<AttemptSlot, Row>, c: map<nat, Row>)
    requires f == map s | s in a :: s.id
    requires forall s :: s in a ==> s.id in c && c[s.id] == a[s]
    requires forall s, u :: s in a && u in a && s.id == u.id ==> s == u
    requires forall i :: i in c ==> exists s :: s in f && f[s] == i
    ensures Renames(f, a, c)
  {
  }

  /** The attempts of one backend and model in a window, read from mixed buckets, are the total
    * of a scan of the attempts that were inside the retained period when they were applied. */
  lemma AttemptWindowIsScan(t: map<AttemptBucketKey, Row>, ledger: map<nat, AttemptRecord>, applied: set<nat>,
                            m: map<AttemptSlot, Entry<AttemptBucketKey>>, bucketed: set<nat>, cutoff: Option<int>,
                            key: AttemptKey, from: int, to: int)
    requires AttemptBucketsKept(ledger, t, applied, m, bucketed, cutoff)
    requires from <= to <= I64_MAX && NotPruned(cutoff, from)
    ensures Total(RowsOf(t, AttemptWindowKeys(t, key, from, to))) == Total(AttemptScan(ledger, bucketed, key, from, to))
  {
    hide InWindow, FloorTo, Total, AttemptScan, AttemptWindowKeys, AmountsIn, RowsOf, Indexes, NotPruned;
    AttemptKeysAreRows(t, key, from, to);
    RowsAreContributions(t, m, AttemptWindowKeys(t, key, from, to));
    var a, c := AmountsIn(m, AttemptWindowKeys(t, key, from, to)), AttemptScan(ledger, bucketed, key, from, to);
    var f := AttemptSlotsRename(t, ledger, applied, m, bucketed, cutoff, key, from, to, a, c);
    TotalOfRenamed(f, a, c);
  }
}
