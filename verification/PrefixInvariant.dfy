/** What every step of the prefix index keeps. */
module PrefixInvariant {
  import opened Prelude
  import opened WarmEpochs
  import opened PrefixIndex

  /** A reference names a live lease whose path holds the key within its reach. */
  predicate Refers(leases: map<nat, Lease>, key: PrefixKey, id: nat) {
    id in leases && key in leases[id].path.checkpoints && key.ordinal <= Reach(leases[id].epochs)
  }

  ghost predicate ListKept(leases: map<nat, Lease>, key: PrefixKey, ids: seq<nat>, max: nat) {
    ids != [] && |ids| <= max && Distinct(ids) && forall id :: id in ids ==> Refers(leases, key, id)
  }

  ghost predicate RefsKept(prefix: map<PrefixKey, seq<nat>>, leases: map<nat, Lease>, max: nat) {
    forall key :: key in prefix ==> ListKept(leases, key, prefix[key], max)
  }

  ghost predicate LeaseKept(expiry: set<(int, nat)>, id: nat, lease: Lease) {
    lease.epochs != [] && Front(lease.epochs) && Expiry(lease.epochs).Some?
        && (Expiry(lease.epochs).value, id) in expiry
  }

  ghost predicate LeasesKept(leases: map<nat, Lease>, expiry: set<(int, nat)>) {
    forall id :: id in leases ==> LeaseKept(expiry, id, leases[id])
  }

  ghost predicate Kept(s: Index, c: Config) {
    && RefsKept(s.prefix, s.leases, c.maxCandidates) && LeasesKept(s.leases, s.expiry) && |s.leases| <= c.maxLeases
  }

  /** No candidate is missing: every lease is listed at all its keys within its reach. */
  ghost predicate Complete(s: Index) {
    forall id, key :: Refers(s.leases, key, id) ==> id in Ids(s.prefix, key)
  }

  // ---------------------------------------------------------------- adding references

  lemma DistinctGrows(ids: seq<nat>, id: nat)
    requires Distinct(ids) && id !in ids
    ensures Distinct(ids + [id])
  {
  }

  lemma DistinctSplits(ids: seq<nat>)
    requires ids != [] && Distinct(ids)
    ensures Distinct(ids[..|ids| - 1]) && ids[|ids| - 1] !in ids[..|ids| - 1]
  {
    var front := ids[..|ids| - 1];
    assert forall i :: 0 <= i < |front| ==> front[i] == ids[i];
  }

  lemma DistinctShrinks(ids: seq<nat>, i: nat)
    requires Distinct(ids) && i < |ids|
    ensures Distinct(ids[..i] + ids[i + 1..]) && forall x :: x in ids[..i] + ids[i + 1..] ==> x in ids
  {
    var rest := ids[..i] + ids[i + 1..];
    assert forall j :: 0 <= j < |rest| ==> rest[j] == ids[if j < i then j else j + 1];
  }

  lemma EnlistedIs(known: seq<nat>, leases: map<nat, Lease>, ordinal: nat, id: nat, max: nat, now: int)
    requires Distinct(known) && |known| <= max && max > 0
    ensures var ids := Enlisted(known, leases, ordinal, id, max, now);
            ids != [] && |ids| <= max && Distinct(ids) && forall x :: x in ids ==> x in known || x == id
  {
    var ids := if id in known then known else known + [id];
    if id !in known {
      DistinctGrows(known, id);
    }
    if |ids| > max {
      var i := Weakest(ids, leases, ordinal, now);
      DistinctShrinks(ids, i);
    }
    hide Weakest, Distinct;
  }

  lemma WithRefKeeps(prefix: map<PrefixKey, seq<nat>>, leases: map<nat, Lease>, key: PrefixKey, id: nat, max: nat,
                     now: int)
    requires RefsKept(prefix, leases, max) && Refers(leases, key, id) && max > 0
    ensures RefsKept(WithRef(prefix, leases, key, id, max, now), leases, max)
  {
    hide Refers, Enlisted, Distinct;
    var known := Ids(prefix, key);
    ListAt(prefix, leases, max, key);
    NoneDistinct();
    EnlistedIs(known, leases, key.ordinal, id, max, now);
    var after := WithRef(prefix, leases, key, id, max, now);
    assert ListKept(leases, key, after[key], max);
  }

  lemma NoneDistinct()
    ensures Distinct<nat>([])
  {
  }

  lemma {:induction false} WithRefsKeeps(prefix: map<PrefixKey, seq<nat>>, leases: map<nat, Lease>,
                                         keys: seq<PrefixKey>,
                                         id: nat, max: nat, now: int)
    requires RefsKept(prefix, leases, max) && max > 0
    requires forall key :: key in keys ==> Refers(leases, key, id)
    ensures RefsKept(WithRefs(prefix, leases, keys, id, max, now), leases, max)
  {
    hide RefsKept, WithRef, Refers;
    if keys != [] {
      WithRefsKeeps(prefix, leases, keys[..|keys| - 1], id, max, now);
      WithRefKeeps(WithRefs(prefix, leases, keys[..|keys| - 1], id, max, now), leases, keys[|keys| - 1], id, max, now);
    }
  }

  predicate OrdinalsAscend(keys: seq<PrefixKey>) {
    forall i, j :: 0 <= i < j < |keys| ==> keys[i].ordinal < keys[j].ordinal
  }

  lemma {:induction false} ReachedIs(keys: seq<PrefixKey>, through: nat)
    ensures forall key :: key in Reached(keys, through) ==> key in keys && key.ordinal <= through
    ensures OrdinalsAscend(keys) ==> forall key :: key in keys && key.ordinal <= through ==>
              key in Reached(keys, through)
  {
    if keys != [] {
      ReachedIs(keys[1..], through);
      assert keys == [keys[0]] + keys[1..];
      if keys[0].ordinal > through {
        assert OrdinalsAscend(keys) ==> forall key :: key in keys ==> key.ordinal >= keys[0].ordinal;
      }
    }
  }

  // ---------------------------------------------------------------- accepting an epoch

  lemma InsertReaches(epochs: seq<Epoch>, e: Epoch)
    requires Front(epochs) && Insert(epochs, e).Some?
    ensures Reach(Insert(epochs, e).value) == Max(Reach(epochs), e.through)
  {
    var after := Insert(epochs, e).value;
    InsertIsFront(epochs, e);
    hide Compact, Without, Insert, AnyDominates, Reach, Front;
    ReachIs(epochs);
    ReachIs(after);
    if epochs != [] {
      var x :| x in epochs && x.through == Reach(epochs);
      assert x in after || Dominates(e, x);
    }
    assert e in after;
    var y :| y in after && y.through == Reach(after);
    assert epochs == [] ==> Reach(epochs) == 0 by { NoReach(); }
  }

  lemma NoReach()
    ensures Reach([]) == 0
  {
  }

  /** Replacing a lease by one with the same path that reaches at least as far keeps references. */
  lemma LongerReachKeeps(prefix: map<PrefixKey, seq<nat>>, leases: map<nat, Lease>, id: nat, lease: Lease, max: nat)
    requires RefsKept(prefix, leases, max)
    requires id in leases ==> lease.path == leases[id].path && Reach(leases[id].epochs) <= Reach(lease.epochs)
    ensures RefsKept(prefix, leases[id := lease], max)
  {
    hide Distinct, Reach;
    forall key | key in prefix
      ensures ListKept(leases[id := lease], key, prefix[key], max)
    {
      assert ListKept(leases, key, prefix[key], max);
    }
  }

  lemma AcceptedKeepsRefs(s: Index, c: Config, id: nat, lease: Lease, e: Epoch, now: int)
    requires RefsKept(s.prefix, s.leases, c.maxCandidates) && ValidConfig(c)
    requires Front(lease.epochs) && Insert(lease.epochs, e).Some? && Insert(lease.epochs, e).value != []
    requires id in s.leases ==> lease == s.leases[id]
    ensures var a := Accepted(s, c, id, lease, Insert(lease.epochs, e).value, e, now);
            RefsKept(a.prefix, a.leases, c.maxCandidates)
  {
    var epochs := Insert(lease.epochs, e).value;
    var updated := lease.(epochs := epochs, version := BumpVersion(lease.version));
    InsertReaches(lease.epochs, e);
    hide RefsKept, Reach, Insert, Front, WithRefs;
    LongerReachKeeps(s.prefix, s.leases, id, updated, c.maxCandidates);
    var keys := Reached(lease.path.checkpoints, e.through);
    ReachedIs(lease.path.checkpoints, e.through);
    var leases := s.leases[id := updated];
    assert forall key :: key in keys ==> Refers(leases, key, id);
    WithRefsKeeps(s.prefix, leases, keys, id, c.maxCandidates, now);
  }

  lemma AcceptedKeepsLeases(s: Index, c: Config, id: nat, lease: Lease, e: Epoch, now: int)
    requires LeasesKept(s.leases, s.expiry) && Front(lease.epochs)
    requires Insert(lease.epochs, e).Some? && Insert(lease.epochs, e).value != []
    requires id in s.leases ==> lease == s.leases[id]
    ensures var a := Accepted(s, c, id, lease, Insert(lease.epochs, e).value, e, now);
            LeasesKept(a.leases, a.expiry)
  {
    var epochs := Insert(lease.epochs, e).value;
    InsertCovers(lease.epochs, e, 0, 0);
    ExpiryIs(epochs);
    hide Insert, Front, WithRefs, Expiry;
  }

  lemma NotedKeeps(s: Index, c: Config, id: nat, domain: CacheDomain, path: Path, e: Epoch, now: int)
    requires Kept(s, c) && ValidConfig(c)
    ensures var n := Noted(s, c, id, domain, path, e, now);
            && RefsKept(n.prefix, n.leases, c.maxCandidates) && LeasesKept(n.leases, n.expiry)
            && |n.leases| <= c.maxLeases + 1
  {
    var lease := LeaseFor(s, id, domain, path);
    hide RefsKept, Insert, Accepted;
    assert Front(lease.epochs);
    if Insert(lease.epochs, e).Some? && Insert(lease.epochs, e).value != [] {
      AcceptedKeepsRefs(s, c, id, lease, e, now);
      AcceptedKeepsLeases(s, c, id, lease, e, now);
      AcceptedLeases(s, c, id, lease, Insert(lease.epochs, e).value, e, now);
    }
  }

  lemma AcceptedLeases(s: Index, c: Config, id: nat, lease: Lease, epochs: seq<Epoch>, e: Epoch, now: int)
    requires epochs != []
    ensures Accepted(s, c, id, lease, epochs, e, now).leases
            == s.leases[id := lease.(epochs := epochs, version := BumpVersion(lease.version))]
    ensures |Accepted(s, c, id, lease, epochs, e, now).leases| <= |s.leases| + 1
  {
    hide WithRefs, Expiry, Reached;
  }

  // ---------------------------------------------------------------- removing references

  lemma {:induction false} DroppingIs(ids: seq<nat>, id: nat)
    ensures forall x :: x in Dropping(ids, id) <==> x in ids && x != id
    ensures |Dropping(ids, id)| <= |ids| && (Distinct(ids) ==> Distinct(Dropping(ids, id)))
    ensures id !in ids ==> Dropping(ids, id) == ids
  {
    if ids != [] {
      var front, last := ids[..|ids| - 1], ids[|ids| - 1];
      DroppingIs(front, id);
      assert ids == front + [last];
      if Distinct(ids) {
        DistinctSplits(ids);
        hide Distinct;
        DistinctGrows(Dropping(front, id), last);
        assert Dropping(ids, id) == Dropping(front, id) || Dropping(ids, id) == Dropping(front, id) + [last];
      }
    }
  }

  lemma DroppingTwice(ids: seq<nat>, id: nat)
    ensures Dropping(Dropping(ids, id), id) == Dropping(ids, id)
  {
    DroppingIs(ids, id);
    DroppingIs(Dropping(ids, id), id);
  }

  ghost predicate NoEmptyLists(prefix: map<PrefixKey, seq<nat>>) { forall key :: key in prefix ==> prefix[key] != [] }

  lemma {:induction false} WithoutRefsIs(prefix: map<PrefixKey, seq<nat>>, keys: seq<PrefixKey>, id: nat,
                                         key: PrefixKey)
    requires NoEmptyLists(prefix)
    ensures NoEmptyLists(WithoutRefs(prefix, keys, id))
    ensures Ids(WithoutRefs(prefix, keys, id), key)
            == if key in keys then Dropping(Ids(prefix, key), id) else Ids(prefix, key)
  {
    if keys != [] {
      var front, last := keys[..|keys| - 1], keys[|keys| - 1];
      WithoutRefsIs(prefix, front, id, key);
      assert keys == front + [last];
      DroppingTwice(Ids(prefix, key), id);
      assert Dropping([], id) == [];
      hide Dropping;
      assert WithoutRefs(prefix, keys, id) == WithoutRef(WithoutRefs(prefix, front, id), last, id);
    }
  }

  lemma SameListSameMap(a: map<PrefixKey, seq<nat>>, b: map<PrefixKey, seq<nat>>)
    requires NoEmptyLists(a) && NoEmptyLists(b) && forall key :: Ids(a, key) == Ids(b, key)
    ensures a == b
  {
    assert forall key :: key in a ==> Ids(a, key) == a[key];
    assert forall key :: key in b ==> Ids(b, key) == b[key];
    assert forall key :: key in a <==> Ids(a, key) != [];
    assert forall key :: key in b <==> Ids(b, key) != [];
  }

  lemma ListAt(prefix: map<PrefixKey, seq<nat>>, leases: map<nat, Lease>, max: nat, key: PrefixKey)
    requires RefsKept(prefix, leases, max)
    ensures Ids(prefix, key) != [] ==> ListKept(leases, key, Ids(prefix, key), max)
  {
  }

  lemma NoEmptyKept(prefix: map<PrefixKey, seq<nat>>, leases: map<nat, Lease>, max: nat)
    requires RefsKept(prefix, leases, max)
    ensures NoEmptyLists(prefix)
  {
    forall key | key in prefix
      ensures prefix[key] != []
    {
      assert ListKept(leases, key, prefix[key], max);
    }
  }

  lemma RemoveLeaseKeeps(s: Index, max: nat, id: nat)
    requires RefsKept(s.prefix, s.leases, max) && LeasesKept(s.leases, s.expiry) && id in s.leases
    ensures var r := RemoveLease(s, id);
            RefsKept(r.prefix, r.leases, max) && LeasesKept(r.leases, r.expiry) && r.leases == s.leases - {id}
  {
    var r := RemoveLease(s, id);
    NoEmptyKept(s.prefix, s.leases, max);
    hide WithoutRefs, Expiry, Reach;
    forall key | key in r.prefix
      ensures ListKept(r.leases, key, r.prefix[key], max)
    {
      WithoutRefsIs(s.prefix, s.leases[id].path.checkpoints, id, key);
      ListAt(s.prefix, s.leases, max, key);
      DroppingIs(Ids(s.prefix, key), id);
      assert r.prefix[key] == Ids(r.prefix, key) != [];
    }
  }

  // ---------------------------------------------------------------- observing

  /** Leaving the expiry loop by evicting keeps the index and its size bound. */
  lemma {:induction false} EvictKeeps(s: Index, c: Config)
    requires RefsKept(s.prefix, s.leases, c.maxCandidates) && LeasesKept(s.leases, s.expiry)
    requires !Stuck(Evict(s, c.maxLeases), c.maxLeases)
    ensures Kept(Evict(s, c.maxLeases), c)
    decreases |s.leases|
  {
    hide RefsKept, RemoveLease;
    if |s.leases| > c.maxLeases {
      SomeEntry(s);
      var id := First(s.expiry).1;
      if id in s.leases {
        RemoveLeaseKeeps(s, c.maxCandidates, id);
        FewerLeases(s.leases, id);
        EvictKeeps(RemoveLease(s, id), c);
      }
    }
  }

  lemma SomeEntry(s: Index)
    requires LeasesKept(s.leases, s.expiry) && |s.leases| > 0
    ensures s.expiry != {}
  {
    var id :| id in s.leases;
    assert LeaseKept(s.expiry, id, s.leases[id]);
  }

  /** Every observation that returns keeps the index. */
  lemma ObserveKeeps(s: Index, c: Config, id: nat, domain: CacheDomain, path: Path, e: Epoch, now: int)
    requires Kept(s, c) && ValidConfig(c)
    requires !Stuck(Observe(s, c, id, domain, path, e, now), c.maxLeases)
    ensures Kept(Observe(s, c, id, domain, path, e, now), c)
  {
    hide Kept, Noted, Evict, RefsKept, LeasesKept, Stuck;
    if ValidEvidence(path, e) && e.expires > now {
      NotedKeeps(s, c, id, domain, path, e, now);
      EvictKeeps(Noted(s, c, id, domain, path, e, now), c);
    }
  }

  /** The eviction loop, from an index that held its bound before the observation, ends exactly
    * when it has nothing to do or its first entry names a live lease. */
  lemma EvictionEnds(s: Index, c: Config, id: nat, domain: CacheDomain, path: Path, e: Epoch, now: int)
    requires Kept(s, c) && ValidConfig(c)
    ensures var n := Noted(s, c, id, domain, path, e, now);
            !Stuck(Evict(n, c.maxLeases), c.maxLeases) <==>
            (|n.leases| <= c.maxLeases || (n.expiry != {} && First(n.expiry).1 in n.leases))
  {
    hide RefsKept, LeasesKept, RemoveLease, Noted;
    NotedKeeps(s, c, id, domain, path, e, now);
    var n := Noted(s, c, id, domain, path, e, now);
    if |n.leases| > c.maxLeases {
      SomeEntry(n);
      var first := First(n.expiry).1;
      if first in n.leases {
        RemoveLeaseKeeps(n, c.maxCandidates, first);
        FewerLeases(n.leases, first);
      }
    }
  }

  lemma RemovedLease(s: Index, id: nat)
    ensures RemoveLease(s, id).leases == if id in s.leases then s.leases - {id} else s.leases
  {
    hide Expiry, WithoutRefs;
    assert id !in s.leases ==> RemoveLease(s, id) == s;
  }

  lemma {:induction false} EvictedOnly(s: Index, max: nat)
    ensures forall id :: id in Evict(s, max).leases ==> id in s.leases && Evict(s, max).leases[id] == s.leases[id]
    decreases |s.leases|
  {
    hide RemoveLease;
    if |s.leases| > max && s.expiry != {} && First(s.expiry).1 in s.leases {
      var id := First(s.expiry).1;
      FewerLeases(s.leases, id);
      RemovedLease(s, id);
      EvictedOnly(RemoveLease(s, id), max);
    }
  }
}
