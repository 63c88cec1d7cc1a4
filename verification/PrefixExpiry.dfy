/** Expiry of the whole index, in whatever order its leases are visited. */
module PrefixExpiry {
  import opened Prelude
  import opened WarmEpochs
  import opened PrefixIndex
  import opened PrefixInvariant

  /** Whether the lease survives, and with which epochs. */
  predicate Survives(lease: Lease, now: int) { Unexpired(lease.epochs, now) != [] }

  /** Whether a reference stays once the leases in `done` have been visited. */
  predicate Stays(s: Index, now: int, done: set<nat>, key: PrefixKey, id: nat) {
    id !in done || id !in s.leases
    || (Survives(s.leases[id], now) && key.ordinal <= Reach(Refreshed(s.leases[id], now).epochs))
  }

  function Staying(ids: seq<nat>, s: Index, now: int, done: set<nat>, key: PrefixKey): seq<nat> {
    if ids == [] then []
    else
      var last := ids[|ids| - 1];
      Staying(ids[..|ids| - 1], s, now, done, key) + if Stays(s, now, done, key, last) then [last] else []
  }

  function RefreshedLeases(s: Index, now: int, done: set<nat>): map<nat, Lease> {
    map id | id in s.leases && (id !in done || Survives(s.leases[id], now))
      :: if id in done then Refreshed(s.leases[id], now) else s.leases[id]
  }

  /** The index once the leases in `done` have been visited. The expiry order is never touched:
    * a surviving lease keeps its latest expiry, and a removed one leaves its entry behind. */
  function Visited(s: Index, now: int, done: set<nat>): Index {
    Index(RefreshedLeases(s, now, done),
          map key | key in s.prefix && Staying(s.prefix[key], s, now, done, key) != []
            :: Staying(s.prefix[key], s, now, done, key),
          s.expiry)
  }

  function Expired(s: Index, now: int): Index { Visited(s, now, s.leases.Keys) }

  lemma {:induction false} StayingIs(ids: seq<nat>, s: Index, now: int, done: set<nat>, key: PrefixKey)
    ensures forall x :: x in Staying(ids, s, now, done, key) <==> x in ids && Stays(s, now, done, key, x)
    ensures |Staying(ids, s, now, done, key)| <= |ids|
    ensures Distinct(ids) ==> Distinct(Staying(ids, s, now, done, key))
  {
    hide Stays;
    if ids != [] {
      var front, last := ids[..|ids| - 1], ids[|ids| - 1];
      StayingIs(front, s, now, done, key);
      assert ids == front + [last];
      if Distinct(ids) {
        DistinctSplits(ids);
        hide Distinct;
        var left := Staying(front, s, now, done, key);
        DistinctGrows(left, last);
        assert Staying(ids, s, now, done, key) == left || Staying(ids, s, now, done, key) == left + [last];
      }
    }
  }

  /** Visiting one more lease drops just its own references, where it no longer reaches. */
  lemma {:induction false} OneMoreStays(ids: seq<nat>, s: Index, now: int, done: set<nat>, key: PrefixKey, id: nat)
    requires id !in done && id in s.leases
    ensures Staying(ids, s, now, done + {id}, key)
            == if Stays(s, now, done + {id}, key, id) then Staying(ids, s, now, done, key)
               else Dropping(Staying(ids, s, now, done, key), id)
  {
    if ids != [] {
      var front, last := ids[..|ids| - 1], ids[|ids| - 1];
      OneMoreStays(front, s, now, done, key, id);
      var before := Staying(front, s, now, done, key);
      DroppingAppends(before, last, id);
      if last != id {
        assert Stays(s, now, done + {id}, key, last) <==> Stays(s, now, done, key, last);
        if !Stays(s, now, done, key, last) {
          assert before + [] == before;
        }
      }
    }
  }

  lemma DroppingAppends(ids: seq<nat>, last: nat, id: nat)
    ensures Dropping(ids + [last], id) == Dropping(ids, id) + if last == id then [] else [last]
  {
    assert (ids + [last])[..|ids|] == ids;
  }

  lemma VisitedList(s: Index, now: int, done: set<nat>, key: PrefixKey)
    ensures Ids(Visited(s, now, done).prefix, key) == Staying(Ids(s.prefix, key), s, now, done, key)
    ensures NoEmptyLists(Visited(s, now, done).prefix)
  {
    hide Stays, RefreshedLeases;
    assert Staying([], s, now, done, key) == [];
  }

  lemma {:induction false} NothingVisitedStays(ids: seq<nat>, s: Index, now: int, key: PrefixKey)
    ensures Staying(ids, s, now, {}, key) == ids
  {
    if ids != [] {
      NothingVisitedStays(ids[..|ids| - 1], s, now, key);
    }
  }

  lemma NothingVisited(s: Index, now: int)
    requires NoEmptyLists(s.prefix)
    ensures Visited(s, now, {}) == s
  {
    hide Stays, Staying;
    forall key
      ensures Ids(Visited(s, now, {}).prefix, key) == Ids(s.prefix, key)
    {
      VisitedList(s, now, {}, key);
      NothingVisitedStays(Ids(s.prefix, key), s, now, key);
    }
    VisitedList(s, now, {}, PrefixKey(0, 0, 0, 0));
    SameListSameMap(Visited(s, now, {}).prefix, s.prefix);
    assert RefreshedLeases(s, now, {}) == s.leases;
  }

  // ---------------------------------------------------------------- visiting one lease

  lemma {:induction false} BeyondReachIs(keys: seq<PrefixKey>, reach: nat)
    ensures forall key :: key in BeyondReach(keys, reach) <==> key in keys && key.ordinal > reach
  {
    if keys != [] {
      BeyondReachIs(keys[..|keys| - 1], reach);
      assert keys == keys[..|keys| - 1] + [keys[|keys| - 1]];
    }
  }

  /** The references that the visit of one lease drops. */
  function DroppedKeys(lease: Lease, now: int): seq<PrefixKey> {
    if !Survives(lease, now) then lease.path.checkpoints
    else if |Unexpired(lease.epochs, now)| == |lease.epochs| then []
    else BeyondReach(lease.path.checkpoints, Reach(Refreshed(lease, now).epochs))
  }

  lemma VisitDropsRefs(v: Index, id: nat, now: int)
    requires id in v.leases && v.leases[id].epochs != []
    ensures ExpireOne(v, id, now).prefix == WithoutRefs(v.prefix, DroppedKeys(v.leases[id], now), id)
  {
    ExpiryIs(v.leases[id].epochs);
    hide Refreshed, Unexpired, Expiry, Reach, BeyondReach;
  }

  lemma NotListed(s: Index, c: Config, key: PrefixKey, id: nat)
    requires Kept(s, c) && id in Ids(s.prefix, key)
    ensures Refers(s.leases, key, id)
  {
    ListAt(s.prefix, s.leases, c.maxCandidates, key);
  }

  lemma DroppedOrStays(s: Index, c: Config, now: int, done: set<nat>, key: PrefixKey, id: nat)
    requires Kept(s, c) && id in s.leases && id !in done
    ensures key in DroppedKeys(s.leases[id], now) ==> !Stays(s, now, done + {id}, key, id)
    ensures id in Ids(s.prefix, key) && !Stays(s, now, done + {id}, key, id) ==> key in DroppedKeys(s.leases[id], now)
  {
    var lease := s.leases[id];
    assert LeaseKept(s.expiry, id, lease);
    BeyondReachIs(lease.path.checkpoints, Reach(Refreshed(lease, now).epochs));
    if id in Ids(s.prefix, key) {
      NotListed(s, c, key, id);
    }
    hide Kept, BeyondReach, Reach, Unexpired, Expire;
  }

  lemma VisitMakesList(s: Index, c: Config, now: int, done: set<nat>, id: nat, key: PrefixKey)
    requires Kept(s, c) && id in s.leases && id !in done
    ensures Visited(s, now, done).leases[id] == s.leases[id] && s.leases[id].epochs != []
    ensures Ids(ExpireOne(Visited(s, now, done), id, now).prefix, key)
            == Staying(Ids(s.prefix, key), s, now, done + {id}, key)
  {
    var v := Visited(s, now, done);
    assert LeaseKept(s.expiry, id, s.leases[id]);
    VisitDropsRefs(v, id, now);
    VisitedList(s, now, done, key);
    WithoutRefsIs(v.prefix, DroppedKeys(s.leases[id], now), id, key);
    DroppedOrStays(s, c, now, done, key, id);
    OneMoreStays(Ids(s.prefix, key), s, now, done, key, id);
    StayingIs(Ids(s.prefix, key), s, now, done, key);
    DroppingIs(Staying(Ids(s.prefix, key), s, now, done, key), id);
    hide Kept, DroppedKeys, Stays, Staying, Dropping, ExpireOne, WithoutRefs, Visited;
  }

  lemma VisitRemoves(v: Index, id: nat, now: int)
    requires id in v.leases && Expiry(v.leases[id].epochs).Some? && !Survives(v.leases[id], now)
    ensures ExpireOne(v, id, now).expiry == v.expiry && ExpireOne(v, id, now).leases == v.leases - {id}
  {
    NoExpiry();
    hide Unexpired, Expiry, WithoutRefs;
  }

  lemma VisitUpdates(v: Index, id: nat, now: int, expiry: int)
    requires id in v.leases && Front(v.leases[id].epochs) && Expiry(v.leases[id].epochs) == Some(expiry)
    requires (expiry, id) in v.expiry && Survives(v.leases[id], now)
    ensures ExpireOne(v, id, now).expiry == v.expiry
    ensures ExpireOne(v, id, now).leases == v.leases[id := Refreshed(v.leases[id], now)]
  {
    var lease := v.leases[id];
    ExpireKeepsExpiry(lease.epochs, now);
    hide Expire, Unexpired, Expiry, WithoutRefs, BeyondReach, Front, Reach;
    assert v.leases[id := lease] == v.leases;
  }

  lemma OneMoreRefreshed(s: Index, now: int, done: set<nat>, id: nat)
    requires id in s.leases && id !in done
    ensures var v := RefreshedLeases(s, now, done);
            id in v && v[id] == s.leases[id]
            && RefreshedLeases(s, now, done + {id})
               == if Survives(s.leases[id], now) then v[id := Refreshed(s.leases[id], now)] else v - {id}
  {
    hide Survives, Refreshed;
  }

  lemma VisitMakesLeases(s: Index, c: Config, now: int, done: set<nat>, id: nat)
    requires Kept(s, c) && id in s.leases && id !in done
    ensures ExpireOne(Visited(s, now, done), id, now).leases == RefreshedLeases(s, now, done + {id})
    ensures ExpireOne(Visited(s, now, done), id, now).expiry == s.expiry
  {
    var v, lease := Visited(s, now, done), s.leases[id];
    OneMoreRefreshed(s, now, done, id);
    assert LeaseKept(s.expiry, id, lease);
    assert v.expiry == s.expiry && v.leases == RefreshedLeases(s, now, done);
    assert Front(lease.epochs) && Expiry(lease.epochs).Some? && (Expiry(lease.epochs).value, id) in s.expiry;
    hide *;
    if Survives(lease, now) {
      VisitUpdates(v, id, now, Expiry(lease.epochs).value);
    } else {
      VisitRemoves(v, id, now);
    }
  }

  lemma NoExpiry()
    ensures Expiry([]) == None
  {
  }

  /** Visiting the leases one by one, in any order, leads to the same index. */
  lemma VisitIsOneMore(s: Index, c: Config, now: int, done: set<nat>, id: nat)
    requires Kept(s, c) && id in s.leases && id !in done
    ensures id in Visited(s, now, done).leases
    ensures ExpireOne(Visited(s, now, done), id, now) == Visited(s, now, done + {id})
  {
    VisitMakesLeases(s, c, now, done, id);
    var one, more := ExpireOne(Visited(s, now, done), id, now), Visited(s, now, done + {id});
    hide ExpireOne, Kept, Staying, RefreshedLeases;
    forall key
      ensures Ids(one.prefix, key) == Ids(more.prefix, key)
    {
      VisitMakesList(s, c, now, done, id, key);
      VisitedList(s, now, done + {id}, key);
    }
    VisitedList(s, now, done + {id}, PrefixKey(0, 0, 0, 0));
    OneHasNoEmptyLists(s, c, now, done, id);
    SameListSameMap(one.prefix, more.prefix);
  }

  lemma OneHasNoEmptyLists(s: Index, c: Config, now: int, done: set<nat>, id: nat)
    requires Kept(s, c) && id in s.leases && id !in done
    ensures NoEmptyLists(ExpireOne(Visited(s, now, done), id, now).prefix)
  {
    var v, key := Visited(s, now, done), PrefixKey(0, 0, 0, 0);
    assert LeaseKept(s.expiry, id, s.leases[id]);
    assert v.leases[id] == s.leases[id];
    VisitDropsRefs(v, id, now);
    VisitedList(s, now, done, key);
    WithoutRefsIs(v.prefix, DroppedKeys(s.leases[id], now), id, key);
  }

  // ---------------------------------------------------------------- the invariant

  lemma RefreshedIs(lease: Lease, now: int)
    requires Front(lease.epochs)
    ensures Refreshed(lease, now).epochs == Expire(lease.epochs, now) == Unexpired(lease.epochs, now)
    ensures Front(Expire(lease.epochs, now)) && Refreshed(lease, now).path == lease.path
    ensures Refreshed(lease, now).domain == lease.domain
  {
    ExpireCovers(lease.epochs, now);
    hide Unexpired, Compact, Front;
  }

  lemma ExpiredKeepsRefs(s: Index, c: Config, now: int)
    requires Kept(s, c)
    ensures RefsKept(Expired(s, now).prefix, Expired(s, now).leases, c.maxCandidates)
  {
    var e := Expired(s, now);
    forall key | key in e.prefix
      ensures ListKept(e.leases, key, e.prefix[key], c.maxCandidates)
    {
      ListAt(s.prefix, s.leases, c.maxCandidates, key);
      VisitedList(s, now, s.leases.Keys, key);
      StayingIs(Ids(s.prefix, key), s, now, s.leases.Keys, key);
      hide Staying, Distinct, Reach, Refreshed, Kept, Survives;
      assert e.prefix[key] == Ids(e.prefix, key);
      ListStays(s, now, key, e.prefix[key]);
    }
  }

  lemma ListStays(s: Index, now: int, key: PrefixKey, ids: seq<nat>)
    requires forall x :: x in ids ==> Refers(s.leases, key, x) && Stays(s, now, s.leases.Keys, key, x)
    ensures forall x :: x in ids ==> Refers(Expired(s, now).leases, key, x)
  {
    hide Staying, Reach, Unexpired, Expire;
  }

  lemma ExpiredKeepsLeases(s: Index, c: Config, now: int)
    requires Kept(s, c)
    ensures LeasesKept(Expired(s, now).leases, Expired(s, now).expiry)
    ensures |Expired(s, now).leases| <= c.maxLeases
  {
    var e := Expired(s, now);
    forall id | id in e.leases
      ensures LeaseKept(e.expiry, id, e.leases[id])
    {
      assert LeaseKept(s.expiry, id, s.leases[id]);
      RefreshedIs(s.leases[id], now);
      ExpireKeepsExpiry(s.leases[id].epochs, now);
      hide Unexpired, Expire, Expiry, Front, Staying, Stays;
    }
    assert e.leases.Keys <= s.leases.Keys;
    FewerKeys(e.leases.Keys, s.leases.Keys);
  }

  lemma FewerKeys(a: set<nat>, b: set<nat>)
    requires a <= b
    ensures |a| <= |b|
  {
    assert b == a + (b - a);
  }

  /** Expiry keeps the index. */
  lemma ExpiredKeeps(s: Index, c: Config, now: int)
    requires Kept(s, c)
    ensures Kept(Expired(s, now), c)
  {
    hide Expired, RefsKept, LeasesKept;
    ExpiredKeepsRefs(s, c, now);
    ExpiredKeepsLeases(s, c, now);
  }

  lemma {:induction false} UnexpiredHolds(epochs: seq<Epoch>, now: int)
    ensures forall e :: e in Unexpired(epochs, now) <==> e in epochs && e.expires > now
    ensures |Unexpired(epochs, now)| <= |epochs|
    ensures |Unexpired(epochs, now)| == |epochs| <==> forall e :: e in epochs ==> e.expires > now
  {
    if epochs != [] {
      var front, last := epochs[..|epochs| - 1], epochs[|epochs| - 1];
      UnexpiredHolds(front, now);
      assert epochs == front + [last];
    }
  }

  lemma LeaseExpires(lease: Lease, now: int)
    requires Front(lease.epochs)
    ensures Survives(lease, now) <==> exists x :: x in lease.epochs && x.expires > now
    ensures var after := Refreshed(lease, now);
            && (forall x :: x in after.epochs <==> x in lease.epochs && x.expires > now)
            && after.domain == lease.domain && after.path == lease.path
            && after.version == if forall x :: x in lease.epochs ==> x.expires > now then lease.version
                                else Min(lease.version + 1, U64_MAX)
  {
    UnexpiredHolds(lease.epochs, now);
    RefreshedIs(lease, now);
    hide Unexpired, Expire, Front;
    var left := Unexpired(lease.epochs, now);
    assert left != [] ==> left[0] in left;
  }

  lemma ReachesBy(epochs: seq<Epoch>, ordinal: nat)
    requires epochs != []
    ensures ordinal <= Reach(epochs) <==> exists x :: x in epochs && x.through >= ordinal
  {
    ReachIs(epochs);
    hide Reach;
  }

  /** Expiry leaves the leases that have an unexpired epoch, with just those epochs. A lease that has
    * lost some is a version further on; nothing else about it changes. */
  lemma ExpiredIs(s: Index, c: Config, now: int, id: nat)
    requires Kept(s, c)
    ensures var e := Expired(s, now);
            && (id in e.leases <==> id in s.leases && exists x :: x in s.leases[id].epochs && x.expires > now)
            && (id in e.leases ==>
                  var (was, lease) := (s.leases[id], e.leases[id]);
                  && (forall x :: x in lease.epochs <==> x in was.epochs && x.expires > now)
                  && lease.domain == was.domain && lease.path == was.path
                  && lease.version == if forall x :: x in was.epochs ==> x.expires > now then was.version
                                      else Min(was.version + 1, U64_MAX))
  {
    if id in s.leases {
      assert LeaseKept(s.expiry, id, s.leases[id]);
      LeaseExpires(s.leases[id], now);
    }
    hide Survives, Refreshed, Kept, Staying;
  }

  /** Of the candidates of a key there stay those that still reach it. */
  lemma StayingCandidates(s: Index, c: Config, now: int, id: nat, key: PrefixKey)
    requires Kept(s, c)
    ensures var e := Expired(s, now);
            id in Ids(e.prefix, key) <==>
              id in Ids(s.prefix, key) && id in e.leases
              && exists x :: x in e.leases[id].epochs && x.through >= key.ordinal
  {
    hide Unexpired, Reach, Expire, Distinct, Staying, Refreshed;
    ListAt(s.prefix, s.leases, c.maxCandidates, key);
    VisitedList(s, now, s.leases.Keys, key);
    StayingIs(Ids(s.prefix, key), s, now, s.leases.Keys, key);
    if id in s.leases {
      assert LeaseKept(s.expiry, id, s.leases[id]);
      RefreshedIs(s.leases[id], now);
      hide Front, Kept, LeaseKept;
      if Survives(s.leases[id], now) {
        ReachesBy(Refreshed(s.leases[id], now).epochs, key.ordinal);
      }
    } else {
      assert id in Ids(s.prefix, key) ==> Refers(s.leases, key, id);
    }
  }

  /** Expiry loses no candidate. */
  lemma ExpiredIsComplete(s: Index, c: Config, now: int)
    requires Kept(s, c) && Complete(s)
    ensures Complete(Expired(s, now))
  {
    var e := Expired(s, now);
    forall id, key | Refers(e.leases, key, id)
      ensures id in Ids(e.prefix, key)
    {
      assert LeaseKept(s.expiry, id, s.leases[id]);
      RefreshedIs(s.leases[id], now);
      ExpireCovers(s.leases[id].epochs, now);
      PrefixReaches(s.leases[id].epochs, Expire(s.leases[id].epochs, now));
      VisitedList(s, now, s.leases.Keys, key);
      StayingIs(Ids(s.prefix, key), s, now, s.leases.Keys, key);
      hide Staying, Reach, Unexpired, Expire, Front;
      assert Refers(s.leases, key, id);
    }
  }

  lemma PrefixReaches(epochs: seq<Epoch>, left: seq<Epoch>)
    requires left <= epochs
    ensures Reach(left) <= Reach(epochs)
  {
    ReachIs(left);
    ReachIs(epochs);
    hide Reach;
    if left != [] {
      var x :| x in left && x.through == Reach(left);
      assert x in epochs;
    } else {
      NoReach();
    }
  }
}
