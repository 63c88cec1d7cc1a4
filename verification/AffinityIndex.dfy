/** The prefix index as it is changed in place under its lock. */
module AffinityIndex {
  import opened Prelude
  import opened WarmEpochs
  import opened PrefixIndex
  import opened PrefixInvariant
  import opened PrefixExpiry
  import opened PrefixEviction

  lemma WithRefsSnoc(prefix: map<PrefixKey, seq<nat>>, leases: map<nat, Lease>, keys: seq<PrefixKey>, i: nat, id: nat,
                     max: nat, now: int)
    requires i < |keys|
    ensures WithRefs(prefix, leases, keys[..i + 1], id, max, now)
            == WithRef(WithRefs(prefix, leases, keys[..i], id, max, now), leases, keys[i], id, max, now)
  {
    hide WithRef;
    assert keys[..i + 1][..i] == keys[..i];
  }

  lemma WithoutRefsSnoc(prefix: map<PrefixKey, seq<nat>>, keys: seq<PrefixKey>, i: nat, id: nat)
    requires i < |keys|
    ensures WithoutRefs(prefix, keys[..i + 1], id) == WithoutRef(WithoutRefs(prefix, keys[..i], id), keys[i], id)
  {
    hide WithoutRef;
    assert keys[..i + 1][..i] == keys[..i];
  }

  lemma {:induction false} ReachedIsPrefix(keys: seq<PrefixKey>, through: nat, n: nat)
    requires n <= |keys| && (forall i :: 0 <= i < n ==> keys[i].ordinal <= through)
    requires n == |keys| || keys[n].ordinal > through
    ensures Reached(keys, through) == keys[..n]
  {
    if n > 0 {
      ReachedIsPrefix(keys[1..], through, n - 1);
      assert keys[..n] == [keys[0]] + keys[1..][..n - 1];
    }
  }

  class AffinityIndex {
    const config: Config
    const idOf: (CacheDomain, Path) -> nat
    var leases: map<nat, Lease>
    var prefix: map<PrefixKey, seq<nat>>
    var expiryOrder: set<(int, nat)>

    function State(): Index
      reads this
    {
      Index(leases, prefix, expiryOrder)
    }

    constructor (config: Config, idOf: (CacheDomain, Path) -> nat)
      requires ValidConfig(config)
      ensures State() == EMPTY_INDEX && this.config == config && this.idOf == idOf
    {
      this.config, this.idOf := config, idOf;
      leases, prefix, expiryOrder := map[], map[], {};
    }

    method WeakestCandidate(ids: seq<nat>, ordinal: nat, now: int) returns (weakest: nat)
      requires ids != []
      ensures weakest == Weakest(ids, leases, ordinal, now) && weakest < |ids|
      ensures forall k :: 0 <= k < |ids| ==> !Weaker(leases, ordinal, now, ids[k], ids[weakest])
      ensures forall k :: 0 <= k < weakest ==> Weaker(leases, ordinal, now, ids[weakest], ids[k])
    {
      hide Weaker;
      weakest := 0;
      for i := 1 to |ids|
        invariant weakest < i && weakest == Weakest(ids[..i], leases, ordinal, now)
      {
        assert ids[..i + 1][..i] == ids[..i];
        if Weaker(leases, ordinal, now, ids[i], ids[weakest]) {
          weakest := i;
        }
      }
      assert ids[..|ids|] == ids;
      forall k | 0 <= k < |ids|
        ensures !Weaker(leases, ordinal, now, ids[k], ids[weakest])
        ensures k < weakest ==> Weaker(leases, ordinal, now, ids[weakest], ids[k])
      {
        WeakestIsWeakest(ids, leases, ordinal, now, k);
      }
    }

    method AddPrefixRef(key: PrefixKey, id: nat, now: int)
      modifies this
      ensures prefix == WithRef(old(prefix), leases, key, id, config.maxCandidates, now)
      ensures leases == old(leases) && expiryOrder == old(expiryOrder)
    {
      hide Weakest;
      var ids := if key in prefix then prefix[key] else [];
      if id !in ids {
        ids := ids + [id];
      }
      if |ids| > config.maxCandidates {
        var weakest := WeakestCandidate(ids, key.ordinal, now);
        ids := ids[..weakest] + ids[weakest + 1..];
      }
      assert ids == Enlisted(Ids(prefix, key), leases, key.ordinal, id, config.maxCandidates, now);
      hide Enlisted;
      prefix := prefix[key := ids];
    }

    method RemovePrefixRefs(keys: seq<PrefixKey>, id: nat)
      modifies this
      ensures prefix == WithoutRefs(old(prefix), keys, id) && leases == old(leases) && expiryOrder == old(expiryOrder)
    {
      for i := 0 to |keys|
        invariant prefix == WithoutRefs(old(prefix), keys[..i], id)
        invariant leases == old(leases) && expiryOrder == old(expiryOrder)
      {
        WithoutRefsSnoc(old(prefix), keys, i, id);
        if keys[i] in prefix {
          var ids := Dropping(prefix[keys[i]], id);
          if ids == [] {
            prefix := prefix - {keys[i]};
          } else {
            prefix := prefix[keys[i] := ids];
          }
        }
      }
      assert keys[..|keys|] == keys;
    }

    method RemoveLease(id: nat)
      modifies this
      ensures State() == PrefixIndex.RemoveLease(old(State()), id)
    {
      if id in leases {
        var removed := leases[id];
        leases := leases - {id};
        var expiry := Expiry(removed.epochs);
        if expiry.Some? {
          expiryOrder := expiryOrder - {(expiry.value, id)};
        }
        RemovePrefixRefs(removed.path.checkpoints, id);
      }
    }

    /** Lists the lease at its checkpoints up to the frontier. */
    method AddRefsThrough(id: nat, through: nat, now: int)
      requires id in leases
      modifies this
      ensures leases == old(leases) && expiryOrder == old(expiryOrder)
      ensures prefix == WithRefs(old(prefix), leases, Reached(leases[id].path.checkpoints, through), id,
                                 config.maxCandidates, now)
    {
      hide WithRef;
      var keys := leases[id].path.checkpoints;
      var i := 0;
      while i < |keys| && keys[i].ordinal <= through
        invariant i <= |keys| && forall j :: 0 <= j < i ==> keys[j].ordinal <= through
        invariant prefix == WithRefs(old(prefix), leases, keys[..i], id, config.maxCandidates, now)
        invariant leases == old(leases) && expiryOrder == old(expiryOrder)
      {
        WithRefsSnoc(old(prefix), leases, keys, i, id, config.maxCandidates, now);
        AddPrefixRef(keys[i], id, now);
        i := i + 1;
      }
      ReachedIsPrefix(keys, through, i);
    }

    method EvictOldest()
      requires !Stuck(Evict(State(), config.maxLeases), config.maxLeases)
      modifies this
      ensures State() == Evict(old(State()), config.maxLeases)
    {
      hide PrefixIndex.RemoveLease;
      while |leases| > config.maxLeases
        invariant Evict(State(), config.maxLeases) == Evict(old(State()), config.maxLeases)
        decreases |leases|
      {
        if expiryOrder == {} {
          break;
        }
        var oldest := First(expiryOrder).1;
        FewerLeases(leases, oldest);
        RemovedLease(State(), oldest);
        RemoveLease(oldest);
      }
    }

    /** Records one observation, in a state in which the call returns. */
    method Observe(path: Path, domain: CacheDomain, evidence: Epoch, now: int)
      returns (r: Result<Option<Lease>, string>)
      requires Kept(State(), config)
      requires ValidConfig(config) && !Hangs(State(), config, idOf(domain, path), path, evidence, now)
      modifies this
      ensures State() == PrefixIndex.Observe(old(State()), config, idOf(domain, path), domain, path, evidence, now)
      ensures r.Err? <==> path.checkpoints != [] && !ValidEvidence(path, evidence)
      ensures r.Ok? ==>
                (r.value.Some? <==>
                   && path.checkpoints != [] && evidence.expires > now && idOf(domain, path) in leases
                   && (forall e :: idOf(domain, path) in old(leases) && e in old(leases)[idOf(domain, path)].epochs
                                   ==> e.through < evidence.through || e.expires < evidence.expires))
      ensures r.Ok? && r.value.Some? ==>
                var id, lease := idOf(domain, path), r.value.value;
                var was := if id in old(leases) then old(leases)[id] else Lease(domain, path, [], 0);
                && id in leases && leases[id] == lease && lease.domain == was.domain && lease.path == was.path
                && evidence in lease.epochs && lease.version == Min(was.version + 1, U64_MAX)
    {
      hide Hangs, Kept, Insert, Front, WithRefs, Reached, Evict, Stuck, Expiry;
      ReturnsUnlessItHangs(State(), config, idOf(domain, path), domain, path, evidence, now);
      if path.checkpoints == [] {
        return Ok(None);
      }
      if evidence.through == 0 || evidence.through > path.checkpoints[|path.checkpoints| - 1].ordinal {
        return Err("cache evidence frontier is outside the fingerprint path");
      }
      if evidence.expires <= now {
        return Ok(None);
      }
      var id := idOf(domain, path);
      var lease := if id in leases then leases[id] else Lease(domain, path, [], 0);
      var epochs := Insert(lease.epochs, evidence);
      LeaseForIsFront(State(), config, id, domain, path);
      InsertFailsIff(lease.epochs, evidence);
      if epochs.None? {
        NotedNothing(State(), config, id, domain, path, evidence, now);
        return Ok(None);
      }
      InsertIsNonempty(lease.epochs, evidence);
      InsertCovers(lease.epochs, evidence, 0, 0);
      ghost var before := State();
      var previous := Expiry(lease.epochs);
      var updated := lease.(epochs := epochs.value, version := BumpVersion(lease.version));
      leases := leases[id := updated];
      if previous.Some? {
        expiryOrder := expiryOrder - {(previous.value, id)};
      }
      ExpiryIs(epochs.value);
      expiryOrder := expiryOrder + {(Expiry(updated.epochs).value, id)};
      AddRefsThrough(id, evidence.through, now);
      assert State() == Accepted(before, config, id, lease, epochs.value, evidence, now);
      ghost var noted := State();
      EvictOldest();
      EvictedOnly(noted, config.maxLeases);
      return Ok(if id in leases then Some(updated) else None);
    }

    /** The best candidate at a key. */
    method BestAt(eligible: set<CacheDomain>, key: PrefixKey, ids: seq<nat>, now: int) returns (best: Option<Match>)
      ensures best == BestOffer(State(), eligible, key, ids, now)
    {
      hide Offer, Outranks;
      best := None;
      for i := 0 to |ids|
        invariant best == BestOffer(State(), eligible, key, ids[..i], now)
      {
        assert ids[..i + 1][..i] == ids[..i];
        var offer := Offer(State(), eligible, key, ids[i], now);
        if offer.Some? && (best.None? || !Outranks(best.value, offer.value)) {
          best := offer;
        }
      }
      assert ids[..|ids|] == ids;
    }

    /** Walks the path from its deepest checkpoint and returns the first best match. */
    method Lookup(path: Path, eligible: set<CacheDomain>, now: int) returns (m: Option<Match>)
      ensures m == PrefixIndex.Lookup(State(), eligible, path.checkpoints, now)
    {
      hide BestOffer;
      var keys := path.checkpoints;
      var i := |keys|;
      assert keys[..i] == keys;
      while i > 0
        invariant i <= |keys|
        invariant PrefixIndex.Lookup(State(), eligible, keys, now)
                  == PrefixIndex.Lookup(State(), eligible, keys[..i], now)
      {
        assert keys[..i][..i - 1] == keys[..i - 1];
        var key := keys[i - 1];
        i := i - 1;
        if key in prefix {
          m := BestAt(eligible, key, prefix[key], now);
          if m.Some? {
            return;
          }
        } else {
          NoOffers(State(), eligible, key, now);
        }
      }
      return None;
    }

    method ExpireLease(id: nat, now: int)
      requires id in leases && leases[id].epochs != []
      modifies this
      ensures State() == ExpireOne(old(State()), id, now)
    {
      hide Unexpired, WarmEpochs.Expire, Expiry, Reach, WithoutRefs, BeyondReach, PrefixIndex.RemoveLease;
      var lease := leases[id];
      ExpiryIs(lease.epochs);
      var previous := Expiry(lease.epochs);
      var left := Unexpired(lease.epochs, now);
      if left == [] {
        leases := leases[id := lease.(epochs := [])];
        RemoveLease(id);
      } else if |left| != |lease.epochs| {
        var updated := Refreshed(lease, now);
        leases := leases[id := updated];
        expiryOrder := expiryOrder - {(previous.value, id)};
        var expiry := Expiry(updated.epochs);
        if expiry.Some? {
          expiryOrder := expiryOrder + {(expiry.value, id)};
        }
        RemovePrefixRefs(BeyondReach(updated.path.checkpoints, Reach(updated.epochs)), id);
      }
    }

    /** Expires every lease; the order in which a hash map yields them does not matter. */
    method Expire(now: int) returns (result: ExpireResult)
      requires Kept(State(), config)
      modifies this
      ensures State() == Expired(old(State()), now) && Kept(State(), config)
      ensures result.removedEpochs == RemovedEpochs(old(leases), old(leases).Keys, now)
      ensures result.removedLeases == |result.deleted|
      ensures forall id :: id in result.deleted <==> id in old(leases) && !Survives(old(leases)[id], now)
      ensures forall id :: id in result.updated <==> id in leases && leases[id] != old(leases)[id]
      ensures forall id :: id in result.updated ==> result.updated[id] == leases[id]
    {
      hide ExpireOne, Visited, Kept, Survives, RemovedEpochs, Reports, Unexpired, Refreshed;
      ghost var first := State();
      NothingToVisit(first, config, now);
      NothingReported(leases, now);
      var left := leases.Keys;
      result := ExpireResult(0, 0, map[], {});
      while left != {}
        invariant left <= first.leases.Keys
        invariant State() == Visited(first, now, first.leases.Keys - left)
        invariant Reports(result, first.leases, first.leases.Keys - left, now)
        decreases |left|
      {
        var id :| id in left;
        ghost var done := first.leases.Keys - left;
        VisitIsOneMore(first, config, now, done, id);
        StillWhole(first, config, now, done, id);
        var before := leases[id];
        ExpireLease(id, now);
        ghost var next := OneMoreReport(result, id, first.leases[id], now);
        OneMoreReported(result, first.leases, now, done, id);
        VisitedLease(first, config, now, done, id);
        var after := if id in leases then |leases[id].epochs| else 0;
        result := result.(removedEpochs := result.removedEpochs + (|before.epochs| - after));
        if id !in leases {
          result := result.(removedLeases := result.removedLeases + 1, deleted := result.deleted + {id});
        } else if |before.epochs| != after {
          result := result.(updated := result.updated[id := leases[id]]);
        }
        left := left - {id};
        assert first.leases.Keys - left == done + {id};
        assert result == next;
      }
      assert first.leases.Keys - left == first.leases.Keys;
      ExpiredKeeps(first, config, now);
      AllReported(result, first, config, now);
    }
  }

  lemma LeaseForIsFront(s: Index, c: Config, id: nat, domain: CacheDomain, path: Path)
    requires Kept(s, c)
    ensures Front(LeaseFor(s, id, domain, path).epochs)
  {
    assert id in s.leases ==> LeaseKept(s.expiry, id, s.leases[id]);
  }

  lemma NotedNothing(s: Index, c: Config, id: nat, domain: CacheDomain, path: Path, e: Epoch, now: int)
    requires Kept(s, c) && Insert(LeaseFor(s, id, domain, path).epochs, e).None?
    ensures Evict(Noted(s, c, id, domain, path, e, now), c.maxLeases) == s
  {
    hide Insert, RefsKept, LeasesKept;
  }

  lemma NoOffers(s: Index, eligible: set<CacheDomain>, key: PrefixKey, now: int)
    requires key !in s.prefix
    ensures BestOffer(s, eligible, key, Ids(s.prefix, key), now) == None
  {
  }

  lemma NothingToVisit(s: Index, c: Config, now: int)
    requires Kept(s, c)
    ensures Visited(s, now, {}) == s && s.leases.Keys - s.leases.Keys == {}
  {
    NoEmptyKept(s.prefix, s.leases, c.maxCandidates);
    NothingVisited(s, now);
  }

  lemma StillWhole(s: Index, c: Config, now: int, done: set<nat>, id: nat)
    requires Kept(s, c) && id in s.leases && id !in done
    ensures id in Visited(s, now, done).leases && Visited(s, now, done).leases[id] == s.leases[id]
    ensures s.leases[id].epochs != []
  {
    assert LeaseKept(s.expiry, id, s.leases[id]);
  }

  // ---------------------------------------------------------------- what an expiry reports

  /** The updated and deleted leases in no particular order. */
  datatype ExpireResult = ExpireResult(removedEpochs: int, removedLeases: nat, updated: map<nat, Lease>,
                                       deleted: set<nat>)

  /** The expired epochs of some leases. */
  ghost function RemovedEpochs(leases: map<nat, Lease>, ids: set<nat>, now: int): int
    requires ids <= leases.Keys
  {
    if ids == {} then 0
    else
      var id :| id in ids;
      |leases[id].epochs| - |Unexpired(leases[id].epochs, now)| + RemovedEpochs(leases, ids - {id}, now)
  }

  lemma {:induction false} RemovedTakes(leases: map<nat, Lease>, ids: set<nat>, now: int, id: nat)
    requires id in ids && ids <= leases.Keys
    ensures RemovedEpochs(leases, ids, now)
            == |leases[id].epochs| - |Unexpired(leases[id].epochs, now)| + RemovedEpochs(leases, ids - {id}, now)
    decreases ids
  {
    hide Unexpired;
    var j :| j in ids && RemovedEpochs(leases, ids, now)
                         == |leases[j].epochs| - |Unexpired(leases[j].epochs, now)|
                            + RemovedEpochs(leases, ids - {j}, now);
    if j != id {
      RemovedTakes(leases, ids - {j}, now, id);
      RemovedTakes(leases, ids - {id}, now, j);
      assert ids - {j} - {id} == ids - {id} - {j};
    }
  }

  predicate Shrinks(lease: Lease, now: int) {
    Survives(lease, now) && |Unexpired(lease.epochs, now)| != |lease.epochs|
  }

  /** The result so far tells what happened to the leases in `done`. */
  ghost predicate Reports(result: ExpireResult, leases: map<nat, Lease>, done: set<nat>, now: int) {
    && done <= leases.Keys && result.removedEpochs == RemovedEpochs(leases, done, now)
    && result.removedLeases == |result.deleted|
    && DeletedAre(result.deleted, leases, done, now) && UpdatedAre(result.updated, leases, done, now)
  }

  predicate DeletedAre(deleted: set<nat>, leases: map<nat, Lease>, done: set<nat>, now: int)
    requires done <= leases.Keys
  {
    deleted == set id | id in done && !Survives(leases[id], now)
  }

  predicate UpdatedAre(updated: map<nat, Lease>, leases: map<nat, Lease>, done: set<nat>, now: int)
    requires done <= leases.Keys
  {
    updated == map id | id in done && Shrinks(leases[id], now) :: Refreshed(leases[id], now)
  }

  lemma OneMoreDeleted(deleted: set<nat>, leases: map<nat, Lease>, done: set<nat>, now: int, id: nat)
    requires done <= leases.Keys && DeletedAre(deleted, leases, done, now) && id in leases && id !in done
    ensures DeletedAre(if Survives(leases[id], now) then deleted else deleted + {id}, leases, done + {id}, now)
    ensures id !in deleted
  {
    hide Survives;
  }

  lemma OneMoreUpdated(updated: map<nat, Lease>, leases: map<nat, Lease>, done: set<nat>, now: int, id: nat)
    requires done <= leases.Keys && UpdatedAre(updated, leases, done, now) && id in leases && id !in done
    ensures UpdatedAre(if Shrinks(leases[id], now) then updated[id := Refreshed(leases[id], now)] else updated,
                       leases, done + {id}, now)
  {
    hide Shrinks, Refreshed;
  }

  lemma NothingReported(leases: map<nat, Lease>, now: int)
    ensures Reports(ExpireResult(0, 0, map[], {}), leases, {}, now)
  {
    hide Survives, Shrinks, Refreshed;
  }

  /** What became of the lease that was visited. */
  lemma VisitedLease(s: Index, c: Config, now: int, done: set<nat>, id: nat)
    requires Kept(s, c) && id in s.leases
    ensures var after := Visited(s, now, done + {id}).leases;
            && (id in after <==> Survives(s.leases[id], now))
            && (id in after ==> after[id] == Refreshed(s.leases[id], now)
                                && |after[id].epochs| == |Unexpired(s.leases[id].epochs, now)|)
            && (id !in after ==> |Unexpired(s.leases[id].epochs, now)| == 0)
  {
    assert LeaseKept(s.expiry, id, s.leases[id]);
    RefreshedIs(s.leases[id], now);
    hide Unexpired, Refreshed, Front, Staying;
  }

  /** The result with one more lease. */
  function OneMoreReport(r: ExpireResult, id: nat, lease: Lease, now: int): ExpireResult {
    var n := r.removedEpochs + (|lease.epochs| - |Unexpired(lease.epochs, now)|);
    if !Survives(lease, now) then ExpireResult(n, r.removedLeases + 1, r.updated, r.deleted + {id})
    else if Shrinks(lease, now) then r.(removedEpochs := n, updated := r.updated[id := Refreshed(lease, now)])
    else r.(removedEpochs := n)
  }

  lemma OneMoreReported(r: ExpireResult, leases: map<nat, Lease>, now: int, done: set<nat>, id: nat)
    requires Reports(r, leases, done, now) && id in leases && id !in done
    ensures Reports(OneMoreReport(r, id, leases[id], now), leases, done + {id}, now)
  {
    RemovedTakes(leases, done + {id}, now, id);
    assert done + {id} - {id} == done;
    assert Shrinks(leases[id], now) ==> Survives(leases[id], now);
    hide Unexpired, Refreshed, RemovedEpochs, Survives, Shrinks, DeletedAre, UpdatedAre;
    OneMoreDeleted(r.deleted, leases, done, now, id);
    OneMoreUpdated(r.updated, leases, done, now, id);
  }

  /** In the end the updated leases are those that are not as they were. */
  lemma AllReported(r: ExpireResult, s: Index, c: Config, now: int)
    requires Kept(s, c) && Reports(r, s.leases, s.leases.Keys, now)
    ensures r.removedEpochs == RemovedEpochs(s.leases, s.leases.Keys, now) && r.removedLeases == |r.deleted|
    ensures forall id :: id in r.deleted <==> id in s.leases && !Survives(s.leases[id], now)
    ensures var after := Expired(s, now).leases;
            && (forall id :: id in r.updated <==> id in after && after[id] != s.leases[id])
            && (forall id :: id in r.updated ==> r.updated[id] == after[id])
  {
    hide Unexpired, Survives, Staying;
    var after := Expired(s, now).leases;
    forall id | id in s.leases
      ensures id in r.updated <==> id in after && after[id] != s.leases[id]
      ensures id in r.updated ==> r.updated[id] == after[id]
    {
      RefreshedChanges(s, c, id, now);
    }
  }

  lemma RefreshedChanges(s: Index, c: Config, id: nat, now: int)
    requires Kept(s, c) && id in s.leases
    ensures Refreshed(s.leases[id], now) != s.leases[id]
            <==> |Unexpired(s.leases[id].epochs, now)| != |s.leases[id].epochs|
  {
    assert LeaseKept(s.expiry, id, s.leases[id]);
    RefreshedIs(s.leases[id], now);
    hide Unexpired, Front;
  }
}
