/** While nothing is crowded out, a lookup finds exactly what a scan of the history finds. */
module PrefixCompleteness {
  import opened Prelude
  import opened WarmEpochs
  import opened PrefixIndex
  import opened PrefixInvariant
  import opened PrefixExpiry
  import opened PrefixRuns

  /** The observation evicts no lease and drops no candidate. */
  predicate Roomy(w: Setting, s: Index, t: Timed<Step>) {
    t.step.Observes? && Evidences(w, t, w.idOf(t.step.domain, t.step.path)) ==>
      var id := w.idOf(t.step.domain, t.step.path);
      var lease := LeaseFor(s, id, t.step.domain, t.step.path);
      && |Noted(s, w.config, id, t.step.domain, t.step.path, t.step.evidence, t.now).leases| <= w.config.maxLeases
      && forall key :: key in Reached(lease.path.checkpoints, t.step.evidence.through) ==> HasRoom(s, w.config, key, id)
  }

  predicate HasRoom(s: Index, c: Config, key: PrefixKey, id: nat) {
    id in Ids(s.prefix, key) || |Ids(s.prefix, key)| < c.maxCandidates
  }

  predicate Uncrowded(w: Setting, run: Run) {
    run != [] ==> Uncrowded(w, run[..|run| - 1]) && Roomy(w, IndexAfter(w, run[..|run| - 1]), run[|run| - 1])
  }

  /** Paths list their checkpoints from the shallowest to the deepest. */
  predicate PathsAscend(run: Run) {
    forall i :: 0 <= i < |run| && run[i].step.Observes? ==> OrdinalsAscend(run[i].step.path.checkpoints)
  }

  lemma RoomyDoesNotEvict(w: Setting, s: Index, t: Timed<Step>)
    requires Kept(s, w.config) && Roomy(w, s, t)
    ensures !Stuck(Next(w, s, t), w.config.maxLeases)
    ensures t.step.Observes? ==>
              var id := w.idOf(t.step.domain, t.step.path);
              Next(w, s, t) == if Evidences(w, t, id)
                               then Noted(s, w.config, id, t.step.domain, t.step.path, t.step.evidence, t.now) else s
  {
    hide Noted, Expired, RefsKept, LeasesKept, Reached;
    if t.step.Expires? {
      ExpiredKeeps(s, w.config, t.now);
    }
  }

  lemma {:induction false} UncrowdedReturns(w: Setting, run: Run)
    requires ValidConfig(w.config) && Uncrowded(w, run)
    ensures Returns(w, run)
  {
    hide Next, Roomy, Stuck;
    if run != [] {
      var front := run[..|run| - 1];
      UncrowdedReturns(w, front);
      RunsKeep(w, front);
      RoomyDoesNotEvict(w, IndexAfter(w, front), run[|run| - 1]);
    }
  }

  // ---------------------------------------------------------------- candidates

  lemma {:induction false} WithRefsAdds(s: Index, leases: map<nat, Lease>, c: Config, keys: seq<PrefixKey>, id: nat,
                                        now: int,
                                        key: PrefixKey)
    requires forall k :: k in keys ==> HasRoom(s, c, k, id)
    requires forall k :: |Ids(s.prefix, k)| <= c.maxCandidates
    ensures Ids(WithRefs(s.prefix, leases, keys, id, c.maxCandidates, now), key)
            == if key in keys && id !in Ids(s.prefix, key) then Ids(s.prefix, key) + [id] else Ids(s.prefix, key)
  {
    hide Weakest;
    if keys != [] {
      var front, last := keys[..|keys| - 1], keys[|keys| - 1];
      assert keys == front + [last];
      WithRefsAdds(s, leases, c, front, id, now, key);
      WithRefsAdds(s, leases, c, front, id, now, last);
      assert HasRoom(s, c, last, id);
    }
  }

  lemma ListsAreBounded(s: Index, c: Config)
    requires Kept(s, c)
    ensures forall k :: |Ids(s.prefix, k)| <= c.maxCandidates
  {
    hide Distinct, Refers;
  }

  lemma NotedPrefix(s: Index, c: Config, id: nat, domain: CacheDomain, path: Path, e: Epoch, now: int)
    requires Kept(s, c)
    ensures var n, lease := Noted(s, c, id, domain, path, e, now), LeaseFor(s, id, domain, path);
            if Insert(lease.epochs, e).Some?
            then n.prefix == WithRefs(s.prefix, n.leases, Reached(lease.path.checkpoints, e.through), id,
                                      c.maxCandidates, now)
            else n == s
  {
    var lease := LeaseFor(s, id, domain, path);
    assert id in s.leases ==> LeaseKept(s.expiry, id, s.leases[id]);
    if Insert(lease.epochs, e).Some? {
      InsertIsNonempty(lease.epochs, e);
    }
    hide Insert, Front, WithRefs, Reached, Kept, Expiry;
  }

  lemma NotedIsComplete(s: Index, c: Config, id: nat, domain: CacheDomain, path: Path, e: Epoch, now: int)
    requires Kept(s, c) && Complete(s) && e.through > 0
    requires OrdinalsAscend(LeaseFor(s, id, domain, path).path.checkpoints)
    requires forall key :: key in Reached(LeaseFor(s, id, domain, path).path.checkpoints, e.through) ==>
               HasRoom(s, c, key, id)
    ensures Complete(Noted(s, c, id, domain, path, e, now))
  {
    var n, lease := Noted(s, c, id, domain, path, e, now), LeaseFor(s, id, domain, path);
    NotedIs(s, c, id, domain, path, e, now);
    NotedPrefix(s, c, id, domain, path, e, now);
    if Insert(lease.epochs, e).Some? {
      InsertReaches(lease.epochs, e);
      ListsAreBounded(s, c);
      ReachedIs(lease.path.checkpoints, e.through);
      NoReach();
      hide Noted, Kept, Insert, Front, WithRefs, Reached, Reach, HasRoom;
      forall j, key | Refers(n.leases, key, j)
        ensures j in Ids(n.prefix, key)
      {
        WithRefsAdds(s, n.leases, c, Reached(lease.path.checkpoints, e.through), id, now, key);
        if j != id || key.ordinal > e.through {
          assert Refers(s.leases, key, j);
        }
      }
    }
  }

  lemma LeasePathAscends(w: Setting, run: Run, s: Index, id: nat)
    requires Backed(w, run, s) && PathsAscend(run) && id in s.leases
    ensures OrdinalsAscend(s.leases[id].path.checkpoints)
  {
    assert Named(w, run, id, s.leases[id]);
  }

  lemma {:induction false} RunsAreComplete(w: Setting, run: Run)
    requires ValidConfig(w.config) && Uncrowded(w, run) && PathsAscend(run)
    ensures Complete(IndexAfter(w, run))
  {
    if run != [] {
      var front, t := run[..|run| - 1], run[|run| - 1];
      var s := IndexAfter(w, front);
      RunsAreComplete(w, front);
      UncrowdedReturns(w, front);
      RunsKeep(w, front);
      RunsAreBacked(w, front);
      RoomyDoesNotEvict(w, s, t);
      assert PathsAscend(front);
      hide Kept, Backed, Complete, Noted, Expired, Observe, Uncrowded, Returns, OrdinalsAscend, Reached;
      match t.step
      case Observes(path, domain, e) =>
        var id := w.idOf(domain, path);
        if Evidences(w, t, id) {
          if id in s.leases {
            LeasePathAscends(w, front, s, id);
          }
          assert run[|run| - 1].step.Observes?;
          NotedIsComplete(s, w.config, id, domain, path, e, t.now);
        }
      case Expires => ExpiredIsComplete(s, w.config, t.now);
    }
  }

  // ---------------------------------------------------------------- coverage

  /** Some observation so far is evidence that the lease holds the checkpoint at the time. */
  predicate Evidenced(w: Setting, run: Run, id: nat, ordinal: nat, at: int) {
    exists i :: 0 <= i < |run| && Evidences(w, run[i], id) && run[i].step.evidence.through >= ordinal
                && run[i].step.evidence.expires > at
  }

  lemma EvidencedLater(w: Setting, run: Run, t: Timed<Step>, id: nat, ordinal: nat, at: int)
    ensures Evidenced(w, run + [t], id, ordinal, at)
            <==> Evidenced(w, run, id, ordinal, at)
                 || (Evidences(w, t, id) && t.step.evidence.through >= ordinal && t.step.evidence.expires > at)
  {
    hide Evidences;
    var more := run + [t];
    assert more[|run|] == t && forall i :: 0 <= i < |run| ==> more[i] == run[i];
  }

  lemma NextCovers(w: Setting, s: Index, t: Timed<Step>, id: nat, ordinal: nat, at: int)
    requires Kept(s, w.config) && Roomy(w, s, t) && t.now <= at
    ensures Covers(EpochsOf(Next(w, s, t), id), ordinal, at)
            <==> Covers(EpochsOf(s, id), ordinal, at)
                 || (Evidences(w, t, id) && t.step.evidence.through >= ordinal && t.step.evidence.expires > at)
  {
    RoomyDoesNotEvict(w, s, t);
    match t.step
    case Observes(path, domain, e) =>
      var mine := w.idOf(domain, path);
      if Evidences(w, t, mine) {
        NotedIs(s, w.config, mine, domain, path, e, t.now);
        InsertCovers(LeaseFor(s, mine, domain, path).epochs, e, ordinal, at);
      }
      hide Noted, Kept, Covers, Insert, Front, Observe, Roomy, ValidEvidence;
    case Expires =>
      if id in s.leases {
        assert LeaseKept(s.expiry, id, s.leases[id]);
        RefreshedIs(s.leases[id], t.now);
        ExpireCovers(s.leases[id].epochs, t.now);
        hide Kept, Covers, Expire, Front, Roomy, Unexpired;
        assert Unexpired(s.leases[id].epochs, t.now) == [] ==> EpochsOf(Expired(s, t.now), id) == [];
      }
  }

  /** The epochs of a lease cover a checkpoint, now or at any later time, exactly when some
    * observation of the run is evidence for it. */
  lemma {:induction false} CoverageIsHistory(w: Setting, run: Run, id: nat, ordinal: nat, at: int)
    requires ValidConfig(w.config) && Uncrowded(w, run) && ClockRuns(run)
    requires run != [] ==> run[|run| - 1].now <= at
    ensures Covers(EpochsOf(IndexAfter(w, run), id), ordinal, at) <==> Evidenced(w, run, id, ordinal, at)
  {
    if run == [] {
      hide Evidences, Next;
    } else {
      var front, t := run[..|run| - 1], run[|run| - 1];
      assert front != [] ==> front[|front| - 1].now <= t.now;
      assert ClockRuns(front) && Uncrowded(w, front) && Roomy(w, IndexAfter(w, front), t) && t.now <= at;
      assert IndexAfter(w, run) == Next(w, IndexAfter(w, front), t);
      FrontAndLast(run);
      hide *;
      CoverageIsHistory(w, front, id, ordinal, at);
      UncrowdedReturns(w, front);
      RunsKeep(w, front);
      NextCovers(w, IndexAfter(w, front), t, id, ordinal, at);
      EvidencedLater(w, front, t, id, ordinal, at);
    }
  }

  // ---------------------------------------------------------------- lookup against the scan

  lemma HitIsCovered(w: Setting, run: Run, key: PrefixKey, eligible: set<CacheDomain>, now: int, i: nat)
    requires ValidConfig(w.config) && Uncrowded(w, run) && ClockRuns(run) && (run != [] ==> run[|run| - 1].now <= now)
    requires i < |run| && Hits(w, run[i], key, eligible, now)
    ensures Covers(EpochsOf(IndexAfter(w, run), w.idOf(run[i].step.domain, run[i].step.path)), key.ordinal, now)
  {
    var id := w.idOf(run[i].step.domain, run[i].step.path);
    hide IndexAfter, Uncrowded, Covers;
    CoverageIsHistory(w, run, id, key.ordinal, now);
    assert Evidenced(w, run, id, key.ordinal, now);
  }

  lemma CoveredIsOffered(s: Index, key: PrefixKey, eligible: set<CacheDomain>, now: int, id: nat)
    requires Complete(s) && id in s.leases && s.leases[id].domain in eligible && key in s.leases[id].path.checkpoints
    requires Covers(s.leases[id].epochs, key.ordinal, now)
    ensures id in Ids(s.prefix, key) && Offer(s, eligible, key, id, now).Some?
  {
    ReachIs(s.leases[id].epochs);
    hide Reach;
    assert Refers(s.leases, key, id);
  }

  /** An observation the scan finds is offered by a candidate listed at the key. */
  lemma HitIsOffered(w: Setting, run: Run, key: PrefixKey, eligible: set<CacheDomain>, now: int, i: nat)
    requires ValidConfig(w.config) && Uncrowded(w, run) && ClockRuns(run) && PathsAscend(run) && IdsIdentify(w, run)
    requires run != [] ==> run[|run| - 1].now <= now
    requires i < |run| && Hits(w, run[i], key, eligible, now)
    ensures var s, id := IndexAfter(w, run), w.idOf(run[i].step.domain, run[i].step.path);
            id in Ids(s.prefix, key) && Offer(s, eligible, key, id, now).Some?
  {
    var s, id := IndexAfter(w, run), w.idOf(run[i].step.domain, run[i].step.path);
    UncrowdedReturns(w, run);
    RunsAreBacked(w, run);
    RunsAreComplete(w, run);
    HitIsCovered(w, run, key, eligible, now, i);
    hide IndexAfter, Uncrowded, Returns, Complete, Backed, IdsIdentify, PathsAscend, Offer;
    assert id in s.leases;
    LeaseOf(w, run, s, id, i);
    CoveredIsOffered(s, key, eligible, now, id);
  }

  lemma OfferedIffHit(w: Setting, run: Run, key: PrefixKey, eligible: set<CacheDomain>, now: int)
    requires ValidConfig(w.config) && Uncrowded(w, run) && ClockRuns(run) && PathsAscend(run) && IdsIdentify(w, run)
    requires run != [] ==> run[|run| - 1].now <= now
    ensures var s := IndexAfter(w, run);
            BestOffer(s, eligible, key, Ids(s.prefix, key), now).Some? <==> HitAt(w, run, key, eligible, now)
  {
    UncrowdedReturns(w, run);
    var s := IndexAfter(w, run);
    hide IndexAfter, Uncrowded, Returns, Hits, IdsIdentify, PathsAscend, Offer;
    var best := BestOffer(s, eligible, key, Ids(s.prefix, key), now);
    if best.Some? {
      var i := OfferIsBacked(w, run, eligible, key, best.value.id, now);
    } else if HitAt(w, run, key, eligible, now) {
      var i :| 0 <= i < |run| && Hits(w, run[i], key, eligible, now);
      HitIsOffered(w, run, key, eligible, now, i);
    }
  }

  /** While no key has overflowed and no lease was evicted, with a clock that does not go back
    * and ids that identify leases, a lookup matches exactly when a scan of all observations
    * finds one, and at the deepest checkpoint at which it does. */
  lemma {:induction false} LookupIsScan(w: Setting, run: Run, eligible: set<CacheDomain>, keys: seq<PrefixKey>,
                                        now: int)
    requires ValidConfig(w.config) && Uncrowded(w, run) && ClockRuns(run) && PathsAscend(run) && IdsIdentify(w, run)
    requires run != [] ==> run[|run| - 1].now <= now
    ensures var m := Lookup(IndexAfter(w, run), eligible, keys, now);
            && (m.Some? <==> exists j :: 0 <= j < |keys| && HitAt(w, run, keys[j], eligible, now))
            && (m.Some? ==>
                  exists j :: DeepestHit(w, run, eligible, keys, now, j) && m.value.checkpoint == keys[j].ordinal
                              && m.value.bytes == keys[j].length)
  {
    hide IndexAfter, Uncrowded, HitAt, IdsIdentify, PathsAscend;
    if keys != [] {
      var front, key := keys[..|keys| - 1], keys[|keys| - 1];
      OfferedIffHit(w, run, key, eligible, now);
      if !HitAt(w, run, key, eligible, now) {
        LookupIsScan(w, run, eligible, front, now);
        assert forall j :: 0 <= j < |front| ==> front[j] == keys[j];
        var m := Lookup(IndexAfter(w, run), eligible, front, now);
        if m.Some? {
          var j :| DeepestHit(w, run, eligible, front, now, j) && m.value.checkpoint == front[j].ordinal
                   && m.value.bytes == front[j].length;
          assert DeepestHit(w, run, eligible, keys, now, j);
        }
      } else {
        assert DeepestHit(w, run, eligible, keys, now, |keys| - 1);
      }
    }
  }

  /** The scan finds something at this checkpoint and at no deeper one. */
  predicate DeepestHit(w: Setting, run: Run, eligible: set<CacheDomain>, keys: seq<PrefixKey>, now: int, j: int) {
    && 0 <= j < |keys| && HitAt(w, run, keys[j], eligible, now)
    && forall k :: j < k < |keys| ==> !HitAt(w, run, keys[k], eligible, now)
  }
}
