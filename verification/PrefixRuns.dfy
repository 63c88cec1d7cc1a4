/** Runs of the prefix index against the plain history of observations. */
module PrefixRuns {
  import opened Prelude
  import opened WarmEpochs
  import opened PrefixIndex
  import opened PrefixInvariant
  import opened PrefixExpiry

  datatype Step = Observes(path: Path, domain: CacheDomain, evidence: Epoch) | Expires

  type Run = seq<Timed<Step>>

  /** The index configuration and the keyed hash that names leases. */
  datatype Setting = Setting(config: Config, idOf: (CacheDomain, Path) -> nat)

  function Next(w: Setting, s: Index, t: Timed<Step>): Index {
    match t.step
    case Observes(path, domain, e) => Observe(s, w.config, w.idOf(domain, path), domain, path, e, t.now)
    case Expires => Expired(s, t.now)
  }

  function IndexAfter(w: Setting, run: Run): Index {
    if run == [] then EMPTY_INDEX else Next(w, IndexAfter(w, run[..|run| - 1]), run[|run| - 1])
  }

  function EpochsOf(s: Index, id: nat): seq<Epoch> { if id in s.leases then s.leases[id].epochs else [] }

  /** Every step of the run returned. */
  predicate Returns(w: Setting, run: Run) {
    run != [] ==> Returns(w, run[..|run| - 1]) && !Stuck(IndexAfter(w, run), w.config.maxLeases)
  }

  lemma {:induction false} RunsKeep(w: Setting, run: Run)
    requires ValidConfig(w.config) && Returns(w, run)
    ensures Kept(IndexAfter(w, run), w.config)
  {
    hide Kept, Observe, Expired, Stuck;
    if run == [] {
      EmptyKept(w.config);
    } else {
      var front, last := run[..|run| - 1], run[|run| - 1];
      RunsKeep(w, front);
      match last.step
      case Observes(path, domain, e) =>
        ObserveKeeps(IndexAfter(w, front), w.config, w.idOf(domain, path), domain, path, e, last.now);
      case Expires => ExpiredKeeps(IndexAfter(w, front), w.config, last.now);
    }
  }

  lemma EmptyKept(c: Config)
    ensures Kept(EMPTY_INDEX, c)
  {
  }

  // ---------------------------------------------------------------- history

  /** The observation was accepted as evidence for the lease. */
  predicate Evidences(w: Setting, t: Timed<Step>, id: nat) {
    t.step.Observes? && w.idOf(t.step.domain, t.step.path) == id && ValidEvidence(t.step.path, t.step.evidence)
    && t.step.evidence.expires > t.now
  }

  /** Lease ids identify what they were derived from, among the observations of the run. */
  predicate IdsIdentify(w: Setting, run: Run) {
    forall i, j :: 0 <= i < |run| && 0 <= j < |run| && run[i].step.Observes? && run[j].step.Observes?
                   && w.idOf(run[i].step.domain, run[i].step.path) == w.idOf(run[j].step.domain, run[j].step.path)
                   ==> run[i].step.domain == run[j].step.domain && run[i].step.path == run[j].step.path
  }

  /** Each epoch of a lease is the evidence of an observation of the lease's domain and path. */
  ghost predicate Backed(w: Setting, run: Run, s: Index) {
    && (forall id :: id in s.leases ==> Named(w, run, id, s.leases[id]))
    && (forall id, e :: id in s.leases && e in s.leases[id].epochs ==> Supported(w, run, id, e))
  }

  predicate Named(w: Setting, run: Run, id: nat, lease: Lease) {
    exists i :: 0 <= i < |run| && Evidences(w, run[i], id) && run[i].step.domain == lease.domain
                && run[i].step.path == lease.path
  }

  predicate Supported(w: Setting, run: Run, id: nat, e: Epoch) {
    exists i :: 0 <= i < |run| && Evidences(w, run[i], id) && run[i].step.evidence == e
  }

  lemma NamedLater(w: Setting, run: Run, t: Timed<Step>, id: nat, lease: Lease)
    requires Named(w, run, id, lease)
    ensures Named(w, run + [t], id, lease)
  {
    var i :| 0 <= i < |run| && Evidences(w, run[i], id) && run[i].step.domain == lease.domain
        && run[i].step.path == lease.path;
    assert (run + [t])[i] == run[i];
  }

  lemma SupportedLater(w: Setting, run: Run, t: Timed<Step>, id: nat, e: Epoch)
    requires Supported(w, run, id, e)
    ensures Supported(w, run + [t], id, e)
  {
    var i :| 0 <= i < |run| && Evidences(w, run[i], id) && run[i].step.evidence == e;
    assert (run + [t])[i] == run[i];
  }

  lemma BackedLater(w: Setting, run: Run, t: Timed<Step>, s: Index)
    requires Backed(w, run, s)
    ensures Backed(w, run + [t], s)
  {
    hide Named, Supported;
    forall id | id in s.leases
      ensures Named(w, run + [t], id, s.leases[id])
    {
      NamedLater(w, run, t, id, s.leases[id]);
    }
    forall id, e | id in s.leases && e in s.leases[id].epochs
      ensures Supported(w, run + [t], id, e)
    {
      SupportedLater(w, run, t, id, e);
    }
  }

  /** Fewer leases or epochs stay backed. */
  lemma BackedLess(w: Setting, run: Run, s: Index, r: Index)
    requires Backed(w, run, s)
    requires forall id :: id in r.leases ==> id in s.leases && r.leases[id].domain == s.leases[id].domain
                                             && r.leases[id].path == s.leases[id].path
                                             && forall e :: e in r.leases[id].epochs ==> e in s.leases[id].epochs
    ensures Backed(w, run, r)
  {
    hide Supported;
    forall id | id in r.leases
      ensures Named(w, run, id, r.leases[id])
    {
      assert Named(w, run, id, s.leases[id]);
    }
  }

  lemma NotedIs(s: Index, c: Config, id: nat, domain: CacheDomain, path: Path, e: Epoch, now: int)
    requires Kept(s, c)
    ensures var n := Noted(s, c, id, domain, path, e, now);
            var lease := LeaseFor(s, id, domain, path);
            && Front(lease.epochs)
            && (forall j :: j != id ==>
                  (j in n.leases <==> j in s.leases) && (j in s.leases ==> n.leases[j] == s.leases[j]))
            && id in n.leases && n.leases[id].domain == lease.domain && n.leases[id].path == lease.path
            && n.leases[id].epochs == Insert(lease.epochs, e).GetOr(lease.epochs)
  {
    var lease := LeaseFor(s, id, domain, path);
    assert id in s.leases ==> LeaseKept(s.expiry, id, s.leases[id]);
    if Insert(lease.epochs, e).Some? {
      InsertIsNonempty(lease.epochs, e);
      AcceptedLeases(s, c, id, lease, Insert(lease.epochs, e).value, e, now);
    } else {
      assert AnyDominates(lease.epochs, e);
    }
    hide Front, Accepted, Insert, Kept;
  }

  lemma InsertMembers(epochs: seq<Epoch>, e: Epoch)
    requires Front(epochs)
    ensures forall x :: x in Insert(epochs, e).GetOr(epochs) ==> x in epochs || x == e
  {
    if Insert(epochs, e).Some? {
      InsertIsFront(epochs, e);
    }
  }

  /** The last observation supports its own evidence, and names its own domain and path. */
  lemma LastSupports(w: Setting, run: Run, t: Timed<Step>, lease: Lease)
    requires t.step.Observes? && Evidences(w, t, w.idOf(t.step.domain, t.step.path))
    ensures var id := w.idOf(t.step.domain, t.step.path);
            && Supported(w, run + [t], id, t.step.evidence)
            && (t.step.domain == lease.domain && t.step.path == lease.path ==> Named(w, run + [t], id, lease))
  {
    assert (run + [t])[|run|] == t;
  }

  lemma NotedIsBacked(w: Setting, run: Run, s: Index, t: Timed<Step>)
    requires Kept(s, w.config) && Backed(w, run, s) && t.step.Observes?
    requires Evidences(w, t, w.idOf(t.step.domain, t.step.path))
    ensures var id := w.idOf(t.step.domain, t.step.path);
            Backed(w, run + [t], Noted(s, w.config, id, t.step.domain, t.step.path, t.step.evidence, t.now))
  {
    var id, domain, path, e := w.idOf(t.step.domain, t.step.path), t.step.domain, t.step.path, t.step.evidence;
    var n := Noted(s, w.config, id, domain, path, e, t.now);
    var lease := LeaseFor(s, id, domain, path);
    NotedIs(s, w.config, id, domain, path, e, t.now);
    InsertMembers(lease.epochs, e);
    BackedLater(w, run, t, s);
    LastSupports(w, run, t, lease);
    hide Named, Supported, Evidences, Noted, Insert, Front, Kept;
    forall j, x | j in n.leases && x in n.leases[j].epochs
      ensures Supported(w, run + [t], j, x)
    {
      if j != id {
        assert x in s.leases[j].epochs;
      }
    }
    NamedAlike(w, run + [t], n, s, id, lease);
  }

  lemma NamedAlike(w: Setting, run: Run, n: Index, s: Index, id: nat, lease: Lease)
    requires forall j :: j in s.leases ==> Named(w, run, j, s.leases[j])
    requires id in s.leases ==> lease == s.leases[id]
    requires id !in s.leases ==> Named(w, run, id, lease)
    requires forall j :: j != id && j in n.leases ==> j in s.leases && n.leases[j] == s.leases[j]
    requires id in n.leases && n.leases[id].domain == lease.domain && n.leases[id].path == lease.path
    ensures forall j :: j in n.leases ==> Named(w, run, j, n.leases[j])
  {
    assert Named(w, run, id, n.leases[id]) by {
      assert Named(w, run, id, lease);
    }
  }

  lemma StepIsBacked(w: Setting, run: Run, s: Index, t: Timed<Step>)
    requires Kept(s, w.config) && Backed(w, run, s)
    ensures Backed(w, run + [t], Next(w, s, t))
  {
    BackedLater(w, run, t, s);
    match t.step
    case Observes(path, domain, e) =>
      if ValidEvidence(path, e) && e.expires > t.now {
        var id := w.idOf(domain, path);
        NotedIsBacked(w, run, s, t);
        var n := Noted(s, w.config, id, domain, path, e, t.now);
        EvictedOnly(n, w.config.maxLeases);
        hide Noted, Evict, Backed;
        BackedLess(w, run + [t], n, Evict(n, w.config.maxLeases));
      }
    case Expires =>
      var x := Expired(s, t.now);
      forall id | id in x.leases
        ensures id in s.leases && x.leases[id].domain == s.leases[id].domain && x.leases[id].path == s.leases[id].path
        ensures forall e :: e in x.leases[id].epochs ==> e in s.leases[id].epochs
      {
        assert LeaseKept(s.expiry, id, s.leases[id]);
        RefreshedIs(s.leases[id], t.now);
        ExpireCovers(s.leases[id].epochs, t.now);
        hide Expire, Unexpired, Front;
      }
      hide Expired, Backed;
      BackedLess(w, run + [t], s, x);
  }

  lemma {:induction false} RunsAreBacked(w: Setting, run: Run)
    requires ValidConfig(w.config) && Returns(w, run)
    ensures Backed(w, run, IndexAfter(w, run))
  {
    hide Next, Stuck;
    if run != [] {
      var front, last := run[..|run| - 1], run[|run| - 1];
      RunsKeep(w, front);
      hide Backed;
      RunsAreBacked(w, front);
      StepIsBacked(w, front, IndexAfter(w, front), last);
      assert front + [last] == run;
    }
  }

  // ---------------------------------------------------------------- soundness

  /** An observation that a scan of the history would find for the key. */
  predicate Hits(w: Setting, t: Timed<Step>, key: PrefixKey, eligible: set<CacheDomain>, now: int) {
    t.step.Observes? && Evidences(w, t, w.idOf(t.step.domain, t.step.path)) && t.step.domain in eligible
    && key in t.step.path.checkpoints && key.ordinal <= t.step.evidence.through && t.step.evidence.expires > now
  }

  predicate HitAt(w: Setting, run: Run, key: PrefixKey, eligible: set<CacheDomain>, now: int) {
    exists i :: 0 <= i < |run| && Hits(w, run[i], key, eligible, now)
  }

  lemma LeaseOf(w: Setting, run: Run, s: Index, id: nat, i: nat)
    requires IdsIdentify(w, run) && Backed(w, run, s) && id in s.leases && i < |run| && Evidences(w, run[i], id)
    ensures run[i].step.domain == s.leases[id].domain && run[i].step.path == s.leases[id].path
  {
    assert Named(w, run, id, s.leases[id]);
  }

  /** What a candidate offers is the evidence of an unexpired observation of its own domain that
    * holds the key. */
  lemma OfferIsBacked(w: Setting, run: Run, eligible: set<CacheDomain>, key: PrefixKey, id: nat, now: int)
    returns (i: nat)
    requires ValidConfig(w.config) && Returns(w, run) && IdsIdentify(w, run)
    requires id in Ids(IndexAfter(w, run).prefix, key)
    requires Offer(IndexAfter(w, run), eligible, key, id, now).Some?
    ensures i < |run| && Hits(w, run[i], key, eligible, now)
    ensures var m := Offer(IndexAfter(w, run), eligible, key, id, now).value;
            m.domain == run[i].step.domain && m.epoch == run[i].step.evidence
  {
    var s := IndexAfter(w, run);
    RunsKeep(w, run);
    RunsAreBacked(w, run);
    NotListed(s, w.config, key, id);
    hide IndexAfter, Returns, Kept;
    var e := Best(s.leases[id].epochs, key.ordinal, now).value;
    assert Supported(w, run, id, e);
    i :| 0 <= i < |run| && Evidences(w, run[i], id) && run[i].step.evidence == e;
    LeaseOf(w, run, s, id, i);
  }

  /** Every match is backed by a real observation of the same domain, still unexpired, whose path
    * holds the matched checkpoint within its frontier. */
  lemma {:induction false} MatchesAreBacked(w: Setting, run: Run, eligible: set<CacheDomain>, keys: seq<PrefixKey>,
                                            now: int) returns (i: nat, j: nat)
    requires ValidConfig(w.config) && Returns(w, run) && IdsIdentify(w, run)
    requires Lookup(IndexAfter(w, run), eligible, keys, now).Some?
    ensures var m := Lookup(IndexAfter(w, run), eligible, keys, now).value;
            && i < |run| && j < |keys| && Hits(w, run[i], keys[j], eligible, now)
            && m.checkpoint == keys[j].ordinal && m.bytes == keys[j].length
            && m.domain == run[i].step.domain && m.epoch == run[i].step.evidence
  {
    hide IndexAfter, Returns, IdsIdentify, Hits;
    var key := keys[|keys| - 1];
    var s := IndexAfter(w, run);
    var best := BestOffer(s, eligible, key, Ids(s.prefix, key), now);
    if best.Some? {
      i := OfferIsBacked(w, run, eligible, key, best.value.id, now);
      j := |keys| - 1;
    } else {
      i, j := MatchesAreBacked(w, run, eligible, keys[..|keys| - 1], now);
    }
  }
}
