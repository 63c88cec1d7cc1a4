/** When the eviction loop ends: stale entries of the expiry order, how they arise, and a run
  * that never returns. */
module PrefixEviction {
  import opened Prelude
  import opened WarmEpochs
  import opened PrefixIndex
  import opened PrefixInvariant
  import opened PrefixExpiry
  import opened PrefixRuns

  /** Every entry of the expiry order is the current expiry of a live lease. */
  ghost predicate NoStale(s: Index) {
    forall x :: x in s.expiry ==> x.1 in s.leases && Expiry(s.leases[x.1].epochs) == Some(x.0)
  }

  lemma NotStuck(s: Index, max: nat)
    requires NoStale(s)
    ensures !Stuck(s, max)
  {
    hide Expiry;
  }

  lemma RemoveKeepsNoStale(s: Index, id: nat)
    requires NoStale(s)
    ensures NoStale(RemoveLease(s, id))
  {
    hide Expiry, WithoutRefs;
  }

  lemma {:induction false} EvictKeepsNoStale(s: Index, max: nat)
    requires NoStale(s)
    ensures NoStale(Evict(s, max))
    decreases |s.leases|
  {
    hide NoStale, RemoveLease;
    if |s.leases| > max && s.expiry != {} && First(s.expiry).1 in s.leases {
      var id := First(s.expiry).1;
      RemoveKeepsNoStale(s, id);
      FewerLeases(s.leases, id);
      RemovedLease(s, id);
      EvictKeepsNoStale(RemoveLease(s, id), max);
    }
  }

  lemma NotedKeepsNoStale(s: Index, c: Config, id: nat, domain: CacheDomain, path: Path, e: Epoch, now: int)
    requires Kept(s, c) && NoStale(s)
    ensures NoStale(Noted(s, c, id, domain, path, e, now))
  {
    var lease := LeaseFor(s, id, domain, path);
    assert id in s.leases ==> LeaseKept(s.expiry, id, s.leases[id]);
    hide Kept, Insert, WithRefs, Reached, Front, Expiry;
    assert id !in s.leases ==> lease.epochs == [];
    if Insert(lease.epochs, e).Some? && Insert(lease.epochs, e).value != [] {
      ExpiryIs(Insert(lease.epochs, e).value);
      AcceptedKeepsNoStale(s, c, id, lease, Insert(lease.epochs, e).value, e, now);
    }
  }

  lemma AcceptedKeepsNoStale(s: Index, c: Config, id: nat, lease: Lease, epochs: seq<Epoch>, e: Epoch, now: int)
    requires NoStale(s) && epochs != [] && Expiry(epochs).Some?
    requires if id in s.leases then lease == s.leases[id] else lease.epochs == []
    ensures NoStale(Accepted(s, c, id, lease, epochs, e, now))
  {
    hide WithRefs, Reached, Expiry;
  }

  /** Without stale entries an observation always returns, and leaves none. */
  lemma ObserveReturns(s: Index, c: Config, id: nat, domain: CacheDomain, path: Path, e: Epoch, now: int)
    requires Kept(s, c) && NoStale(s)
    ensures var o := Observe(s, c, id, domain, path, e, now);
            NoStale(o) && !Stuck(o, c.maxLeases)
  {
    hide Kept, NoStale, Noted, Evict, ValidEvidence, Stuck;
    NotedKeepsNoStale(s, c, id, domain, path, e, now);
    EvictKeepsNoStale(Noted(s, c, id, domain, path, e, now), c.maxLeases);
    NotStuck(Observe(s, c, id, domain, path, e, now), c.maxLeases);
  }

  /** Expiry leaves stale entries exactly when it removes a lease. */
  lemma ExpiryMakesStale(s: Index, c: Config, now: int)
    requires Kept(s, c) && NoStale(s)
    ensures NoStale(Expired(s, now)) <==> forall id :: id in s.leases ==> Survives(s.leases[id], now)
  {
    var e := Expired(s, now);
    forall id | id in s.leases
      ensures (id in e.leases <==> Survives(s.leases[id], now))
      ensures Survives(s.leases[id], now) ==> Expiry(e.leases[id].epochs) == Expiry(s.leases[id].epochs)
      ensures Expiry(s.leases[id].epochs).Some? && (Expiry(s.leases[id].epochs).value, id) in e.expiry
    {
      assert LeaseKept(s.expiry, id, s.leases[id]);
      RefreshedIs(s.leases[id], now);
      if Survives(s.leases[id], now) {
        ExpireKeepsExpiry(s.leases[id].epochs, now);
      }
      hide Expire, Unexpired, Front, Staying;
    }
    hide Expired, Expiry, Kept, Survives;
    assert e.expiry == s.expiry by { ExpiredEntries(s, now); }
    assert e.leases.Keys <= s.leases.Keys by { ExpiredEntries(s, now); }
  }

  lemma ExpiredEntries(s: Index, now: int)
    ensures Expired(s, now).expiry == s.expiry && Expired(s, now).leases.Keys <= s.leases.Keys
  {
  }

  // ---------------------------------------------------------------- exactly when a call hangs

  lemma InsertFirst(e: Epoch)
    ensures Insert([], e) == Some([e]) && Expiry([e]) == Some(e.expires) && Expiry([]) == None
  {
    assert [e][..0] == [];
    assert Without([], e) + [e] == [e];
    CompactKeepsFront([e]);
    hide Compact;
  }

  lemma FirstLease(s: Index, c: Config, id: nat, domain: CacheDomain, path: Path, e: Epoch, now: int)
    requires id !in s.leases
    ensures var n := Noted(s, c, id, domain, path, e, now);
            n.leases == s.leases[id := Lease(domain, path, [e], 1)] && n.expiry == s.expiry + {(e.expires, id)}
  {
    InsertFirst(e);
    hide Insert, WithRefs, Reached, Expiry;
  }

  lemma KnownLeaseFits(s: Index, c: Config, id: nat, domain: CacheDomain, path: Path, e: Epoch, now: int)
    requires Kept(s, c) && id in s.leases
    ensures |Noted(s, c, id, domain, path, e, now).leases| <= c.maxLeases
  {
    var lease := s.leases[id];
    hide Insert, Accepted, RefsKept, LeasesKept;
    var epochs := Insert(lease.epochs, e);
    if epochs.Some? && epochs.value != [] {
      AcceptedLeases(s, c, id, lease, epochs.value, e, now);
      var updated := lease.(epochs := epochs.value, version := BumpVersion(lease.version));
      assert s.leases[id := updated].Keys == s.leases.Keys;
      assert |s.leases[id := updated].Keys| == |s.leases.Keys|;
    }
  }

  lemma NewLeaseCounts(leases: map<nat, Lease>, id: nat, lease: Lease)
    requires id !in leases
    ensures |leases[id := lease]| == |leases| + 1
  {
    assert leases[id := lease].Keys == leases.Keys + {id};
  }

  /** The observation brings a new lease into a full index whose expiry order, with the new
    * entry, starts with an entry of no live lease. */
  predicate Hangs(s: Index, c: Config, id: nat, path: Path, e: Epoch, now: int) {
    && ValidEvidence(path, e) && e.expires > now && id !in s.leases && |s.leases| == c.maxLeases
    && var x := First(s.expiry + {(e.expires, id)}).1; x !in s.leases && x != id
  }

  /** Those are exactly the observations that never return: every round of their eviction loop
    * leaves the index as it is. */
  lemma ObserveHangsIff(s: Index, c: Config, id: nat, domain: CacheDomain, path: Path, e: Epoch, now: int)
    requires Kept(s, c) && ValidConfig(c)
    ensures Stuck(Observe(s, c, id, domain, path, e, now), c.maxLeases) <==> Hangs(s, c, id, path, e, now)
    ensures var o := Observe(s, c, id, domain, path, e, now);
            Stuck(o, c.maxLeases) ==>
              o == Noted(s, c, id, domain, path, e, now) && RemoveLease(o, First(o.expiry).1) == o
  {
    EvictionEnds(s, c, id, domain, path, e, now);
    if id in s.leases {
      KnownLeaseFits(s, c, id, domain, path, e, now);
    } else {
      FirstLease(s, c, id, domain, path, e, now);
      NewLeaseCounts(s.leases, id, Lease(domain, path, [e], 1));
    }
    hide Noted, RefsKept, LeasesKept;
  }

  lemma ReturnsUnlessItHangs(s: Index, c: Config, id: nat, domain: CacheDomain, path: Path, e: Epoch, now: int)
    requires Kept(s, c) && ValidConfig(c) && !Hangs(s, c, id, path, e, now)
    ensures !Stuck(Observe(s, c, id, domain, path, e, now), c.maxLeases)
  {
    hide *;
    ObserveHangsIff(s, c, id, domain, path, e, now);
  }

  // ---------------------------------------------------------------- a run that never returns

  function SmallPath(n: nat): Path { Path(0, [PrefixKey(0, 1, 128, n)], 128, n) }

  const SMALL := Setting(Config(1, 1), (domain: CacheDomain, path: Path) => path.finalFingerprint)

  const DOMAIN := CacheDomain([97], [49])

  function Until(expires: int): Epoch { Epoch(1, expires, 0, SuccessfulRequest) }

  lemma ExpiredAlone(s: Index, id: nat, lease: Lease, e: Epoch, now: int)
    requires s.leases == map[id := lease] && lease.epochs == [e] && e.expires <= now
    ensures Expired(s, now).leases == map[] && Expired(s, now).expiry == s.expiry
  {
    assert [e][..0] == [];
    assert Unexpired([], now) == [] && Unexpired([e], now) == [];
    hide Unexpired;
    assert !Survives(lease, now);
  }

  lemma EvictNothing(s: Index, max: nat)
    requires |s.leases| <= max
    ensures Evict(s, max) == s
  {
  }

  const FIRST := Timed(0, Observes(SmallPath(1), DOMAIN, Until(10)))
  const EXPIRY := Timed(20, Expires)
  const SECOND := Timed(20, Observes(SmallPath(2), DOMAIN, Until(30)))
  const THIRD := Timed(20, Observes(SmallPath(3), DOMAIN, Until(30)))

  lemma OneMore(w: Setting, run: Run, t: Timed<Step>)
    ensures IndexAfter(w, run + [t]) == Next(w, IndexAfter(w, run), t)
    ensures Returns(w, run) && !Stuck(IndexAfter(w, run + [t]), w.config.maxLeases) ==> Returns(w, run + [t])
  {
    hide Next, Stuck;
    assert (run + [t])[..|run|] == run;
  }

  lemma ObservesNew(s: Index, n: nat, expires: int, now: int)
    requires n !in s.leases && now < expires && |s.leases| <= 1
    ensures var o := Next(SMALL, s, Timed(now, Observes(SmallPath(n), DOMAIN, Until(expires))));
            var noted := Noted(s, SMALL.config, n, DOMAIN, SmallPath(n), Until(expires), now);
            && o == Evict(noted, 1) && (s.leases == map[] ==> o == noted)
            && noted.leases == s.leases[n := Lease(DOMAIN, SmallPath(n), [Until(expires)], 1)]
            && noted.expiry == s.expiry + {(expires, n)}
  {
    var noted := Noted(s, SMALL.config, n, DOMAIN, SmallPath(n), Until(expires), now);
    FirstLease(s, SMALL.config, n, DOMAIN, SmallPath(n), Until(expires), now);
    hide Noted, Evict;
    if s.leases == map[] {
      assert noted.leases == map[n := Lease(DOMAIN, SmallPath(n), [Until(expires)], 1)];
      EvictNothing(noted, 1);
    }
  }

  lemma AfterTwo()
    ensures var s := IndexAfter(SMALL, [FIRST, EXPIRY]);
            Returns(SMALL, [FIRST, EXPIRY]) && s.leases == map[] && s.expiry == {(10, 1)}
  {
    hide Noted, Evict, Expired, Stuck;
    OneMore(SMALL, [], FIRST);
    assert [] + [FIRST] == [FIRST] && [FIRST] + [EXPIRY] == [FIRST, EXPIRY];
    ObservesNew(EMPTY_INDEX, 1, 10, 0);
    var s := IndexAfter(SMALL, [FIRST]);
    Calm(s);
    OneMore(SMALL, [FIRST], EXPIRY);
    ExpiredAlone(s, 1, s.leases[1], Until(10), 20);
    Calm(IndexAfter(SMALL, [FIRST, EXPIRY]));
  }

  lemma AfterThree()
    ensures var s := IndexAfter(SMALL, [FIRST, EXPIRY, SECOND]);
            Returns(SMALL, [FIRST, EXPIRY, SECOND]) && s.leases.Keys == {2} && s.expiry == {(10, 1), (30, 2)}
  {
    AfterTwo();
    hide Noted, Evict, Returns, Stuck, IndexAfter;
    OneMore(SMALL, [FIRST, EXPIRY], SECOND);
    assert [FIRST, EXPIRY] + [SECOND] == [FIRST, EXPIRY, SECOND];
    ObservesNew(IndexAfter(SMALL, [FIRST, EXPIRY]), 2, 30, 20);
    var s := IndexAfter(SMALL, [FIRST, EXPIRY, SECOND]);
    assert s.leases.Keys == {2};
    assert |s.leases| == |s.leases.Keys|;
    Calm(s);
  }

  /** One lease expires and is removed, a second takes its place, and the observation of a third
    * finds the first one's entry at the head of the expiry order: that call never returns. */
  lemma StaleEntryHangs()
    ensures Returns(SMALL, [FIRST, EXPIRY, SECOND])
    ensures Stuck(IndexAfter(SMALL, [FIRST, EXPIRY, SECOND, THIRD]), SMALL.config.maxLeases)
  {
    AfterThree();
    hide Noted, Evict, Returns, Stuck, IndexAfter;
    OneMore(SMALL, [FIRST, EXPIRY, SECOND], THIRD);
    assert [FIRST, EXPIRY, SECOND] + [THIRD] == [FIRST, EXPIRY, SECOND, THIRD];
    var s := IndexAfter(SMALL, [FIRST, EXPIRY, SECOND]);
    assert |s.leases| == |s.leases.Keys|;
    ObservesNew(s, 3, 30, 20);
    var n := Noted(s, SMALL.config, 3, DOMAIN, SmallPath(3), Until(30), 20);
    assert n.leases.Keys == {2, 3} && n.expiry == {(10, 1), (30, 2), (30, 3)};
    HeadIsStale(n);
  }

  lemma Calm(s: Index)
    requires |s.leases| <= 1
    ensures !Stuck(s, 1)
  {
  }

  lemma HeadIsStale(n: Index)
    requires n.leases.Keys == {2, 3} && n.expiry == {(10, 1), (30, 2), (30, 3)}
    ensures Stuck(n, 1) && Evict(n, 1) == n
  {
    assert |n.leases| == |n.leases.Keys| == 2;
    assert (10, 1) in n.expiry;
    assert First(n.expiry) == (10, 1);
  }
}
