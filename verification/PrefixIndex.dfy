/** The prefix index: leases by id, candidate leases by prefix key, and leases by expiry. */
module PrefixIndex {
  import opened Prelude
  import opened WarmEpochs

  datatype PrefixKey = PrefixKey(namespace: nat, ordinal: nat, length: nat, fingerprint: nat)

  datatype Path = Path(namespace: nat, checkpoints: seq<PrefixKey>, totalBytes: nat, finalFingerprint: nat)

  /** The names are given by their bytes. */
  datatype CacheDomain = CacheDomain(id: Bytes, generation: Bytes)

  datatype Lease = Lease(domain: CacheDomain, path: Path, epochs: seq<Epoch>, version: nat)

  datatype Config = Config(maxCandidates: nat, maxLeases: nat)

  predicate ValidConfig(c: Config) { c.maxCandidates > 0 && c.maxLeases > 0 }

  /** Lease ids are hash values of one width, here numbers in their order. */
  datatype Index = Index(leases: map<nat, Lease>, prefix: map<PrefixKey, seq<nat>>, expiry: set<(int, nat)>)

  const EMPTY_INDEX := Index(map[], map[], {})

  function Ids(prefix: map<PrefixKey, seq<nat>>, key: PrefixKey): seq<nat> { if key in prefix then prefix[key] else [] }

  // ---------------------------------------------------------------- references

  /** Whether a candidate's best epoch is worth less; a candidate without one is worth least. */
  predicate Weaker(leases: map<nat, Lease>, ordinal: nat, now: int, a: nat, b: nat) {
    var x := if a in leases then Best(leases[a].epochs, ordinal, now) else None;
    var y := if b in leases then Best(leases[b].epochs, ordinal, now) else None;
    y.Some? && (x.None? || Better(y.value, x.value)
                || (a < b && x.value.confidence == y.value.confidence && x.value.expires == y.value.expires
                    && x.value.through == y.value.through))
  }

  function Weakest(ids: seq<nat>, leases: map<nat, Lease>, ordinal: nat, now: int): (i: nat)
    requires ids != []
    ensures i < |ids|
  {
    if |ids| == 1 then 0
    else
      var i := Weakest(ids[..|ids| - 1], leases, ordinal, now);
      if Weaker(leases, ordinal, now, ids[|ids| - 1], ids[i]) then |ids| - 1 else i
  }

  /** Whether one candidate is worth less than another is a ranking. */
  lemma WeakerIsRanking(leases: map<nat, Lease>, ordinal: nat, now: int, a: nat, b: nat, c: nat)
    ensures Weaker(leases, ordinal, now, a, b) ==> !Weaker(leases, ordinal, now, b, a)
    ensures !Weaker(leases, ordinal, now, a, b) && !Weaker(leases, ordinal, now, b, c)
            ==> !Weaker(leases, ordinal, now, a, c)
  {
  }

  /** No candidate is worth less than the chosen one, and the ones before it are all worth more. */
  lemma {:induction false} WeakestIsWeakest(ids: seq<nat>, leases: map<nat, Lease>, ordinal: nat, now: int, k: nat)
    requires k < |ids|
    ensures var i := Weakest(ids, leases, ordinal, now);
            && !Weaker(leases, ordinal, now, ids[k], ids[i])
            && (k < i ==> Weaker(leases, ordinal, now, ids[i], ids[k]))
  {
    hide Weaker;
    var last := |ids| - 1;
    if last == 0 {
      WeakerIsRanking(leases, ordinal, now, ids[0], ids[0], ids[0]);
    } else {
      var i := Weakest(ids[..last], leases, ordinal, now);
      WeakerIsRanking(leases, ordinal, now, ids[last], ids[last], ids[i]);
      if k < last {
        WeakestIsWeakest(ids[..last], leases, ordinal, now, k);
        WeakerIsRanking(leases, ordinal, now, ids[last], ids[k], ids[i]);
        WeakerIsRanking(leases, ordinal, now, ids[last], ids[i], ids[k]);
        WeakerIsRanking(leases, ordinal, now, ids[k], ids[last], ids[i]);
      }
    }
  }

  /** The candidates of a key with one more, or without the weakest one if there are too many. */
  function Enlisted(known: seq<nat>, leases: map<nat, Lease>, ordinal: nat, id: nat, max: nat, now: int): seq<nat> {
    var ids := if id in known then known else known + [id];
    if |ids| <= max then ids
    else
      var i := Weakest(ids, leases, ordinal, now);
      ids[..i] + ids[i + 1..]
  }

  function WithRef(prefix: map<PrefixKey, seq<nat>>, leases: map<nat, Lease>, key: PrefixKey, id: nat, max: nat,
                   now: int)
    : map<PrefixKey, seq<nat>>
  {
    prefix[key := Enlisted(Ids(prefix, key), leases, key.ordinal, id, max, now)]
  }

  function WithRefs(prefix: map<PrefixKey, seq<nat>>, leases: map<nat, Lease>, keys: seq<PrefixKey>, id: nat, max: nat,
                    now: int): map<PrefixKey, seq<nat>>
  {
    if keys == [] then prefix
    else WithRef(WithRefs(prefix, leases, keys[..|keys| - 1], id, max, now), leases, keys[|keys| - 1], id, max, now)
  }

  /** The checkpoints up to the first one beyond the frontier. */
  function Reached(keys: seq<PrefixKey>, through: nat): seq<PrefixKey> {
    if keys == [] || keys[0].ordinal > through then [] else [keys[0]] + Reached(keys[1..], through)
  }

  function Dropping(ids: seq<nat>, id: nat): seq<nat> {
    if ids == [] then []
    else Dropping(ids[..|ids| - 1], id) + if ids[|ids| - 1] == id then [] else [ids[|ids| - 1]]
  }

  function WithoutRef(prefix: map<PrefixKey, seq<nat>>, key: PrefixKey, id: nat): map<PrefixKey, seq<nat>> {
    if key !in prefix then prefix
    else
      var ids := Dropping(prefix[key], id);
      if ids == [] then prefix - {key} else prefix[key := ids]
  }

  function WithoutRefs(prefix: map<PrefixKey, seq<nat>>, keys: seq<PrefixKey>, id: nat): map<PrefixKey, seq<nat>> {
    if keys == [] then prefix else WithoutRef(WithoutRefs(prefix, keys[..|keys| - 1], id), keys[|keys| - 1], id)
  }

  // ---------------------------------------------------------------- leases

  function RemoveLease(s: Index, id: nat): Index {
    if id !in s.leases then s
    else
      var lease := s.leases[id];
      var expiry := Expiry(lease.epochs);
      Index(s.leases - {id}, WithoutRefs(s.prefix, lease.path.checkpoints, id),
            if expiry.Some? then s.expiry - {(expiry.value, id)} else s.expiry)
  }

  predicate Before(a: (int, nat), b: (int, nat)) { a.0 < b.0 || (a.0 == b.0 && a.1 <= b.1) }

  lemma BeforeIsOrder(a: (int, nat), b: (int, nat), c: (int, nat))
    ensures Before(a, a) && (Before(a, b) || Before(b, a)) && (Before(a, b) && Before(b, c) ==> Before(a, c))
  {
  }

  lemma {:induction false} FirstOf(entries: set<(int, nat)>) returns (x: (int, nat))
    requires entries != {}
    ensures x in entries && forall y :: y in entries ==> Before(x, y)
  {
    hide Before;
    var a :| a in entries;
    var rest := entries - {a};
    if rest == {} {
      x := a;
      BeforeIsOrder(a, a, a);
      assert forall y :: y in entries ==> y == a || y in rest;
    } else {
      var b := FirstOf(rest);
      x := if Before(a, b) then a else b;
      forall y | y in entries
        ensures Before(x, y)
      {
        BeforeIsOrder(a, b, y);
        assert y == a || y in rest;
      }
    }
  }

  lemma FirstExists(entries: set<(int, nat)>)
    requires entries != {}
    ensures exists x :: x in entries && forall y :: y in entries ==> Before(x, y)
  {
    hide Before;
    var x := FirstOf(entries);
    assert x in entries && forall y :: y in entries ==> Before(x, y);
  }

  function First(entries: set<(int, nat)>): (x: (int, nat))
    requires entries != {}
    ensures x in entries && forall y :: y in entries ==> Before(x, y)
  {
    FirstExists(entries);
    var x :| x in entries && forall y :: y in entries ==> Before(x, y);
    x
  }

  /** Eviction of the leases that expire first. When the first entry names no live lease the
    * loop of the code makes no progress; `Stuck` says so and `Evict` stops there. */
  function Evict(s: Index, max: nat): Index
    decreases |s.leases|
  {
    if |s.leases| <= max || s.expiry == {} then s
    else
      var id := First(s.expiry).1;
      if id !in s.leases then s
      else
        assert |s.leases - {id}| < |s.leases| by { FewerLeases(s.leases, id); }
        Evict(RemoveLease(s, id), max)
  }

  lemma FewerLeases(leases: map<nat, Lease>, id: nat)
    requires id in leases
    ensures |leases - {id}| == |leases| - 1
  {
    assert leases == (leases - {id})[id := leases[id]];
  }

  predicate Stuck(s: Index, max: nat) { |s.leases| > max && s.expiry != {} && First(s.expiry).1 !in s.leases }

  // ---------------------------------------------------------------- observations

  function BumpVersion(version: nat): nat { Min(version + 1, U64_MAX) }

  function LeaseFor(s: Index, id: nat, domain: CacheDomain, path: Path): Lease {
    if id in s.leases then s.leases[id] else Lease(domain, path, [], 0)
  }

  predicate ValidEvidence(path: Path, e: Epoch) {
    path.checkpoints != [] && 0 < e.through <= path.checkpoints[|path.checkpoints| - 1].ordinal
  }

  /** The index after a new epoch was accepted, before evictions. */
  function Accepted(s: Index, c: Config, id: nat, lease: Lease, epochs: seq<Epoch>, e: Epoch, now: int): Index
    requires epochs != []
  {
    var before, updated := Expiry(lease.epochs), lease.(epochs := epochs, version := BumpVersion(lease.version));
    ExpiryIs(epochs);
    var leases := s.leases[id := updated];
    Index(leases,
          WithRefs(s.prefix, leases, Reached(lease.path.checkpoints, e.through), id, c.maxCandidates, now),
          (if before.Some? then s.expiry - {(before.value, id)} else s.expiry) + {(Expiry(epochs).value, id)})
  }

  lemma InsertIsNonempty(epochs: seq<Epoch>, e: Epoch)
    requires Front(epochs) && Insert(epochs, e).Some?
    ensures Insert(epochs, e).value != []
  {
    InsertCovers(epochs, e, 0, 0);
  }

  /** The index before evictions; evidence that is already covered changes nothing. */
  function Noted(s: Index, c: Config, id: nat, domain: CacheDomain, path: Path, e: Epoch, now: int): Index {
    var lease := LeaseFor(s, id, domain, path);
    var epochs := Insert(lease.epochs, e);
    if epochs.Some? && epochs.value != [] then Accepted(s, c, id, lease, epochs.value, e, now) else s
  }

  /** One observation. Out of range evidence is an error and expired evidence is ignored. */
  function Observe(s: Index, c: Config, id: nat, domain: CacheDomain, path: Path, e: Epoch, now: int): Index {
    if !ValidEvidence(path, e) || e.expires <= now then s else Evict(Noted(s, c, id, domain, path, e, now), c.maxLeases)
  }

  // ---------------------------------------------------------------- expiry

  function Refreshed(lease: Lease, now: int): Lease {
    if |Unexpired(lease.epochs, now)| == |lease.epochs| then lease
    else lease.(epochs := Expire(lease.epochs, now), version := BumpVersion(lease.version))
  }

  function BeyondReach(keys: seq<PrefixKey>, reach: nat): seq<PrefixKey> {
    if keys == [] then []
    else
      var last := keys[|keys| - 1];
      BeyondReach(keys[..|keys| - 1], reach) + if last.ordinal > reach then [last] else []
  }

  /** Expiry of one lease. A lease whose epochs have all expired is removed with its epochs
    * already dropped, so its entry in the expiry order stays behind. */
  function ExpireOne(s: Index, id: nat, now: int): Index
    requires id in s.leases
  {
    var lease := s.leases[id];
    var before := Expiry(lease.epochs);
    if before.None? then s
    else
      var left := Unexpired(lease.epochs, now);
      if left == [] then RemoveLease(s.(leases := s.leases[id := lease.(epochs := [])]), id)
      else if |left| == |lease.epochs| then s
      else
        var updated := Refreshed(lease, now);
        var after := Expiry(updated.epochs);
        Index(s.leases[id := updated],
              WithoutRefs(s.prefix, BeyondReach(lease.path.checkpoints, Reach(updated.epochs)), id),
              s.expiry - {(before.value, id)} + if after.Some? then {(after.value, id)} else {})
  }

  // ---------------------------------------------------------------- lookup

  datatype Match = Match(id: nat, domain: CacheDomain, checkpoint: nat, bytes: nat, epoch: Epoch)

  /** What a candidate offers at a key. */
  function Offer(s: Index, eligible: set<CacheDomain>, key: PrefixKey, id: nat, now: int): Option<Match> {
    if id !in s.leases || s.leases[id].domain !in eligible then None
    else
      var best := Best(s.leases[id].epochs, key.ordinal, now);
      if best.None? then None else Some(Match(id, s.leases[id].domain, key.ordinal, key.length, best.value))
  }

  predicate Outranks(a: Match, b: Match) {
    a.epoch.confidence.Rank() > b.epoch.confidence.Rank()
    || (a.epoch.confidence == b.epoch.confidence && a.epoch.expires > b.epoch.expires)
    || (a.epoch.confidence == b.epoch.confidence && a.epoch.expires == b.epoch.expires && a.id > b.id)
  }

  /** The best offer at a key. */
  function BestOffer(s: Index, eligible: set<CacheDomain>, key: PrefixKey, ids: seq<nat>, now: int): (m: Option<Match>)
    ensures m.Some? ==> m.value.id in ids && Offer(s, eligible, key, m.value.id, now) == m
    ensures m.None? ==> forall i :: 0 <= i < |ids| ==> Offer(s, eligible, key, ids[i], now).None?
  {
    if ids == [] then None
    else
      assert forall i :: 0 <= i < |ids| - 1 ==> ids[..|ids| - 1][i] == ids[i];
      var front := BestOffer(s, eligible, key, ids[..|ids| - 1], now);
      var last := Offer(s, eligible, key, ids[|ids| - 1], now);
      if last.Some? && (front.None? || !Outranks(front.value, last.value)) then last else front
  }

  lemma OutranksIsOrder(a: Match, b: Match, c: Match)
    ensures Outranks(a, b) ==> !Outranks(b, a)
    ensures !Outranks(a, b) && !Outranks(b, c) ==> !Outranks(a, c)
  {
  }

  /** No candidate's offer outranks the best offer. */
  lemma {:induction false} BestOfferIsBest(s: Index, eligible: set<CacheDomain>, key: PrefixKey, ids: seq<nat>,
                                           now: int,
                                           i: nat)
    requires i < |ids| && Offer(s, eligible, key, ids[i], now).Some?
    ensures BestOffer(s, eligible, key, ids, now).Some?
    ensures !Outranks(Offer(s, eligible, key, ids[i], now).value, BestOffer(s, eligible, key, ids, now).value)
  {
    hide Outranks, Offer;
    var front, last := BestOffer(s, eligible, key, ids[..|ids| - 1], now), Offer(s, eligible, key, ids[|ids| - 1], now);
    var offer := Offer(s, eligible, key, ids[i], now).value;
    if i < |ids| - 1 {
      assert ids[..|ids| - 1][i] == ids[i];
      BestOfferIsBest(s, eligible, key, ids[..|ids| - 1], now, i);
      if last.Some? {
        OutranksIsOrder(offer, front.value, last.value);
        OutranksIsOrder(front.value, last.value, offer);
      }
    } else {
      OutranksIsOrder(offer, offer, offer);
      if front.Some? {
        OutranksIsOrder(front.value, offer, offer);
      }
    }
  }

  /** The best offer at the deepest checkpoint that has one. */
  function Lookup(s: Index, eligible: set<CacheDomain>, keys: seq<PrefixKey>, now: int): Option<Match> {
    if keys == [] then None
    else
      var key := keys[|keys| - 1];
      var best := BestOffer(s, eligible, key, Ids(s.prefix, key), now);
      if best.Some? then best else Lookup(s, eligible, keys[..|keys| - 1], now)
  }

  // ---------------------------------------------------------------- what is believed most

  /** What the provider reported is preferred to a request that succeeded, and that to one that is
    * pending; among equals, what lasts longer. */
  predicate Preferred(a: Epoch, b: Epoch) {
    || (a.confidence == ProviderReported && b.confidence != ProviderReported)
    || (a.confidence == SuccessfulRequest && b.confidence == Pending)
    || (a.confidence == b.confidence && a.expires > b.expires)
  }

  predicate AsGood(a: Epoch, b: Epoch) { a.confidence == b.confidence && a.expires == b.expires }

  predicate Holds(leases: map<nat, Lease>, id: nat, ordinal: nat, now: int, e: Epoch) {
    id in leases && e in leases[id].epochs && e.through >= ordinal && e.expires > now
  }

  lemma PreferredIsNotWorse(e: Epoch, x: Epoch, y: Epoch)
    requires !Better(e, x) && !Better(x, y)
    ensures !Preferred(e, y) && (AsGood(e, y) ==> e.through <= y.through)
  {
  }

  /** A match is found at the deepest checkpoint that some eligible candidate holds, and of the
    * candidates there none holds it by a preferred epoch; among equals the lease with the largest id is taken. */
  lemma {:induction false} LookupPrefers(s: Index, eligible: set<CacheDomain>, keys: seq<PrefixKey>, now: int)
    returns (k: nat)
    requires Lookup(s, eligible, keys, now).Some?
    ensures var m := Lookup(s, eligible, keys, now).value;
            && k < |keys| && m.checkpoint == keys[k].ordinal && m.bytes == keys[k].length
            && m.id in Ids(s.prefix, keys[k]) && Holds(s.leases, m.id, keys[k].ordinal, now, m.epoch)
            && s.leases[m.id].domain == m.domain && m.domain in eligible
            && (forall id, e | id in Ids(s.prefix, keys[k]) && Holds(s.leases, id, keys[k].ordinal, now, e)
                               && s.leases[id].domain in eligible ::
                  !Preferred(e, m.epoch) && (AsGood(e, m.epoch) ==> id <= m.id))
            && (forall j, id, e | k < j < |keys| && id in Ids(s.prefix, keys[j])
                                  && Holds(s.leases, id, keys[j].ordinal, now, e) ::
                  s.leases[id].domain !in eligible)
  {
    var last := |keys| - 1;
    var key := keys[last];
    var ids := Ids(s.prefix, key);
    var best := BestOffer(s, eligible, key, ids, now);
    hide BestOffer, Best, Preferred, Better, Outranks;
    if best.Some? {
      k := last;
      forall id, e | id in ids && Holds(s.leases, id, key.ordinal, now, e) && s.leases[id].domain in eligible
        ensures !Preferred(e, best.value.epoch) && (AsGood(e, best.value.epoch) ==> id <= best.value.id)
      {
        OfferPrefers(s, eligible, key, ids, now, id, e);
      }
    } else {
      k := LookupPrefers(s, eligible, keys[..last], now);
      forall id, e | id in ids && Holds(s.leases, id, key.ordinal, now, e)
        ensures s.leases[id].domain !in eligible
      {
        if s.leases[id].domain in eligible {
          OfferPrefers(s, eligible, key, ids, now, id, e);
        }
      }
    }
  }

  lemma OfferPrefers(s: Index, eligible: set<CacheDomain>, key: PrefixKey, ids: seq<nat>, now: int, id: nat, e: Epoch)
    requires id in ids && Holds(s.leases, id, key.ordinal, now, e) && s.leases[id].domain in eligible
    ensures var best := BestOffer(s, eligible, key, ids, now); best.Some? && !Preferred(e, best.value.epoch)
    ensures var best := BestOffer(s, eligible, key, ids, now); AsGood(e, best.value.epoch) ==> id <= best.value.id
  {
    hide BestOffer, Better, Best, Preferred;
    var i :| 0 <= i < |ids| && ids[i] == id;
    HeldIsCovered(s.leases[id].epochs, key.ordinal, now, e);
    BestOfferIsBest(s, eligible, key, ids, now, i);
    var (offer, best) := (Offer(s, eligible, key, id, now).value, BestOffer(s, eligible, key, ids, now).value);
    UnrankedIsNotWorse(e, offer, best);
  }

  lemma HeldIsCovered(epochs: seq<Epoch>, ordinal: nat, now: int, e: Epoch)
    requires e in epochs && e.through >= ordinal && e.expires > now
    ensures Best(epochs, ordinal, now).Some? && !Better(e, Best(epochs, ordinal, now).value)
  {
    CoversByMember(epochs, ordinal, now);
    hide Better, Covers;
  }

  lemma UnrankedIsNotWorse(e: Epoch, x: Match, y: Match)
    requires !Better(e, x.epoch) && !Outranks(x, y)
    ensures !Preferred(e, y.epoch) && (AsGood(e, y.epoch) ==> x.id <= y.id)
  {
  }

  /** When a key has too many candidates and one that holds it is dropped, every other one holds it
    * too, by an epoch to which none of the dropped one is preferred, and which reaches as far as any that
    * is as good. */
  lemma DroppedIsNotPreferred(ids: seq<nat>, leases: map<nat, Lease>, ordinal: nat, now: int, k: nat, e: Epoch)
    returns (f: Epoch)
    requires k < |ids| && Holds(leases, ids[Weakest(ids, leases, ordinal, now)], ordinal, now, e)
    ensures Holds(leases, ids[k], ordinal, now, f)
    ensures forall g :: Holds(leases, ids[Weakest(ids, leases, ordinal, now)], ordinal, now, g) ==>
                          !Preferred(g, f) && (AsGood(g, f) ==> g.through <= f.through)
  {
    hide Better, Best, Weakest, Preferred;
    var i := ids[Weakest(ids, leases, ordinal, now)];
    WeakestIsWeakest(ids, leases, ordinal, now, k);
    HeldIsCovered(leases[i].epochs, ordinal, now, e);
    f := Best(leases[ids[k]].epochs, ordinal, now).value;
    forall g | Holds(leases, i, ordinal, now, g)
      ensures !Preferred(g, f) && (AsGood(g, f) ==> g.through <= f.through)
    {
      HeldIsCovered(leases[i].epochs, ordinal, now, g);
      PreferredIsNotWorse(g, Best(leases[i].epochs, ordinal, now).value, f);
    }
  }
}
