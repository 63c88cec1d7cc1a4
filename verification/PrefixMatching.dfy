/** What a match means for the prompts: fingerprints and the index together. */
module PrefixMatching {
  import opened Prelude
  import opened PrefixIndex
  import opened PrefixInvariant
  import opened PrefixRuns
  import opened PrefixCompleteness
  import opened Fingerprint

  /** A prompt in its namespace, and the fingerprinter's settings. */
  datatype Prompt = Prompt(namespace: Bytes, text: Bytes)

  datatype Fingerprinter = Fingerprinter(hash: Hash, interval: nat, max: nat)

  function PathOf(f: Fingerprinter, p: Prompt): Path
    requires f.interval > 0
  {
    PathFor(f.hash, p.namespace, p.text, f.interval, f.max)
  }

  /** Every path that was observed is the path of the prompt listed beside it. */
  predicate ObservedPrompts(f: Fingerprinter, run: Run, prompts: seq<Prompt>)
    requires f.interval > 0
  {
    && |prompts| == |run|
    && forall i :: 0 <= i < |run| && run[i].step.Observes? ==> IsObserved(f, run[i].step, prompts[i])
  }

  /** Lengths fit 64 bits. */
  predicate IsObserved(f: Fingerprinter, step: Step, p: Prompt)
    requires f.interval > 0 && step.Observes?
  {
    && step.path == PathOf(f, p) && |p.namespace| <= U64_MAX && |p.text| <= U64_MAX
    && |step.domain.id| <= U64_MAX && |step.domain.generation| <= U64_MAX
  }

  ghost function Hashed(prompts: seq<Prompt>): iset<Bytes> {
    iset p: Prompt, x: Bytes | p in prompts && x in Prefixes(p.namespace, p.text) :: x
  }

  ghost function LeasesHashed(run: Run): iset<Bytes> {
    iset i: nat | i < |run| && run[i].step.Observes? :: LeaseBytes(run[i].step.domain, run[i].step.path)
  }

  /** Leases are named by a keyed hash; digests have 128 bits, and no two inputs that occur have
    * the same one. */
  ghost predicate HashesTell(w: Setting, f: Fingerprinter, leaseHash: Hash, run: Run, prompts: seq<Prompt>) {
    && (forall d, p :: w.idOf(d, p) == LeaseId(leaseHash, d, p)) && (forall x: Bytes :: f.hash(x) < Power256(16))
    && CollisionFree(f.hash, Hashed(prompts)) && CollisionFree(leaseHash, LeasesHashed(run))
  }

  lemma PromptPathsAscend(f: Fingerprinter, run: Run, prompts: seq<Prompt>)
    requires f.interval > 0 && ObservedPrompts(f, run, prompts)
    ensures PathsAscend(run)
  {
    hide Keys, OrdinalsAscend;
    forall i | 0 <= i < |run| && run[i].step.Observes?
      ensures OrdinalsAscend(run[i].step.path.checkpoints)
    {
      OrdinalsCount(f.hash, prompts[i].namespace, prompts[i].text, f.interval, f.max);
    }
  }

  lemma CollisionFreeOfTwo(hash: Hash, prompts: seq<Prompt>, p: Prompt, q: Prompt)
    requires CollisionFree(hash, Hashed(prompts)) && p in prompts && q in prompts
    ensures CollisionFree(hash, Prefixes(p.namespace, p.text) + Prefixes(q.namespace, q.text))
  {
    hide Prefixes;
  }

  /** The id of a lease identifies its domain and path. */
  lemma HashesIdentify(w: Setting, f: Fingerprinter, leaseHash: Hash, run: Run, prompts: seq<Prompt>)
    requires f.interval > 0 && ObservedPrompts(f, run, prompts) && HashesTell(w, f, leaseHash, run, prompts)
    ensures IdsIdentify(w, run)
  {
    forall i, j | 0 <= i < |run| && 0 <= j < |run| && run[i].step.Observes? && run[j].step.Observes?
                  && w.idOf(run[i].step.domain, run[i].step.path) == w.idOf(run[j].step.domain, run[j].step.path)
      ensures run[i].step.domain == run[j].step.domain && run[i].step.path == run[j].step.path
    {
      hide LeaseBytes, Prefixes, Keys, Header, Power256, NamespaceHash;
      var a, b := run[i].step, run[j].step;
      assert LeaseBytes(a.domain, a.path) in LeasesHashed(run) && LeaseBytes(b.domain, b.path) in LeasesHashed(run);
      PathFits(f, a, prompts[i]);
      PathFits(f, b, prompts[j]);
      LeaseBytesAreUnambiguous(a.domain, a.path, b.domain, b.path);
      CollisionFreeOfTwo(f.hash, prompts, prompts[i], prompts[j]);
      FingerprintNamesPath(f.hash, prompts[i].namespace, prompts[i].text, prompts[j].namespace, prompts[j].text,
                           f.interval,
                           f.max);
    }
  }

  lemma PathFits(f: Fingerprinter, step: Step, p: Prompt)
    requires f.interval > 0 && step.Observes? && IsObserved(f, step, p) && forall x: Bytes :: f.hash(x) < Power256(16)
    ensures FitsLease(step.domain, step.path)
  {
    hide Keys, Header, Power256;
    assert f.hash(Header(p.namespace) + p.text) < Power256(16);
    assert f.hash(Domain() + NamespaceTag() + LittleEndian(|p.namespace|, 8) + p.namespace) < Power256(16);
  }

  /** While no key has overflowed and no lease was evicted, with a clock that does not go back, the
    * lookup of a prompt matches exactly when a scan of all observations finds one of its
    * checkpoints, and at the deepest one at which it does. */
  lemma PromptLookupIsScan(w: Setting, f: Fingerprinter, leaseHash: Hash, run: Run, prompts: seq<Prompt>, p: Prompt,
                           eligible: set<CacheDomain>, now: int)
    requires f.interval > 0 && ObservedPrompts(f, run, prompts) && HashesTell(w, f, leaseHash, run, prompts)
    requires ValidConfig(w.config) && Uncrowded(w, run) && ClockRuns(run) && (run != [] ==> run[|run| - 1].now <= now)
    ensures var keys := PathOf(f, p).checkpoints;
            var m := Lookup(IndexAfter(w, run), eligible, keys, now);
            && (m.Some? <==> exists j :: 0 <= j < |keys| && HitAt(w, run, keys[j], eligible, now))
            && (m.Some? ==>
                  exists j :: DeepestHit(w, run, eligible, keys, now, j) && m.value.checkpoint == keys[j].ordinal
                              && m.value.bytes == keys[j].length)
  {
    hide *;
    PromptPathsAscend(f, run, prompts);
    HashesIdentify(w, f, leaseHash, run, prompts);
    LookupIsScan(w, run, eligible, PathOf(f, p).checkpoints, now);
  }

  /** Without collisions, the matched bytes of a lookup are a true common prefix of the prompt and
    * of an observed prompt of the same namespace. */
  lemma MatchedBytesAreShared(w: Setting, f: Fingerprinter, leaseHash: Hash, run: Run, prompts: seq<Prompt>,
                              p: Prompt, eligible: set<CacheDomain>, now: int) returns (i: nat)
    requires f.interval > 0 && ObservedPrompts(f, run, prompts) && HashesTell(w, f, leaseHash, run, prompts)
    requires CollisionFree(f.hash, Hashed(prompts + [p])) && |p.namespace| <= U64_MAX
    requires ValidConfig(w.config) && Returns(w, run)
    requires Lookup(IndexAfter(w, run), eligible, PathOf(f, p).checkpoints, now).Some?
    ensures var m := Lookup(IndexAfter(w, run), eligible, PathOf(f, p).checkpoints, now).value;
            && i < |run| && run[i].step.Observes? && run[i].step.domain == m.domain && m.domain in eligible
            && m.epoch == run[i].step.evidence && now < m.epoch.expires
            && prompts[i].namespace == p.namespace && m.bytes <= |p.text| && m.bytes <= |prompts[i].text|
            && p.text[..m.bytes] == prompts[i].text[..m.bytes]
  {
    HashesIdentify(w, f, leaseHash, run, prompts);
    hide IndexAfter, Returns, IdsIdentify, Keys, Lookup, CollisionFree, HashesTell, Hashed, Prefixes;
    var keys := PathOf(f, p).checkpoints;
    var j: nat;
    i, j := MatchesAreBacked(w, run, eligible, keys, now);
    assert run[i].step.path == PathOf(f, prompts[i]);
    var k :| 0 <= k < |run[i].step.path.checkpoints| && run[i].step.path.checkpoints[k] == keys[j];
    assert (prompts + [p])[i] == prompts[i] && (prompts + [p])[|prompts|] == p;
    CollisionFreeOfTwo(f.hash, prompts + [p], p, prompts[i]);
    SharedKeyIsSharedPrefix(f.hash, p.namespace, p.text, prompts[i].namespace, prompts[i].text, f.interval, f.max, j,
                            k);
  }
}
