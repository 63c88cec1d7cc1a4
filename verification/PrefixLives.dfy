/** The lives of leases: in every run that returns, crowded or not, the epochs of a lease are those
  * its own observations and the expiries since it was last created leave. */
module PrefixLives {
  import opened Prelude
  import opened WarmEpochs
  import opened PrefixIndex
  import opened PrefixInvariant
  import opened PrefixExpiry
  import opened PrefixRuns

  /** What happened to the lease since it was last created; nothing when it is not live. */
  function LifeOf(w: Setting, run: Run, id: nat): seq<EpochStep> {
    if run == [] || id !in IndexAfter(w, run).leases then []
    else
      var front, t := run[..|run| - 1], run[|run| - 1];
      var before := LifeOf(w, front, id);
      match t.step
      case Observes(_, _, e) => if Evidences(w, t, id) then before + [Learns(e)] else before
      case Expires => before + [Forgets(t.now)]
  }

  lemma OneMoreEpochStep(steps: seq<EpochStep>, step: EpochStep)
    ensures EpochsAfter(steps + [step])
            == if step.Learns? then Insert(EpochsAfter(steps), step.evidence).GetOr(EpochsAfter(steps))
               else Expire(EpochsAfter(steps), step.now)
    ensures EpochsAfter([]) == []
  {
    hide Insert, Expire;
    assert (steps + [step])[..|steps|] == steps;
  }

  /** An observation changes the epochs of its own lease only, unless it evicts them. */
  lemma ObservationChanges(w: Setting, s: Index, t: Timed<Step>, id: nat)
    requires Kept(s, w.config) && t.step.Observes? && id in Next(w, s, t).leases
    ensures EpochsOf(Next(w, s, t), id)
            == if Evidences(w, t, id) then Insert(EpochsOf(s, id), t.step.evidence).GetOr(EpochsOf(s, id))
               else EpochsOf(s, id)
    ensures !Evidences(w, t, id) ==> id in s.leases
  {
    var mine, domain, path, e := w.idOf(t.step.domain, t.step.path), t.step.domain, t.step.path, t.step.evidence;
    if ValidEvidence(path, e) && e.expires > t.now {
      var n := Noted(s, w.config, mine, domain, path, e, t.now);
      NotedIs(s, w.config, mine, domain, path, e, t.now);
      EvictedOnly(n, w.config.maxLeases);
      hide Noted, Evict, Insert, Front, Kept;
    }
  }

  /** An expiry drops the expired epochs of every lease it leaves. */
  lemma ExpiryChanges(w: Setting, s: Index, t: Timed<Step>, id: nat)
    requires Kept(s, w.config) && t.step.Expires? && id in Next(w, s, t).leases
    ensures id in s.leases && EpochsOf(Next(w, s, t), id) == Expire(EpochsOf(s, id), t.now)
  {
    assert LeaseKept(s.expiry, id, s.leases[id]);
    RefreshedIs(s.leases[id], t.now);
    hide Expire, Unexpired, Front, Refreshed;
  }

  lemma NotLive(w: Setting, run: Run, id: nat)
    requires id !in IndexAfter(w, run).leases
    ensures LifeOf(w, run, id) == [] && EpochsAfter([]) == []
  {
  }

  lemma {:induction false} EpochsAreTheirLife(w: Setting, run: Run, id: nat)
    requires ValidConfig(w.config) && Returns(w, run)
    ensures EpochsOf(IndexAfter(w, run), id) == EpochsAfter(LifeOf(w, run, id))
  {
    if id !in IndexAfter(w, run).leases {
      NotLive(w, run, id);
    } else if run != [] {
      var front, t := run[..|run| - 1], run[|run| - 1];
      var s, before := IndexAfter(w, front), LifeOf(w, front, id);
      assert Returns(w, front) && IndexAfter(w, run) == Next(w, s, t);
      LifeGrows(w, run, id);
      RunsKeep(w, front);
      EpochsAreTheirLife(w, front, id);
      hide Next, EpochsAfter, EpochsOf, Kept, Insert, Expire, IndexAfter, Returns, Evidences, LifeOf;
      match t.step
      case Observes(_, _, e) =>
        ObservationChanges(w, s, t, id);
        OneMoreEpochStep(before, Learns(e));
      case Expires =>
        ExpiryChanges(w, s, t, id);
        OneMoreEpochStep(before, Forgets(t.now));
    }
  }

  lemma LifeGrows(w: Setting, run: Run, id: nat)
    requires run != [] && id in IndexAfter(w, run).leases
    ensures var t, before := run[|run| - 1], LifeOf(w, run[..|run| - 1], id);
            LifeOf(w, run, id)
            == if t.step.Expires? then before + [Forgets(t.now)]
               else if Evidences(w, t, id) then before + [Learns(t.step.evidence)] else before
  {
    hide IndexAfter, Evidences;
  }

  lemma {:induction false} LifeIsPast(w: Setting, run: Run, id: nat, at: int)
    requires ClockRuns(run) && (run != [] ==> run[|run| - 1].now <= at)
    ensures forall i :: 0 <= i < |LifeOf(w, run, id)| && LifeOf(w, run, id)[i].Forgets? ==>
              LifeOf(w, run, id)[i].now <= at
  {
    hide IndexAfter, Evidences;
    if run != [] {
      var front := run[..|run| - 1];
      assert front != [] ==> front[|front| - 1].now <= run[|run| - 1].now;
      LifeIsPast(w, front, id, at);
    }
  }

  /** In every run that returns, with a clock that does not go back, the epochs of a lease are a
    * front and cover a checkpoint, now or later, exactly when some observation accepted for it
    * since it was last created is evidence for it, whatever was evicted or crowded out. */
  lemma LeasesCoverTheirLife(w: Setting, run: Run, id: nat, ordinal: nat, at: int)
    requires ValidConfig(w.config) && Returns(w, run) && ClockRuns(run)
    requires run != [] ==> run[|run| - 1].now <= at
    ensures Front(EpochsOf(IndexAfter(w, run), id))
    ensures Covers(EpochsOf(IndexAfter(w, run), id), ordinal, at) <==> Taught(LifeOf(w, run, id), ordinal, at)
  {
    EpochsAreTheirLife(w, run, id);
    LifeIsPast(w, run, id, at);
    hide *;
    LeaseCoversItsEvidence(LifeOf(w, run, id), ordinal, at);
  }
}
