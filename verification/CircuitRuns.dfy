/** Whole runs of a circuit breaker: any interleaving of decisions, settlements, lost
  * permits, failing disk writes and process restarts. */
module CircuitRuns {
  import opened Prelude
  import opened Failure
  import opened Circuit

  /** What the circuit accepted: an attempt failure of some class, or a successful probe. */
  datatype Outcome = AttemptFailed(class_: FailureClass, at: int) | ProbeSucceeded

  /** The persisted snapshot, with the outcomes and the time of the transition that led to it. */
  datatype Saved = Saved(snapshot: Snapshot, history: seq<Outcome>, since: int)

  datatype System = System(
    snapshot: Snapshot,
    disk: Option<Saved>,
    permits: multiset<Permit>,  // granted and not yet given back
    clock: int,
    since: int,                 // time of the last transition
    history: seq<Outcome>)

  datatype Step =
    | Deciding(now: int, diskOk: bool)
    | Succeeding(permit: Permit, now: int, diskOk: bool)
    | Failing(permit: Permit, class_: FailureClass, retryAfter: Option<nat>, now: int, diskOk: bool)
    | Abandoning(permit: Permit, now: int, diskOk: bool)
    | Losing(permit: Permit, now: int)  // dropped where no runtime is left to settle it
    | Restarting(now: int)

  predicate IsSettlement(step: Step) { step.Succeeding? || step.Failing? || step.Abandoning? }

  predicate Enabled(sys: System, step: Step) {
    sys.clock <= step.now <= I64_MAX
    && (step.Deciding? || step.Restarting? || step.permit in sys.permits)
  }

  function Settled(sys: System, step: Step): Snapshot
    requires IsSettlement(step)
  {
    match step
    case Succeeding(p, _, _) => Success(sys.snapshot, p)
    case Failing(p, c, retryAfter, now, _) => Failed(sys.snapshot, p, c, retryAfter, now)
    case Abandoning(p, now, _) => Abandonment(sys.snapshot, p, now)
  }

  /** A failure of the target, not of the client, of this process or of one rejected request. */
  predicate IsTheTargets(c: FailureClass) {
    c != ClientRequest && c != ClientCancelled && c != LocalCapacity && c != ProviderAmbiguousRejection
  }

  /** The failures that need someone to look at the account or its configuration. */
  predicate NeedsCare(c: FailureClass) {
    c == ProviderAuth || c == ProviderBilling || c == ProviderConfiguration || c == ProviderUnknown4xx
  }

  function Recorded(step: Step): seq<Outcome>
    requires IsSettlement(step)
  {
    match step
    case Succeeding(_, _, _) => [ProbeSucceeded]
    case Failing(_, c, _, now, _) => if IsTheTargets(c) then [AttemptFailed(c, now)] else []
    case Abandoning(_, _, _) => []
  }

  function Next(sys: System, step: Step): System
    requires Enabled(sys, step)
  {
    match step
    case Deciding(now, diskOk) =>
      var (s, decision) := Decide(sys.snapshot, now);
      sys.(snapshot := s, clock := now,
           since := if s == sys.snapshot then sys.since else now,
           permits := if decision.Primary? then sys.permits + multiset{decision.permit} else sys.permits,
           disk := if diskOk && decision.Primary? && decision.permit.probe
                   then Some(Saved(s, sys.history, now)) else sys.disk)
    case Losing(p, now) => sys.(permits := sys.permits - multiset{p}, clock := now)
    case Restarting(now) =>
      var found := if sys.disk.Some? then Some(sys.disk.value.snapshot) else None;
      var history := if sys.disk.Some? then sys.disk.value.history else [];
      var s := Loaded(found, now);
      if s == found.GetOr(Healthy(0))
      then System(s, sys.disk, multiset{}, now, if sys.disk.Some? then sys.disk.value.since else now, history)
      else System(s, Some(Saved(s, history, now)), multiset{}, now, now, history)
    case _ =>
      var s := Settled(sys, step);
      if s == sys.snapshot then sys.(permits := sys.permits - multiset{step.permit}, clock := step.now)
      else
        var history := sys.history + Recorded(step);
        System(s, if step.diskOk then Some(Saved(s, history, step.now)) else sys.disk,
               sys.permits - multiset{step.permit}, step.now, step.now, history)
  }

  predicate Init(sys: System) {
    sys.snapshot == Healthy(0) && sys.disk.None? && sys.permits == multiset{} && sys.history == []
    && sys.since <= sys.clock
  }

  ghost predicate IsRun(states: seq<System>, steps: seq<Step>) {
    && |states| == |steps| + 1
    && Init(states[0])
    && forall i :: 0 <= i < |steps| ==> Enabled(states[i], steps[i]) && states[i + 1] == Next(states[i], steps[i])
  }

  // ---------------------------------------------------------------- what the history says

  /** The failures accepted since the last successful probe. */
  function Outage(history: seq<Outcome>): seq<Outcome> {
    if history == [] || history[|history| - 1].ProbeSucceeded? then []
    else Outage(history[..|history| - 1]) + [history[|history| - 1]]
  }

  /** The length of the longest run of equal classes the history ends with. */
  function LatestRun(history: seq<Outcome>): nat {
    var n := |history|;
    if n == 0 || history[n - 1].ProbeSucceeded? then 0
    else if n >= 2 && history[n - 2].AttemptFailed? && history[n - 2].class_ == history[n - 1].class_
    then LatestRun(history[..n - 1]) + 1
    else 1
  }

  /** The circuit state is a function of the accepted outcomes alone. */
  ghost predicate Reflects(s: Snapshot, history: seq<Outcome>) {
    var outage := Outage(history);
    && s.consecutiveFailures == Min(|outage|, U32_MAX)
    && s.backoffLevel == Min(LatestRun(history), U64_MAX)
    && (s.mode == Closed <==> outage == [])
    && (forall k :: 0 <= k < |outage| ==> outage[k].AttemptFailed? && IsTheTargets(outage[k].class_))
    && s.openedAt == (if outage == [] then None else Some(outage[0].at))
    && s.reason == (if outage == [] then None else Some(outage[|outage| - 1].class_))
    && (outage != [] ==> |history| > 0 && outage[|outage| - 1] == history[|history| - 1])
    && (s.mode == Suspended <==> s.mode != HalfOpen && outage != [] && NeedsCare(outage[|outage| - 1].class_))
  }

  // ---------------------------------------------------------------- invariant

  predicate Shaped(s: Snapshot) {
    match s.mode
    case Closed => s == Healthy(s.generation)
    case HalfOpen => s.probeInFlight && s.probeDeadline.Some? && s.reason.Some?
    case _ => !s.probeInFlight && s.probeDeadline.None? && s.nextProbeAt.Some? && s.reason.Some?
  }

  /** An unavailable circuit offers a probe within an hour of its last transition, and a
    * probe holds its lease at most ten minutes. */
  predicate Bounded(s: Snapshot, since: int) {
    match s.mode
    case Closed => true
    case HalfOpen => s.probeDeadline.Some? && s.probeDeadline.value <= since + 600_000
    case _ => s.nextProbeAt.Some? && s.nextProbeAt.value <= since + 3_600_000
  }

  /** A permit that still carries the current generation is a regular one of a closed circuit
    * or the single probe of a half-open one. */
  ghost predicate PermitsFit(sys: System) {
    && (forall p :: p in sys.permits ==> p.generation <= sys.snapshot.generation)
    && (Permit(sys.snapshot.generation, false) in sys.permits ==> sys.snapshot.mode == Closed)
    && (Permit(sys.snapshot.generation, true) in sys.permits ==> sys.snapshot.mode == HalfOpen)
    && sys.permits[Permit(sys.snapshot.generation, true)] <= 1
  }

  ghost predicate Inv(sys: System) {
    && Shaped(sys.snapshot)
    && Bounded(sys.snapshot, sys.since)
    && sys.since <= sys.clock
    && PermitsFit(sys)
    && Reflects(sys.snapshot, sys.history)
    && (sys.disk.Some? ==>
          && Shaped(sys.disk.value.snapshot) && Reflects(sys.disk.value.snapshot, sys.disk.value.history)
          && Bounded(sys.disk.value.snapshot, sys.disk.value.since) && sys.disk.value.since <= sys.clock)
  }

  lemma DecisionKeeps(s: Snapshot, since: int, history: seq<Outcome>, now: int)
    requires Shaped(s) && Bounded(s, since) && Reflects(s, history) && now <= I64_MAX
    ensures var next := Decide(s, now).0;
            Shaped(next) && Reflects(next, history) && Bounded(next, if next == s then since else now)
  {
    hide Outage, LatestRun;
    assert Shaped(AfterLapse(s, now)) && Reflects(AfterLapse(s, now), history);
  }

  lemma DecisionKeepsPermits(sys: System, step: Step)
    requires PermitsFit(sys) && Shaped(sys.snapshot) && step.Deciding? && Enabled(sys, step)
    ensures PermitsFit(Next(sys, step))
  {
    hide AddDurationMs;
  }

  lemma DecideKeeps(sys: System, step: Step)
    requires Inv(sys) && step.Deciding? && Enabled(sys, step)
    ensures Inv(Next(sys, step))
  {
    DecisionKeeps(sys.snapshot, sys.since, sys.history, step.now);
    DecisionKeepsPermits(sys, step);
    hide Decide, Reflects, PermitsFit, Shaped, Bounded;
  }

  lemma OutageGrows(history: seq<Outcome>, outcome: Outcome)
    ensures Outage(history + [outcome]) == if outcome.ProbeSucceeded? then [] else Outage(history) + [outcome]
    ensures LatestRun(history + [outcome]) ==
            if outcome.ProbeSucceeded? then 0
            else if |history| > 0 && history[|history| - 1].AttemptFailed?
                && history[|history| - 1].class_ == outcome.class_
            then LatestRun(history) + 1 else 1
  {
    assert (history + [outcome])[..|history|] == history;
  }

  lemma OpenedReflects(s: Snapshot, history: seq<Outcome>, c: FailureClass, retryAfter: Option<nat>, now: int)
    requires Shaped(s) && Reflects(s, history) && IsTheTargets(c)
    ensures Reflects(Opened(s, c, retryAfter, now), history + [AttemptFailed(c, now)])
  {
    OutageGrows(history, AttemptFailed(c, now));
    var outage := Outage(history);
    if outage == [] {
      assert |history| > 0 ==> history[|history| - 1].ProbeSucceeded?;
    }
  }

  lemma SettlementReflects(sys: System, step: Step)
    requires Inv(sys) && IsSettlement(step) && Enabled(sys, step) && Settled(sys, step) != sys.snapshot
    ensures Reflects(Settled(sys, step), sys.history + Recorded(step))
  {
    match step
    case Succeeding(_, _, _) => OutageGrows(sys.history, ProbeSucceeded);
    case Failing(p, c, retryAfter, now, _) =>
      if IsTheTargets(c) {
        OpenedReflects(sys.snapshot, sys.history, c, retryAfter, now);
      } else {
        assert sys.history + [] == sys.history;
      }
    case Abandoning(_, _, _) => assert sys.history + [] == sys.history;
  }

  lemma SettlementShapes(sys: System, step: Step)
    requires Inv(sys) && IsSettlement(step) && Enabled(sys, step) && Settled(sys, step) != sys.snapshot
    ensures Shaped(Settled(sys, step)) && Bounded(Settled(sys, step), step.now)
    ensures Settled(sys, step).generation == sys.snapshot.generation + 1
    ensures step.permit.generation == sys.snapshot.generation
  {
  }

  lemma SettlementKeepsPermits(sys: System, step: Step)
    requires PermitsFit(sys) && IsSettlement(step) && Enabled(sys, step)
    requires Settled(sys, step) != sys.snapshot ==>
               step.permit.generation == sys.snapshot.generation
               && Settled(sys, step).generation == sys.snapshot.generation + 1
    ensures PermitsFit(Next(sys, step))
  {
    hide Settled, Recorded;
  }

  lemma SettlementKeeps(sys: System, step: Step)
    requires Inv(sys) && IsSettlement(step) && Enabled(sys, step)
    ensures Inv(Next(sys, step))
  {
    if Settled(sys, step) != sys.snapshot {
      SettlementShapes(sys, step);
      SettlementReflects(sys, step);
    }
    SettlementKeepsPermits(sys, step);
    hide Settled, Recorded, Reflects, PermitsFit, Shaped, Bounded;
  }

  lemma RestartKeeps(sys: System, step: Step)
    requires Inv(sys) && step.Restarting? && Enabled(sys, step)
    ensures Inv(Next(sys, step))
  {
    if sys.disk.Some? {
      var s := Loaded(Some(sys.disk.value.snapshot), step.now);
      assert Shaped(s) && Reflects(s, sys.disk.value.history);
    }
  }

  lemma StepKeeps(sys: System, step: Step)
    requires Inv(sys) && Enabled(sys, step)
    ensures Inv(Next(sys, step))
  {
    if step.Deciding? {
      DecideKeeps(sys, step);
    } else if step.Restarting? {
      RestartKeeps(sys, step);
    } else if !step.Losing? {
      SettlementKeeps(sys, step);
    }
  }

  /** Every state of every run satisfies the invariant. */
  lemma {:induction false} RunInvariant(states: seq<System>, steps: seq<Step>, i: nat)
    requires IsRun(states, steps) && i < |states|
    ensures Inv(states[i])
  {
    if i > 0 {
      RunInvariant(states, steps, i - 1);
      StepKeeps(states[i - 1], steps[i - 1]);
    }
  }

  // ---------------------------------------------------------------- exclusive probes

  /** At most one outstanding probe permit is current, and while it is, no regular permit is. */
  lemma ProbeIsExclusive(states: seq<System>, steps: seq<Step>, i: nat, p: Permit)
    requires IsRun(states, steps) && i < |states|
    requires p in states[i].permits && p.generation == states[i].snapshot.generation
    ensures p.probe ==> states[i].permits[p] == 1 && states[i].snapshot.mode == HalfOpen
    ensures !p.probe ==> states[i].snapshot.mode == Closed
    ensures forall q :: q in states[i].permits && q.generation == p.generation ==> q == p
  {
    RunInvariant(states, steps, i);
  }

  /** Only a probe can close a circuit: the success of a regular permit never changes it. */
  lemma RegularSuccessChangesNothing(states: seq<System>, steps: seq<Step>, i: nat)
    requires IsRun(states, steps) && i < |steps| && steps[i].Succeeding? && !steps[i].permit.probe
    ensures states[i + 1].snapshot == states[i].snapshot && states[i + 1].history == states[i].history
  {
    RunInvariant(states, steps, i);
  }

  ghost predicate Accepted(states: seq<System>, steps: seq<Step>, i: nat)
    requires IsRun(states, steps) && i < |steps|
  {
    IsSettlement(steps[i]) && states[i + 1].snapshot != states[i].snapshot
  }

  lemma GenerationStep(sys: System, step: Step)
    requires Inv(sys) && Enabled(sys, step) && !step.Restarting?
    ensures sys.snapshot.generation <= Next(sys, step).snapshot.generation
  {
    if IsSettlement(step) && Settled(sys, step) != sys.snapshot {
      SettlementShapes(sys, step);
    }
  }

  lemma StepAt(states: seq<System>, steps: seq<Step>, i: nat)
    requires IsRun(states, steps) && i < |steps|
    ensures Inv(states[i]) && Enabled(states[i], steps[i]) && states[i + 1] == Next(states[i], steps[i])
  {
    RunInvariant(states, steps, i);
    hide Inv, Next, Init;
  }

  lemma {:induction false} GenerationsGrow(states: seq<System>, steps: seq<Step>, i: nat, j: nat)
    requires IsRun(states, steps) && i <= j < |states|
    requires forall k :: i <= k < j ==> !steps[k].Restarting?
    ensures states[i].snapshot.generation <= states[j].snapshot.generation
  {
    if i < j {
      StepAt(states, steps, j - 1);
      GenerationStep(states[j - 1], steps[j - 1]);
      assert |states| == |steps| + 1;
      hide *;
      GenerationsGrow(states, steps, i, j - 1);
    }
  }

  /** Each generation accepts at most one settlement in the life of a process: after one is
    * accepted, any other that carries its generation or an earlier one only gives its permit back. */
  lemma GenerationAcceptsOnce(states: seq<System>, steps: seq<Step>, i: nat, j: nat)
    requires IsRun(states, steps) && i < j < |steps|
    requires Accepted(states, steps, i) && IsSettlement(steps[j])
    requires forall k :: i < k < j ==> !steps[k].Restarting?
    ensures Accepted(states, steps, j) ==> steps[i].permit.generation < steps[j].permit.generation
    ensures steps[j].permit.generation <= steps[i].permit.generation ==>
              states[j + 1] == states[j].(permits := states[j].permits - multiset{steps[j].permit},
                                          clock := steps[j].now)
  {
    RunInvariant(states, steps, i);
    RunInvariant(states, steps, j);
    SettlementShapes(states[i], steps[i]);
    GenerationsGrow(states, steps, i + 1, j);
    if Settled(states[j], steps[j]) != states[j].snapshot {
      SettlementShapes(states[j], steps[j]);
    }
  }

  // ---------------------------------------------------------------- bounded outage

  /** Whatever Retry-After values arrived and however often the process restarted, a decision
    * an hour after the last transition is granted a permit; ten minutes suffice when a probe
    * is the reason for waiting. A restart that finds the stored snapshot usable as it is makes
    * no transition: the hour runs from the one that was stored. */
  lemma OutageEnds(states: seq<System>, steps: seq<Step>, i: nat, now: int)
    requires IsRun(states, steps) && i < |states|
    requires now >= states[i].since + if states[i].snapshot.mode == HalfOpen then 600_000 else 3_600_000
    ensures Decide(states[i].snapshot, now).1.Primary?
    ensures Decide(states[i].snapshot, now).1.permit.probe <==> states[i].snapshot.mode != Closed
  {
    RunInvariant(states, steps, i);
  }

  predicate GrantsProbe(sys: System, step: Step) {
    step.Deciding? && Decide(sys.snapshot, step.now).1.Primary? && Decide(sys.snapshot, step.now).1.permit.probe
  }

  lemma ProbeHoldsLease(sys: System, step: Step, deadline: int)
    requires Enabled(sys, step) && !step.Restarting?
    requires sys.snapshot.mode == HalfOpen && sys.snapshot.probeDeadline == Some(deadline)
    requires IsSettlement(step) ==> Settled(sys, step) == sys.snapshot
    ensures Next(sys, step).snapshot == sys.snapshot || (GrantsProbe(sys, step) && deadline <= step.now)
    ensures GrantsProbe(sys, step) ==> deadline <= step.now
  {
  }

  lemma {:induction false} LeaseRuns(states: seq<System>, steps: seq<Step>, i: nat, j: nat)
    requires IsRun(states, steps) && i < j < |states|
    requires GrantsProbe(states[i], steps[i])
    requires forall k :: i < k < j ==> !steps[k].Restarting? && !Accepted(states, steps, k)
    ensures states[j].clock >= AddDurationMs(steps[i].now, PROBE_LEASE_MS)
            || (states[j].snapshot.mode == HalfOpen
                && states[j].snapshot.probeDeadline == Some(AddDurationMs(steps[i].now, PROBE_LEASE_MS)))
  {
    if i + 1 < j {
      LeaseRuns(states, steps, i, j - 1);
      if states[j - 1].clock < AddDurationMs(steps[i].now, PROBE_LEASE_MS) {
        assert !Accepted(states, steps, j - 1);
        ProbeHoldsLease(states[j - 1], steps[j - 1], AddDurationMs(steps[i].now, PROBE_LEASE_MS));
      }
    }
  }

  /** Two probes granted with no accepted settlement and no restart between them are at least
    * one lease apart. */
  lemma ProbesAreALeaseApart(states: seq<System>, steps: seq<Step>, i: nat, j: nat)
    requires IsRun(states, steps) && i < j < |steps|
    requires GrantsProbe(states[i], steps[i]) && GrantsProbe(states[j], steps[j])
    requires forall k :: i < k < j ==> !steps[k].Restarting? && !Accepted(states, steps, k)
    ensures steps[j].now >= AddDurationMs(steps[i].now, PROBE_LEASE_MS)
  {
    LeaseRuns(states, steps, i, j);
    if states[j].clock < AddDurationMs(steps[i].now, PROBE_LEASE_MS) {
      ProbeHoldsLease(states[j], steps[j], AddDurationMs(steps[i].now, PROBE_LEASE_MS));
    }
  }

  // ---------------------------------------------------------------- history

  /** The counters, the reason, the start of the outage and the kind of unavailability depend
    * on nothing but the accepted outcomes: two reachable circuits that accepted the same
    * outcomes agree on all of them. */
  lemma OutcomesDetermineState(states: seq<System>, steps: seq<Step>, i: nat,
                               others: seq<System>, moves: seq<Step>, j: nat)
    requires IsRun(states, steps) && i < |states| && IsRun(others, moves) && j < |others|
    requires states[i].history == others[j].history
    ensures var s, t := states[i].snapshot, others[j].snapshot;
            && s.consecutiveFailures == t.consecutiveFailures && s.backoffLevel == t.backoffLevel
            && s.openedAt == t.openedAt && s.reason == t.reason
            && (s.mode == Closed <==> t.mode == Closed)
            && (s.mode != HalfOpen && t.mode != HalfOpen ==> s.mode == t.mode)
  {
    RunInvariant(states, steps, i);
    RunInvariant(others, moves, j);
  }

  /** Decisions (lease expiry included), abandonments, lost permits and failures that do not
    * concern the circuit leave the history, and so everything it determines, alone; an
    * accepted probe success empties the outage and an accepted failure extends it. */
  lemma OnlyOutcomesCount(states: seq<System>, steps: seq<Step>, i: nat)
    requires IsRun(states, steps) && i < |steps| && !steps[i].Restarting?
    ensures !Accepted(states, steps, i)
            || steps[i].Abandoning? || (steps[i].Failing? && !IsTheTargets(steps[i].class_))
            ==> states[i + 1].history == states[i].history
                && states[i + 1].snapshot.consecutiveFailures == states[i].snapshot.consecutiveFailures
                && states[i + 1].snapshot.backoffLevel == states[i].snapshot.backoffLevel
                && states[i + 1].snapshot.openedAt == states[i].snapshot.openedAt
                && states[i + 1].snapshot.reason == states[i].snapshot.reason
    ensures Accepted(states, steps, i) && steps[i].Succeeding?
            ==> Outage(states[i + 1].history) == [] && states[i + 1].snapshot.mode == Closed
    ensures Accepted(states, steps, i) && steps[i].Failing? && IsTheTargets(steps[i].class_)
            ==> Outage(states[i + 1].history) ==
                Outage(states[i].history) + [AttemptFailed(steps[i].class_, steps[i].now)]
  {
    RunInvariant(states, steps, i);
    RunInvariant(states, steps, i + 1);
    if Accepted(states, steps, i) {
      OutageGrows(states[i].history, ProbeSucceeded);
      if steps[i].Failing? {
        OutageGrows(states[i].history, AttemptFailed(steps[i].class_, steps[i].now));
      }
      assert states[i].history + [] == states[i].history;
    }
  }
}
