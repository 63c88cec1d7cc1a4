/** How long a circuit keeps traffic away from a target that failed. */
module CircuitBackoff {
  import opened Prelude
  import opened Failure
  import opened Circuit
  import opened CircuitRuns

  // ---------------------------------------------------------------- the delays

  /** The milliseconds to wait after so many failures of one class in a row. */
  function Wait(c: FailureClass, failures: nat): nat {
    if c == ProviderCapacity then (if failures <= 1 then 5_000 else if failures == 2 then 30_000 else 300_000)
    else if c == ProviderQuota then (if failures <= 1 then 60_000 else if failures == 2 then 300_000 else 900_000)
    else if c == ProviderBilling then 3_600_000
    else if NeedsCare(c) then (if failures <= 1 then 300_000 else if failures == 2 then 1_800_000 else 3_600_000)
    else if failures <= 1 then 1_000
    else if failures <= 6 then 2 * Wait(c, failures - 1)
    else 60_000
  }

  function LongestWait(c: FailureClass): nat { Wait(c, 7) }

  /** The classes for which the upstream may say how long to wait. */
  predicate MayAsk(c: FailureClass) {
    c == ProviderCapacity || c == ProviderQuota || c == ProviderTransient || c == StreamFailure
    || c == ProviderUnknown5xxOrTransport
  }

  function WaitOr(c: FailureClass, failures: nat, retryAfter: Option<nat>): nat {
    if MayAsk(c) && retryAfter.Some? then Min(retryAfter.value, LongestWait(c)) else Wait(c, failures)
  }

  lemma DoublesToAMinute(c: FailureClass)
    requires !c.ProviderCapacity? && !c.ProviderQuota? && !c.ProviderBilling? && !NeedsCare(c)
    ensures Wait(c, 1) == 1_000 && Wait(c, 2) == 2_000 && Wait(c, 3) == 4_000 && Wait(c, 4) == 8_000
    ensures Wait(c, 5) == 16_000 && Wait(c, 6) == 32_000 && forall n: nat :: n > 6 ==> Wait(c, n) == 60_000
  {
    assert Wait(c, 3) == 2 * Wait(c, 2);
    assert Wait(c, 4) == 2 * Wait(c, 3);
    assert Wait(c, 5) == 2 * Wait(c, 4);
    assert Wait(c, 6) == 2 * Wait(c, 5);
  }

  lemma ScheduleIsWait(c: FailureClass, level: nat)
    requires level < |ScheduleFor(c)|
    ensures ScheduleFor(c)[level] == Wait(c, level + 1)
    ensures forall n :: n > level == |ScheduleFor(c)| - 1 ==> Wait(c, n) == Wait(c, level + 1)
  {
    if !c.ProviderCapacity? && !c.ProviderQuota? && !c.ProviderBilling? && !NeedsCare(c) {
      DoublesToAMinute(c);
      hide Wait, NeedsCare;
    }
  }

  lemma ScheduleIsShort(c: FailureClass)
    ensures 0 < |ScheduleFor(c)| <= 7
  {
  }

  lemma LastIsLongest(c: FailureClass)
    ensures MaximumRetryDelay(c) == LongestWait(c)
  {
    hide ScheduleFor, Wait;
    ScheduleIsShort(c);
    ScheduleIsWait(c, |ScheduleFor(c)| - 1);
    assert Wait(c, 7) == Wait(c, |ScheduleFor(c)|);
  }

  lemma ScheduledIsWait(c: FailureClass, level: nat)
    ensures RetryDelay(c, level, None) == Wait(c, level + 1)
  {
    hide ScheduleFor, Wait, HonoursRetryAfter;
    ScheduleIsShort(c);
    ScheduleIsWait(c, Min(level, |ScheduleFor(c)| - 1));
  }

  /** The delays of the schedules are these waits. */
  lemma DelayIsWait(c: FailureClass, level: nat, retryAfter: Option<nat>)
    ensures RetryDelay(c, level, retryAfter) == WaitOr(c, level + 1, retryAfter)
  {
    hide ScheduleFor, Wait, MaximumRetryDelay, LongestWait;
    LastIsLongest(c);
    ScheduledIsWait(c, level);
  }

  /** The level of the backoff is the number of failures of the class so far, but for saturation. */
  lemma SaturationDoesNotMatter(c: FailureClass, failures: nat, retryAfter: Option<nat>)
    ensures WaitOr(c, Min(failures, U64_MAX) + 1, retryAfter) == WaitOr(c, failures + 1, retryAfter)
  {
  }

  // ---------------------------------------------------------------- until when a circuit declines

  predicate Unavailable(s: Snapshot) { s.mode == Open || s.mode == Suspended }

  /** Before the time every decision declines, and from then on it grants a probe. */
  ghost predicate OpensAt(s: Snapshot, due: int) {
    forall now: int ::
      if now < due then Decide(s, now).1 == Fallback(s.reason, false)
      else Decide(s, now).1 == Primary(Permit(s.generation, true))
  }

  lemma UnavailableOpens(s: Snapshot, due: int)
    requires Unavailable(s) && s.nextProbeAt == Some(due)
    ensures OpensAt(s, due)
  {
  }

  /** Whatever other steps do, without an accepted settlement, a probe or a restart. */
  predicate Quiet(states: seq<System>, steps: seq<Step>, i: nat, j: nat)
    requires |states| == |steps| + 1 && i <= j <= |steps|
  {
    forall k :: i <= k < j ==>
      !steps[k].Restarting? && !GrantsProbe(states[k], steps[k])
      && (IsSettlement(steps[k]) ==> states[k + 1].snapshot == states[k].snapshot)
  }

  lemma QuietStep(sys: System, step: Step)
    requires Enabled(sys, step) && !step.Restarting? && !GrantsProbe(sys, step)
    requires IsSettlement(step) ==> Next(sys, step).snapshot == sys.snapshot
    requires Unavailable(sys.snapshot)
    ensures Next(sys, step).snapshot == sys.snapshot
  {
  }

  lemma QuietAt(states: seq<System>, steps: seq<Step>, i: nat, j: nat, k: nat)
    requires |states| == |steps| + 1 && i <= k < j <= |steps| && Quiet(states, steps, i, j)
    ensures !steps[k].Restarting? && !GrantsProbe(states[k], steps[k])
    ensures IsSettlement(steps[k]) ==> states[k + 1].snapshot == states[k].snapshot
  {
    hide GrantsProbe, IsSettlement;
  }

  lemma QuietKeepsOne(states: seq<System>, steps: seq<Step>, i: nat, j: nat, k: nat)
    requires IsRun(states, steps) && i <= k < j <= |steps| && Quiet(states, steps, i, j)
    requires Unavailable(states[k].snapshot)
    ensures states[k + 1].snapshot == states[k].snapshot
  {
    StepAt(states, steps, k);
    QuietAt(states, steps, i, j, k);
    hide *;
    QuietStep(states[k], steps[k]);
  }

  lemma {:induction false} UnchangedThroughout(states: seq<System>, i: nat, j: nat)
    requires i <= j < |states| && Unavailable(states[i].snapshot)
    requires forall k :: i <= k < j && Unavailable(states[k].snapshot) ==> states[k + 1].snapshot == states[k].snapshot
    ensures states[j].snapshot == states[i].snapshot
  {
    hide Unavailable;
    if i < j {
      UnchangedThroughout(states, i, j - 1);
      assert Unavailable(states[j - 1].snapshot);
    }
  }

  lemma QuietKeepsSnapshot(states: seq<System>, steps: seq<Step>, i: nat, j: nat)
    requires IsRun(states, steps) && i <= j <= |steps| && Quiet(states, steps, i, j)
    requires Unavailable(states[i].snapshot)
    ensures states[j].snapshot == states[i].snapshot
  {
    assert |states| == |steps| + 1;
    hide *;
    forall k | i <= k < j && Unavailable(states[k].snapshot)
      ensures states[k + 1].snapshot == states[k].snapshot
    {
      QuietKeepsOne(states, steps, i, j, k);
    }
    UnchangedThroughout(states, i, j);
  }

  // ---------------------------------------------------------------- after a failure

  lemma FailureOpens(sys: System, step: Step)
    requires Inv(sys) && step.Failing? && IsTheTargets(step.class_) && Enabled(sys, step)
    requires Next(sys, step).snapshot != sys.snapshot
    ensures var next := Next(sys, step);
            && next.history == sys.history + [AttemptFailed(step.class_, step.now)]
            && Unavailable(next.snapshot)
            && next.snapshot.reason == Some(step.class_)
            && next.snapshot.nextProbeAt
               == Some(Min(step.now + WaitOr(step.class_, LatestRun(next.history), step.retryAfter), I64_MAX))
  {
    hide RetryDelay, WaitOr, Outage, LatestRun, Wait, ScheduleFor;
    var c, s := step.class_, sys.snapshot;
    var level := if s.reason == Some(c) then s.backoffLevel else 0;
    OutageGrows(sys.history, AttemptFailed(c, step.now));
    DelayIsWait(c, level, step.retryAfter);
    SaturationDoesNotMatter(c, LatestRun(sys.history), step.retryAfter);
    LevelCounts(s, sys.history, c, step.now);
    hide Reflects, Inv;
  }

  lemma LevelCounts(s: Snapshot, history: seq<Outcome>, c: FailureClass, now: int)
    requires Reflects(s, history)
    ensures var run := LatestRun(history + [AttemptFailed(c, now)]);
            && (s.reason == Some(c) ==>
                  s.backoffLevel == Min(LatestRun(history), U64_MAX) && run == LatestRun(history) + 1)
            && (s.reason != Some(c) ==> run == 1)
  {
    OutageGrows(history, AttemptFailed(c, now));
  }

  /** After an accepted failure, and as long as nothing else is accepted, no probe is granted and the
    * process does not restart, the target is declined for just the wait of its class, which grows
    * with the failures of that class in a row, or for what the upstream asked for; then it is probed. */
  lemma FailuresKeepTrafficAway(states: seq<System>, steps: seq<Step>, i: nat, j: nat)
    requires IsRun(states, steps) && i < j <= |steps| && Accepted(states, steps, i)
    requires steps[i].Failing? && IsTheTargets(steps[i].class_) && Quiet(states, steps, i + 1, j)
    ensures var wait := WaitOr(steps[i].class_, LatestRun(states[i + 1].history), steps[i].retryAfter);
            && OpensAt(states[j].snapshot, Min(steps[i].now + wait, I64_MAX))
            && states[j].snapshot.reason == Some(steps[i].class_)
  {
    StepAt(states, steps, i);
    FailureOpens(states[i], steps[i]);
    QuietKeepsSnapshot(states, steps, i + 1, j);
    hide WaitOr, LatestRun, IsRun, Next;
    UnavailableOpens(states[j].snapshot,
                     Min(steps[i].now + WaitOr(steps[i].class_, LatestRun(states[i + 1].history), steps[i].retryAfter),
                         I64_MAX));
  }

  lemma AbandonmentOpens(sys: System, step: Step)
    requires Inv(sys) && Enabled(sys, step) && Next(sys, step).snapshot != sys.snapshot
    requires step.Abandoning? || (step.Failing? && !IsTheTargets(step.class_))
    ensures var next := Next(sys, step);
            && Unavailable(next.snapshot)
            && next.snapshot.nextProbeAt == Some(Min(step.now + 1_000, I64_MAX))
  {
  }

  /** A probe that is given up, or that fails through no fault of the target, is followed by another
    * one second later. */
  lemma AbandonedProbesAreRepeated(states: seq<System>, steps: seq<Step>, i: nat, j: nat)
    requires IsRun(states, steps) && i < j <= |steps| && Accepted(states, steps, i)
    requires steps[i].Abandoning? || (steps[i].Failing? && !IsTheTargets(steps[i].class_))
    requires Quiet(states, steps, i + 1, j)
    ensures OpensAt(states[j].snapshot, Min(steps[i].now + 1_000, I64_MAX))
  {
    StepAt(states, steps, i);
    AbandonmentOpens(states[i], steps[i]);
    QuietKeepsSnapshot(states, steps, i + 1, j);
    hide IsRun, Next;
    UnavailableOpens(states[j].snapshot, Min(steps[i].now + 1_000, I64_MAX));
  }

  // ---------------------------------------------------------------- without an outage

  /** Before the first accepted failure and after a successful probe, until the next failure is
    * accepted, every decision grants a regular permit and changes nothing. */
  lemma HealthyTargetsAreUsed(states: seq<System>, steps: seq<Step>, i: nat, now: int)
    requires IsRun(states, steps) && i < |states|
    requires |states[i].history| > 0 ==> states[i].history[|states[i].history| - 1].ProbeSucceeded?
    ensures Decide(states[i].snapshot, now)
            == (states[i].snapshot, Primary(Permit(states[i].snapshot.generation, false)))
  {
    RunInvariant(states, steps, i);
    hide IsRun;
  }

  // ---------------------------------------------------------------- while a probe is out

  /** While a probe is out and its lease runs, every decision declines and tells to wait for it; when
    * the lease has lapsed another probe is granted. */
  lemma ProbesKeepTrafficAway(states: seq<System>, steps: seq<Step>, i: nat, now: int)
    requires IsRun(states, steps) && i < |steps| && GrantsProbe(states[i], steps[i])
    ensures var s, due := states[i + 1].snapshot, Min(steps[i].now + 600_000, I64_MAX);
            if now < due then Decide(s, now).1 == Fallback(s.reason, true)
            else Decide(s, now).1 == Primary(Permit(s.generation + 1, true))
  {
    StepAt(states, steps, i);
    hide IsRun;
  }

  // ---------------------------------------------------------------- after a restart

  lemma RestartOpens(sys: System, step: Step)
    requires Inv(sys) && step.Restarting? && Enabled(sys, step) && sys.disk.Some?
    ensures var (s, found) := (Next(sys, step).snapshot, sys.disk.value.snapshot);
            && (found.mode == HalfOpen ==> Unavailable(s) && s.nextProbeAt == Some(step.now))
            && (Unavailable(found) ==>
                  && s.mode == found.mode && s.reason == found.reason && found.reason.Some? && found.nextProbeAt.Some?
                  && s.nextProbeAt == Some(Min(found.nextProbeAt.value,
                                               Min(step.now + LongestWait(found.reason.value), I64_MAX))))
  {
    var found := sys.disk.value.snapshot;
    if found.reason.Some? {
      var c := found.reason.value;
      LastIsLongest(c);
    }
    hide Wait, WaitOr, ScheduleFor, Reflects, RetryDelay;
  }

  /** A restarted process probes at once what was being probed before. Otherwise it goes by the time
    * that is stored, but waits no longer than the longest wait of the class. */
  lemma RestartsKeepTheWait(states: seq<System>, steps: seq<Step>, i: nat)
    requires IsRun(states, steps) && i < |steps| && steps[i].Restarting? && states[i].disk.Some?
    ensures var (s, found) := (states[i + 1].snapshot, states[i].disk.value.snapshot);
            && (found.mode == HalfOpen ==> OpensAt(s, steps[i].now))
            && (Unavailable(found) ==>
                  && s.reason == found.reason && found.reason.Some? && found.nextProbeAt.Some?
                  && OpensAt(s, Min(found.nextProbeAt.value,
                                    Min(steps[i].now + LongestWait(found.reason.value), I64_MAX))))
  {
    StepAt(states, steps, i);
    RestartOpens(states[i], steps[i]);
    hide IsRun, Next, LongestWait, Inv;
    var (s, found) := (states[i + 1].snapshot, states[i].disk.value.snapshot);
    if found.mode == HalfOpen {
      UnavailableOpens(s, steps[i].now);
    } else if Unavailable(found) {
      UnavailableOpens(s, Min(found.nextProbeAt.value,
                              Min(steps[i].now + LongestWait(found.reason.value), I64_MAX)));
    }
  }
}
