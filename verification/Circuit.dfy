/** The circuit breaker of one upstream target.
  *
  * Every method of the breaker runs under one mutex, so each is one atomic step. The first
  * half gives each step as a function on snapshots, the class assigns the fields of the
  * locked snapshot and is proved against those functions.
  */
module Circuit {
  import opened Prelude
  import opened Failure

  const ABANDONED_PROBE_RETRY_MS: nat := 1_000
  const PROBE_LEASE_MS: nat := 600_000

  datatype Mode = Closed | Open | HalfOpen | Suspended

  datatype Snapshot = Snapshot(
    mode: Mode,
    reason: Option<FailureClass>,
    openedAt: Option<int>,
    nextProbeAt: Option<int>,
    consecutiveFailures: nat,
    backoffLevel: nat,
    probeInFlight: bool,
    probeDeadline: Option<int>,
    generation: nat)

  /** The closed circuit a breaker starts from and a probe success returns to. */
  function Healthy(generation: nat): Snapshot {
    Snapshot(Closed, None, None, None, 0, 0, false, None, generation)
  }

  /** A permit to send one attempt upstream, stamped with the generation that granted it. */
  datatype Permit = Permit(generation: nat, probe: bool)

  datatype Decision =
    | Primary(permit: Permit)
    | Fallback(reason: Option<FailureClass>, waitsForProbe: bool)

  function AddDurationMs(now: int, delay: nat): int { Min(now + Min(delay, I64_MAX), I64_MAX) }

  function SaturatingIncrement(n: nat, limit: nat): nat { if n < limit then n + 1 else n }

  function UnavailableMode(reason: Option<FailureClass>): Mode {
    if reason.Some? && reason.value.Suspends() then Suspended else Open
  }

  function ScheduleFor(class_: FailureClass): seq<nat> {
    match class_
    case ProviderCapacity => [5_000, 30_000, 300_000]
    case ProviderQuota => [60_000, 300_000, 900_000]
    case ProviderBilling => [3_600_000]
    case ProviderAuth => [300_000, 1_800_000, 3_600_000]
    case ProviderConfiguration => [300_000, 1_800_000, 3_600_000]
    case ProviderUnknown4xx => [300_000, 1_800_000, 3_600_000]
    case _ => [1_000, 2_000, 4_000, 8_000, 16_000, 32_000, 60_000]
  }

  function MaximumRetryDelay(class_: FailureClass): nat {
    var schedule := ScheduleFor(class_);
    schedule[|schedule| - 1]
  }

  predicate HonoursRetryAfter(class_: FailureClass) {
    class_.ProviderCapacity? || class_.ProviderQuota? || class_.ProviderTransient?
    || class_.StreamFailure? || class_.ProviderUnknown5xxOrTransport?
  }

  /** The delay before the next probe. It never exceeds the last entry of the class's
    * schedule, whatever the upstream's Retry-After asked for. */
  function RetryDelay(class_: FailureClass, backoffLevel: nat, retryAfter: Option<nat>): (delay: nat)
    ensures delay <= MaximumRetryDelay(class_) <= 3_600_000
  {
    var schedule := ScheduleFor(class_);
    var scheduled := schedule[Min(backoffLevel, |schedule| - 1)];
    if !HonoursRetryAfter(class_) || retryAfter.None? then scheduled
    else Min(retryAfter.value, MaximumRetryDelay(class_))
  }

  lemma ScheduleGrows(class_: FailureClass, a: nat, b: nat)
    requires a <= b < |ScheduleFor(class_)|
    ensures 1_000 <= ScheduleFor(class_)[a] <= ScheduleFor(class_)[b]
  {
    if class_.ProviderCapacity? || class_.ProviderQuota? || class_.ProviderBilling?
       || class_.ProviderAuth? || class_.ProviderConfiguration? || class_.ProviderUnknown4xx? {
    } else {
      assert ScheduleFor(class_) == [1_000, 2_000, 4_000, 8_000, 16_000, 32_000, 60_000];
    }
  }

  /** Backoff never shortens as failures of one class repeat and ends at the class's maximum. A
    * Retry-After replaces the scheduled delay for the classes that honour one, cut off at that
    * maximum, and changes nothing for the others. */
  lemma BackoffGrows(class_: FailureClass, level: nat, later: nat, asked: nat)
    requires level <= later
    ensures 1_000 <= RetryDelay(class_, level, None) <= RetryDelay(class_, later, None)
    ensures later >= 6 ==> RetryDelay(class_, later, None) == MaximumRetryDelay(class_)
    ensures RetryDelay(class_, level, Some(asked))
            == if !HonoursRetryAfter(class_) then RetryDelay(class_, level, None)
               else Min(asked, RetryDelay(class_, 6, None))
  {
    var last := |ScheduleFor(class_)| - 1;
    ScheduleGrows(class_, Min(level, last), Min(later, last));
  }

  // ---------------------------------------------------------------- atomic steps

  predicate LeaseLapsed(s: Snapshot, now: int) {
    s.mode == HalfOpen && s.probeDeadline.Some? && s.probeDeadline.value <= now
  }

  function WithdrawProbe(s: Snapshot, nextProbeAt: int): Snapshot {
    s.(mode := UnavailableMode(s.reason), probeInFlight := false, probeDeadline := None,
       nextProbeAt := Some(nextProbeAt), generation := s.generation + 1)
  }

  function AfterLapse(s: Snapshot, now: int): Snapshot {
    if LeaseLapsed(s, now) then WithdrawProbe(s, now) else s
  }

  predicate ProbeDue(s: Snapshot, now: int) {
    (s.mode == Open || s.mode == Suspended) && s.nextProbeAt.Some? && s.nextProbeAt.value <= now
  }

  function StartProbe(s: Snapshot, now: int): Snapshot {
    s.(mode := HalfOpen, probeInFlight := true,
       probeDeadline := Some(AddDurationMs(now, PROBE_LEASE_MS)))
  }

  function Decide(s: Snapshot, now: int): (Snapshot, Decision) {
    var current := AfterLapse(s, now);
    if current.mode == Closed then (current, Primary(Permit(current.generation, false)))
    else if ProbeDue(current, now) then
      (StartProbe(current, now), Primary(Permit(current.generation, true)))
    else (current, Fallback(current.reason, current.mode == HalfOpen && current.probeInFlight))
  }

  function Success(s: Snapshot, p: Permit): Snapshot {
    if p.generation != s.generation
       || (!p.probe && s.mode == Closed)
       || (p.probe && s.mode != HalfOpen)
    then s
    else Healthy(s.generation + 1)
  }

  function Abandonment(s: Snapshot, p: Permit, now: int): Snapshot {
    if !p.probe || p.generation != s.generation || s.mode != HalfOpen then s
    else WithdrawProbe(s, AddDurationMs(now, ABANDONED_PROBE_RETRY_MS))
  }

  function Opened(s: Snapshot, class_: FailureClass, retryAfter: Option<nat>, now: int): Snapshot {
    var level := if s.reason == Some(class_) then s.backoffLevel else 0;
    Snapshot(UnavailableMode(Some(class_)), Some(class_),
             Some(s.openedAt.GetOr(now)),
             Some(AddDurationMs(now, RetryDelay(class_, level, retryAfter))),
             SaturatingIncrement(s.consecutiveFailures, U32_MAX),
             SaturatingIncrement(level, U64_MAX),
             false, None, s.generation + 1)
  }

  function Failed(s: Snapshot, p: Permit, class_: FailureClass, retryAfter: Option<nat>, now: int): Snapshot {
    if !class_.AffectsCircuit() then Abandonment(s, p, now)
    else if p.generation != s.generation
            || (!p.probe && s.mode != Closed)
            || (p.probe && s.mode != HalfOpen)
    then s
    else Opened(s, class_, retryAfter, now)
  }

  /** What a restarted process makes of the snapshot it finds on disk. */
  function Loaded(stored: Option<Snapshot>, now: int): Snapshot {
    var s := stored.GetOr(Healthy(0));
    if s.mode == HalfOpen then WithdrawProbe(s, now)
    else if s.mode == Open || s.mode == Suspended then
      var latest := AddDurationMs(now, MaximumRetryDelay(s.reason.GetOr(ProviderUnknown5xxOrTransport)));
      if s.nextProbeAt.Some? && latest < s.nextProbeAt.value then s.(nextProbeAt := Some(latest)) else s
    else s
  }

  // ---------------------------------------------------------------- the breaker object

  class CircuitBreaker {
    var mode: Mode
    var reason: Option<FailureClass>
    var openedAt: Option<int>
    var nextProbeAt: Option<int>
    var consecutiveFailures: nat
    var backoffLevel: nat
    var probeInFlight: bool
    var probeDeadline: Option<int>
    var generation: nat
    /** The persisted copy; a write that fails is logged and leaves it as it was. */
    var stored: Option<Snapshot>

    function State(): Snapshot
      reads this
    {
      Snapshot(mode, reason, openedAt, nextProbeAt, consecutiveFailures, backoffLevel,
               probeInFlight, probeDeadline, generation)
    }

    constructor Load(found: Option<Snapshot>, now: int)
      ensures State() == Loaded(found, now)
      ensures stored == if State() == found.GetOr(Healthy(0)) then found else Some(State())
    {
      var s := found.GetOr(Healthy(0));
      mode, reason, openedAt := s.mode, s.reason, s.openedAt;
      nextProbeAt, consecutiveFailures, backoffLevel := s.nextProbeAt, s.consecutiveFailures, s.backoffLevel;
      probeInFlight, probeDeadline, generation := s.probeInFlight, s.probeDeadline, s.generation;
      stored := found;
      new;
      var changed := false;
      if mode == HalfOpen {
        mode := UnavailableMode(reason);
        probeInFlight, probeDeadline := false, None;
        nextProbeAt, generation := Some(now), generation + 1;
        changed := true;
      } else if mode == Open || mode == Suspended {
        var class_ := reason.GetOr(ProviderUnknown5xxOrTransport);
        var maximumDeadline := AddDurationMs(now, MaximumRetryDelay(class_));
        if nextProbeAt.Some? && maximumDeadline < nextProbeAt.value {
          nextProbeAt, changed := Some(maximumDeadline), true;
        }
      }
      if changed {
        stored := Some(State());
      }
    }

    method Persist(diskOk: bool)
      modifies this`stored
      ensures stored == if diskOk then Some(State()) else old(stored)
    {
      if diskOk {
        stored := Some(State());
      }
    }

    method DecideAt(now: int, diskOk: bool) returns (decision: Decision)
      modifies this
      ensures (State(), decision) == Decide(old(State()), now)
      ensures stored == if diskOk && decision.Primary? && decision.permit.probe
                        then Some(State()) else old(stored)
    {
      if mode == HalfOpen && probeDeadline.Some? && probeDeadline.value <= now {
        mode := UnavailableMode(reason);
        probeInFlight, probeDeadline := false, None;
        nextProbeAt, generation := Some(now), generation + 1;
      }
      if mode == Closed {
        decision := Primary(Permit(generation, false));
      } else if (mode == Open || mode == Suspended) && nextProbeAt.Some? && nextProbeAt.value <= now {
        mode, probeInFlight := HalfOpen, true;
        probeDeadline := Some(AddDurationMs(now, PROBE_LEASE_MS));
        Persist(diskOk);
        decision := Primary(Permit(generation, true));
      } else {
        decision := Fallback(reason, mode == HalfOpen && probeInFlight);
      }
    }

    method CompleteSuccess(p: Permit, diskOk: bool)
      modifies this
      ensures State() == Success(old(State()), p)
      ensures stored == if diskOk && State() != old(State()) then Some(State()) else old(stored)
    {
      if p.generation != generation { return; }
      if !p.probe && mode == Closed { return; }
      if p.probe && mode != HalfOpen { return; }
      mode, reason, openedAt, nextProbeAt := Closed, None, None, None;
      consecutiveFailures, backoffLevel := 0, 0;
      probeInFlight, probeDeadline, generation := false, None, generation + 1;
      Persist(diskOk);
    }

    method CompleteFailure(p: Permit, class_: FailureClass, retryAfter: Option<nat>, now: int, diskOk: bool)
      modifies this
      ensures State() == Failed(old(State()), p, class_, retryAfter, now)
      ensures stored == if diskOk && State() != old(State()) then Some(State()) else old(stored)
    {
      if !class_.AffectsCircuit() {
        CompleteAbandonment(p, now, diskOk);
        return;
      }
      if p.generation != generation { return; }
      if (!p.probe && mode != Closed) || (p.probe && mode != HalfOpen) { return; }
      RecordFailure(class_, retryAfter, now);
      Persist(diskOk);
    }

    /** The snapshot updates of an accepted failure. */
    method RecordFailure(class_: FailureClass, retryAfter: Option<nat>, now: int)
      modifies this
      ensures State() == Opened(old(State()), class_, retryAfter, now)
      ensures stored == old(stored)
    {
      hide RetryDelay, AddDurationMs, SaturatingIncrement, UnavailableMode;
      if reason != Some(class_) {
        backoffLevel := 0;
      }
      assert backoffLevel == if old(reason) == Some(class_) then old(backoffLevel) else 0;
      var delay := RetryDelay(class_, backoffLevel, retryAfter);
      mode, reason := UnavailableMode(Some(class_)), Some(class_);
      if openedAt.None? {
        openedAt := Some(now);
      }
      assert openedAt == Some(old(openedAt).GetOr(now));
      nextProbeAt := Some(AddDurationMs(now, delay));
      consecutiveFailures := SaturatingIncrement(consecutiveFailures, U32_MAX);
      backoffLevel := SaturatingIncrement(backoffLevel, U64_MAX);
      probeInFlight, probeDeadline, generation := false, None, generation + 1;
    }

    method CompleteAbandonment(p: Permit, now: int, diskOk: bool)
      modifies this
      ensures State() == Abandonment(old(State()), p, now)
      ensures stored == if diskOk && State() != old(State()) then Some(State()) else old(stored)
    {
      if !p.probe { return; }
      if p.generation != generation || mode != HalfOpen { return; }
      mode := UnavailableMode(reason);
      nextProbeAt := Some(AddDurationMs(now, ABANDONED_PROBE_RETRY_MS));
      probeInFlight, probeDeadline, generation := false, None, generation + 1;
      Persist(diskOk);
    }
  }
}
