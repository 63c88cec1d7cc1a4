/** A routed request among others: its events are steps of the admission gate and of the circuit
  * breakers, which other requests use at the same time. */
module RoutingWorld {
  import opened Prelude
  import opened Routing
  import opened RoutingRuns
  import Admission
  import Circuit
  import CircuitRuns

  /** The gate and the circuits, what other requests hold of them, and the permit this one holds. */
  datatype World = World(
    gate: Admission.System,
    others: multiset<string>,
    circuits: map<Target, CircuitRuns.System>,
    foreign: map<Target, multiset<Circuit.Permit>>,
    permit: Option<Circuit.Permit>)

  type Pools = Target -> Option<string>

  /** When an event happens, what the upstream asked for, and whether the disk works. */
  datatype Circumstances = Circumstances(now: int, retryAfter: Option<nat>, diskOk: bool)

  function KeyOf(t: Target): string { Admission.AccountKey(t.backend, t.credential) }

  // ---------------------------------------------------------------- this request

  predicate OnTime(w: World, t: Target, at: Circumstances) {
    t in w.circuits && w.circuits[t].clock <= at.now <= I64_MAX
  }

  function DecisionOf(w: World, t: Target, at: Circumstances): Circuit.Decision
    requires t in w.circuits
  {
    Circuit.Decide(w.circuits[t].snapshot, at.now).1
  }

  /** The gate and the circuit answer as the event says. */
  ghost predicate Answers(w: World, e: Event, at: Circumstances, pools: Pools) {
    match e
    case NoCapacity(t) => !Admission.Admits(w.gate.counters, KeyOf(t), pools(t))
    case Acquired(t) => Admission.Admits(w.gate.counters, KeyOf(t), pools(t))
    case Declined(t, reason, wait) => OnTime(w, t, at) && DecisionOf(w, t, at) == Circuit.Fallback(reason, wait)
    case Granted(t, probe) =>
      OnTime(w, t, at) && DecisionOf(w, t, at).Primary? && DecisionOf(w, t, at).permit.probe == probe
    case Settled(t, _) => OnTime(w, t, at)
    case _ => true
  }

  /** A settlement of the permit that the request holds. */
  function SettlementStep(p: Circuit.Permit, e: Event, at: Circumstances): CircuitRuns.Step
    requires e.Settled?
  {
    if e.failure.Some? then CircuitRuns.Failing(p, e.failure.value, at.retryAfter, at.now, at.diskOk)
    else CircuitRuns.Succeeding(p, at.now, at.diskOk)
  }

  /** The event is a step that the gate or the circuit can make. */
  ghost predicate Enabled(w: World, e: Event, at: Circumstances) {
    && Admission.Counted(w.gate)
    && match e
       case Released(t) => KeyOf(t) in w.gate.leases
       case Declined(t, _, _) => OnTime(w, t, at)
       case Granted(t, _) => OnTime(w, t, at) && DecisionOf(w, t, at).Primary?
       case Settled(t, _) => OnTime(w, t, at) && w.permit.Some? && w.permit.value in w.circuits[t].permits
       case _ => true
  }

  ghost function Effect(w: World, e: Event, at: Circumstances, pools: Pools): World
    requires Enabled(w, e, at)
  {
    match e
    case Acquired(t) => w.(gate := Admission.Next(w.gate, Admission.Acquire(KeyOf(t), pools(t))))
    case Released(t) => w.(gate := Admission.Next(w.gate, Admission.Release(KeyOf(t))))
    case Declined(t, _, _) => w.(circuits := w.circuits[t := CircuitRuns.Next(w.circuits[t], Asking(at))])
    case Granted(t, _) =>
      w.(circuits := w.circuits[t := CircuitRuns.Next(w.circuits[t], Asking(at))],
         permit := Some(DecisionOf(w, t, at).permit))
    case Settled(t, _) =>
      w.(circuits := w.circuits[t := CircuitRuns.Next(w.circuits[t], SettlementStep(w.permit.value, e, at))],
         permit := None)
    case _ => w
  }

  function Asking(at: Circumstances): CircuitRuns.Step { CircuitRuns.Deciding(at.now, at.diskOk) }

  // ---------------------------------------------------------------- the others

  datatype Move =
    | Ours(event: Event, at: Circumstances)
    | OnGate(step: Admission.Step)
    | OnCircuit(target: Target, turn: CircuitRuns.Step)

  function Foreign(w: World, t: Target): multiset<Circuit.Permit> {
    if t in w.foreign then w.foreign[t] else multiset{}
  }

  /** Other requests and the configuration do what they like with the gate and the circuits, but
    * they give back only what they hold; the process does not restart under a request. */
  ghost predicate OthersMay(w: World, m: Move) {
    match m
    case Ours(_, _) => false
    case OnGate(step) => Admission.Counted(w.gate) && Admission.Enabled(w.gate, step)
        && (step.Release? ==> step.key in w.others)
    case OnCircuit(t, step) =>
      && t in w.circuits && CircuitRuns.Enabled(w.circuits[t], step) && !step.Restarting?
      && (!step.Deciding? ==> step.permit in Foreign(w, t))
  }

  ghost function OthersMove(w: World, m: Move): World
    requires OthersMay(w, m)
  {
    match m
    case OnGate(step) =>
      w.(gate := Admission.Next(w.gate, step),
         others := match step
                   case Acquire(key, pool) =>
                     if Admission.Admits(w.gate.counters, key, pool) then w.others + multiset{key} else w.others
                   case Release(key) => w.others - multiset{key}
                   case Publish(_) => w.others)
    case OnCircuit(t, step) =>
      w.(circuits := w.circuits[t := CircuitRuns.Next(w.circuits[t], step)],
         foreign := w.foreign[t := PermitsAfter(Foreign(w, t), w.circuits[t].snapshot, step)])
  }

  // ---------------------------------------------------------------- runs

  ghost predicate Moves(w: World, m: Move, v: World, pools: Pools) {
    if m.Ours? then Answers(w, m.event, m.at, pools) && Enabled(w, m.event, m.at)
        && v == Effect(w, m.event, m.at, pools)
    else OthersMay(w, m) && v == OthersMove(w, m)
  }

  ghost predicate IsRun(worlds: seq<World>, moves: seq<Move>, pools: Pools) {
    && |worlds| == |moves| + 1 && Begins(worlds[0])
    && forall i :: 0 <= i < |moves| ==> Moves(worlds[i], moves[i], worlds[i + 1], pools)
  }

  /** At first everything outstanding belongs to others. */
  ghost predicate Begins(w: World) {
    && Admission.Counted(w.gate) && w.gate.leases == w.others && w.permit.None?
    && forall t :: t in w.circuits ==> w.circuits[t].permits == Foreign(w, t)
  }

  /** What the request did. */
  function TraceOf(moves: seq<Move>): seq<Event> {
    if moves == [] then []
    else TraceOf(moves[..|moves| - 1]) + if moves[|moves| - 1].Ours? then [moves[|moves| - 1].event] else []
  }

  // ---------------------------------------------------------------- what is outstanding

  /** The target whose lease the stage holds, and the one whose permit it holds. */
  function LeaseOf(s: Stage): Option<Target> {
    if s.Holding? || s.Trying? || s.Failing? || s.Winning? || s.Leaving? then Some(s.target) else None
  }

  function PermitOf(s: Stage): Option<Target> {
    if s.Trying? || s.Failing? || s.Winning? then Some(s.target) else None
  }

  function OwnLease(t: Option<Target>): multiset<string> { if t.Some? then multiset{KeyOf(t.value)} else multiset{} }

  function OwnPermit(permit: Option<Circuit.Permit>, owner: Option<Target>, t: Target): multiset<Circuit.Permit> {
    if permit.Some? && owner == Some(t) then multiset{permit.value} else multiset{}
  }

  ghost predicate GateBalanced(w: World, owner: Option<Target>) {
    Admission.Counted(w.gate) && w.gate.leases == w.others + OwnLease(owner)
  }

  ghost predicate CircuitsBalanced(w: World, owner: Option<Target>) {
    && (w.permit.Some? <==> owner.Some?) && (owner.Some? ==> owner.value in w.circuits)
    && forall t :: t in w.circuits ==> w.circuits[t].permits == Foreign(w, t) + OwnPermit(w.permit, owner, t)
  }

  /** Every lease and permit that is outstanding is another request's, or the one the stage of
    * this request says it holds. */
  ghost predicate Balanced(w: World, s: Stage) { GateBalanced(w, LeaseOf(s)) && CircuitsBalanced(w, PermitOf(s)) }

  /** What an event means for the lease and the permit of a stage. */
  lemma TurnChanges(candidates: seq<Target>, stream: bool, s: Standing, e: Event, n: Standing)
    requires Turn(candidates, stream, s, e) == Some(n)
    ensures LeaseOf(s.stage) == if e.Acquired? then None else if e.Released? then Some(e.target) else LeaseOf(n.stage)
    ensures LeaseOf(n.stage) == if e.Acquired? then Some(e.target) else if e.Released? then None else LeaseOf(s.stage)
    ensures PermitOf(s.stage) == if e.Granted? || e.Declined? then None else if e.Settled? then Some(e.target)
                                 else PermitOf(n.stage)
    ensures PermitOf(n.stage) == if e.Granted? then Some(e.target) else if e.Settled? then None else PermitOf(s.stage)
  {
    hide NextTarget;
  }

  /** So whatever the request may do next is a step the gate or the circuit can make. */
  lemma TurnsAreEnabled(w: World, candidates: seq<Target>, stream: bool, s: Standing, e: Event, at: Circumstances,
                        pools: Pools)
    requires Balanced(w, s.stage) && Turn(candidates, stream, s, e).Some? && Answers(w, e, at, pools)
    ensures Enabled(w, e, at)
  {
    TurnChanges(candidates, stream, s, e, Turn(candidates, stream, s, e).value);
    hide Turn, Admission.Counted, Admission.Admits, DecisionOf, KeyOf, LeaseOf, PermitOf;
    if e.Settled? {
      assert w.circuits[e.target].permits == Foreign(w, e.target) + OwnPermit(w.permit, PermitOf(s.stage), e.target);
      assert w.permit.value in OwnPermit(w.permit, PermitOf(s.stage), e.target);
    }
  }

  /** Whether nothing is left to do for the loop: it stopped, or a stream has won. */
  predicate Finished(s: Stage, stream: bool) { s.Over? || (stream && s.Winning?) }

  /** What a stage waits for: a look at the next candidate, an answer of the circuit, the end of an
    * attempt, its settlement or the release of the lease. */
  predicate Due(candidates: seq<Target>, s: Standing, e: Event) {
    match s.stage
    case Between => e.PassBegins?
    case Choosing =>
      var next := NextTarget(candidates, s.attempted + s.evaluated);
      if next.None? then e.PassEnds? else (e.Acquired? || e.NoCapacity?) && e.target == next.value
    case Holding(t) => (e.Granted? || e.Declined?) && e.target == t
    case Trying(t, _) => e.Attempted? && e.target == t && e.sequence == s.sequence + 1
    case Failing(t, class_) => e == Settled(t, Some(class_))
    case Winning(t) => e == Settled(t, None)
    case Leaving(t, _) => e == Released(t)
    case Over => false
  }

  lemma DueIsLawful(candidates: seq<Target>, stream: bool, s: Standing, e: Event)
    requires Due(candidates, s, e) && !Finished(s.stage, stream)
    ensures Turn(candidates, stream, s, e).Some?
  {
    hide NextTarget;
  }

  lemma DueIsAnswered(w: World, candidates: seq<Target>, s: Standing, pools: Pools, result: Routing.Result)
    returns (e: Event, at: Circumstances)
    requires !s.stage.Over?
    requires s.stage.Holding? || s.stage.Failing? || s.stage.Winning? ==>
               s.stage.target in w.circuits && w.circuits[s.stage.target].clock <= I64_MAX
    ensures Due(candidates, s, e) && Answers(w, e, at, pools)
    ensures s.stage.Trying? ==> e == Attempted(s.sequence + 1, s.stage.target, result)
  {
    hide Admission.Admits, Circuit.Decide, NextTarget;
    at := Circumstances(0, None, true);
    if s.stage.Holding? || s.stage.Failing? || s.stage.Winning? {
      at := at.(now := w.circuits[s.stage.target].clock);
    }
    match s.stage
    case Between => e := PassBegins;
    case Choosing => e := NextLook(w, candidates, s, pools);
    case Holding(t) => e := AskedEvent(w, t, at);
    case Trying(t, _) => e := Attempted(s.sequence + 1, t, result);
    case Failing(t, class_) => e := Settled(t, Some(class_));
    case Winning(t) => e := Settled(t, None);
    case Leaving(t, _) => e := Released(t);
  }

  /** And until it is done there always is something it may do: some lawful event is what the gate
    * and the circuit answer now. Whether an attempt succeeds is up to the upstream. */
  lemma UnfinishedGoesOn(w: World, candidates: seq<Target>, stream: bool, s: Standing, pools: Pools,
                         result: Routing.Result) returns (e: Event, at: Circumstances)
    requires Balanced(w, s.stage) && !Finished(s.stage, stream)
    requires s.stage.Holding? || s.stage.Failing? || s.stage.Winning? ==>
               s.stage.target in w.circuits && w.circuits[s.stage.target].clock <= I64_MAX
    ensures Turn(candidates, stream, s, e).Some? && Answers(w, e, at, pools) && Enabled(w, e, at)
    ensures s.stage.Trying? ==> e == Attempted(s.sequence + 1, s.stage.target, result)
  {
    assert !s.stage.Over?;
    hide *;
    e, at := DueIsAnswered(w, candidates, s, pools, result);
    DueIsLawful(candidates, stream, s, e);
    TurnsAreEnabled(w, candidates, stream, s, e, at, pools);
  }

  /** The next candidate is taken or refused, or the pass ends. */
  lemma NextLook(w: World, candidates: seq<Target>, s: Standing, pools: Pools) returns (e: Event)
    requires s.stage.Choosing?
    ensures var next := NextTarget(candidates, s.attempted + s.evaluated);
            if next.None? then e == PassEnds
            else if Admission.Admits(w.gate.counters, KeyOf(next.value), pools(next.value))
            then e == Acquired(next.value)
            else e == NoCapacity(next.value)
  {
    hide Admission.Admits, NextTarget;
    var next := NextTarget(candidates, s.attempted + s.evaluated);
    if next.None? {
      e := PassEnds;
    } else if Admission.Admits(w.gate.counters, KeyOf(next.value), pools(next.value)) {
      e := Acquired(next.value);
    } else {
      e := NoCapacity(next.value);
    }
  }

  /** What the circuit decides grants or declines the target. */
  lemma AskedEvent(w: World, t: Target, at: Circumstances) returns (e: Event)
    requires OnTime(w, t, at)
    ensures var d := DecisionOf(w, t, at);
            e == if d.Primary? then Granted(t, d.permit.probe) else Declined(t, d.reason, d.waitsForProbe)
  {
    hide Circuit.Decide;
    var d := DecisionOf(w, t, at);
    e := if d.Primary? then Granted(t, d.permit.probe) else Declined(t, d.reason, d.waitsForProbe);
  }

  lemma GateStaysCounted(sys: Admission.System, step: Admission.Step)
    requires Admission.Counted(sys) && Admission.Enabled(sys, step)
    ensures Admission.Counted(Admission.Next(sys, step))
    ensures Admission.Next(sys, step).leases
            == if step.Release? then sys.leases - multiset{step.key}
               else if step.Acquire? && Admission.Admits(sys.counters, step.key, step.pool)
               then sys.leases + multiset{step.key}
               else sys.leases
  {
    hide Admission.Admits;
    match step
    case Publish(config) => Admission.PublishKeepsCounts(sys.counters.accounts, config.backends);
    case Acquire(key, pool) =>
    case Release(key) => assert sys.leases[key] > 0;
  }

  /** The permits outstanding of a circuit, or held by those who move it, after a step. */
  function PermitsAfter(permits: multiset<Circuit.Permit>, s: Circuit.Snapshot, step: CircuitRuns.Step)
    : multiset<Circuit.Permit>
  {
    if !step.Deciding? then
      if step.Restarting? then multiset{} else permits - multiset{step.permit}
    else
      var d := Circuit.Decide(s, step.now).1;
      if d.Primary? then permits + multiset{d.permit} else permits
  }

  lemma PermitsOfNext(sys: CircuitRuns.System, step: CircuitRuns.Step)
    requires CircuitRuns.Enabled(sys, step)
    ensures CircuitRuns.Next(sys, step).permits == PermitsAfter(sys.permits, sys.snapshot, step)
  {
    hide Circuit.Decide, CircuitRuns.Settled;
  }

  lemma OwnPermitsStay(held: multiset<Circuit.Permit>, own: multiset<Circuit.Permit>, s: Circuit.Snapshot,
                       step: CircuitRuns.Step)
    requires !step.Restarting? && (!step.Deciding? ==> step.permit in held)
    ensures PermitsAfter(held + own, s, step) == PermitsAfter(held, s, step) + own
  {
    hide Circuit.Decide;
    if !step.Deciding? {
      GiveAndTake(held, own, step.permit);
    } else if Circuit.Decide(s, step.now).1.Primary? {
      GiveAndTake(held, own, Circuit.Decide(s, step.now).1.permit);
    }
  }

  lemma OursBalancesGate(w: World, e: Event, owner: Option<Target>, next: Option<Target>, at: Circumstances,
                         pools: Pools)
    requires GateBalanced(w, owner) && Answers(w, e, at, pools) && Enabled(w, e, at)
    requires owner == if e.Acquired? then None else if e.Released? then Some(e.target) else next
    requires next == if e.Acquired? then Some(e.target) else if e.Released? then None else owner
    ensures GateBalanced(Effect(w, e, at, pools), next)
  {
    hide Admission.Counted, Admission.Admits, Admission.Next, CircuitRuns.Next, Circuit.Decide, KeyOf;
    if e.Acquired? {
      GateStaysCounted(w.gate, Admission.Acquire(KeyOf(e.target), pools(e.target)));
    } else if e.Released? {
      GateStaysCounted(w.gate, Admission.Release(KeyOf(e.target)));
    }
  }

  /** One circuit moves, and what the request and others hold of it moves along. */
  lemma OneCircuitBalances(w: World, owner: Option<Target>, v: World, next: Option<Target>, t: Target,
                           sys: CircuitRuns.System, held: multiset<Circuit.Permit>)
    requires CircuitsBalanced(w, owner) && t in w.circuits && v.circuits == w.circuits[t := sys]
    requires forall u :: Foreign(v, u) == if u == t then held else Foreign(w, u)
    requires sys.permits == held + OwnPermit(v.permit, next, t) && (v.permit.Some? <==> next.Some?)
    requires (next == owner && v.permit == w.permit) || (next in {None, Some(t)} && owner in {None, Some(t)})
    ensures CircuitsBalanced(v, next)
  {
    hide Foreign;
    forall u | u in v.circuits && u != t
      ensures v.circuits[u].permits == Foreign(v, u) + OwnPermit(v.permit, next, u)
    {
      PermitsOf(w, owner, u);
    }
  }

  lemma SameForeign(w: World, v: World)
    requires v.foreign == w.foreign
    ensures forall u :: Foreign(v, u) == Foreign(w, u)
  {
  }

  lemma GiveAndTake<T>(f: multiset<T>, own: multiset<T>, x: T)
    ensures (f + own) + multiset{x} == (f + multiset{x}) + own
    ensures (f + multiset{x}) - multiset{x} == f && f + multiset{} == f
    ensures x in f ==> (f + own) - multiset{x} == (f - multiset{x}) + own
  {
  }

  /** What others and the request hold of the circuit of the target. */
  lemma PermitsOf(w: World, owner: Option<Target>, t: Target)
    requires CircuitsBalanced(w, owner) && t in w.circuits
    ensures w.circuits[t].permits == Foreign(w, t) + OwnPermit(w.permit, owner, t)
  {
  }

  lemma OwnPermits(permit: Circuit.Permit, t: Target)
    ensures OwnPermit(None, None, t) == OwnPermit(Some(permit), None, t) == multiset{}
    ensures OwnPermit(Some(permit), Some(t), t) == multiset{permit}
  {
  }

  lemma AskingBalances(w: World, t: Target, at: Circumstances, granted: bool)
    requires CircuitsBalanced(w, None) && OnTime(w, t, at) && DecisionOf(w, t, at).Primary? == granted
    ensures var circuits := w.circuits[t := CircuitRuns.Next(w.circuits[t], Asking(at))];
            if granted then CircuitsBalanced(w.(circuits := circuits, permit := Some(DecisionOf(w, t, at).permit)),
                                             Some(t))
            else CircuitsBalanced(w.(circuits := circuits), None)
  {
    assert w.permit == None;
    PermitsOf(w, None, t);
    PermitsOfNext(w.circuits[t], Asking(at));
    var sys, d := CircuitRuns.Next(w.circuits[t], Asking(at)), DecisionOf(w, t, at);
    assert sys.permits == if granted then w.circuits[t].permits + multiset{d.permit} else w.circuits[t].permits;
    hide *;
    OwnPermits(if granted then d.permit else Circuit.Permit(0, false), t);
    var v := w.(circuits := w.circuits[t := sys], permit := if granted then Some(d.permit) else w.permit);
    SameForeign(w, v);
    if granted {
      GiveAndTake(Foreign(w, t), multiset{}, d.permit);
      OneCircuitBalances(w, None, v, Some(t), t, sys, Foreign(w, t));
    } else {
      OneCircuitBalances(w, None, v, None, t, sys, Foreign(w, t));
    }
  }

  lemma SettlingBalances(w: World, t: Target, step: CircuitRuns.Step)
    requires CircuitsBalanced(w, Some(t)) && CircuitRuns.IsSettlement(step) && w.permit == Some(step.permit)
    requires t in w.circuits && CircuitRuns.Enabled(w.circuits[t], step)
    ensures CircuitsBalanced(w.(circuits := w.circuits[t := CircuitRuns.Next(w.circuits[t], step)], permit := None),
                             None)
  {
    PermitsOf(w, Some(t), t);
    PermitsOfNext(w.circuits[t], step);
    var sys := CircuitRuns.Next(w.circuits[t], step);
    hide *;
    OwnPermits(step.permit, t);
    GiveAndTake(Foreign(w, t), multiset{}, step.permit);
    var v := w.(circuits := w.circuits[t := sys], permit := None);
    SameForeign(w, v);
    OneCircuitBalances(w, Some(t), v, None, t, sys, Foreign(w, t));
  }

  lemma OursBalancesCircuits(w: World, e: Event, owner: Option<Target>, next: Option<Target>, at: Circumstances,
                             pools: Pools)
    requires CircuitsBalanced(w, owner) && Answers(w, e, at, pools) && Enabled(w, e, at)
    requires owner == if e.Granted? || e.Declined? then None else if e.Settled? then Some(e.target) else next
    requires next == if e.Granted? then Some(e.target) else if e.Settled? then None else owner
    ensures CircuitsBalanced(Effect(w, e, at, pools), next)
  {
    hide CircuitsBalanced, CircuitRuns.Next, Circuit.Decide, Admission.Counted, Admission.Admits, Admission.Next, KeyOf;
    if e.Granted? || e.Declined? {
      AskingBalances(w, e.target, at, e.Granted?);
    } else if e.Settled? {
      SettlingIsEnabled(w, e, at);
      SettlingBalances(w, e.target, SettlementStep(w.permit.value, e, at));
    } else {
      SamePermits(w, Effect(w, e, at, pools), owner);
    }
  }

  lemma SettlingIsEnabled(w: World, e: Event, at: Circumstances)
    requires e.Settled? && Enabled(w, e, at)
    ensures CircuitRuns.Enabled(w.circuits[e.target], SettlementStep(w.permit.value, e, at))
    ensures CircuitRuns.IsSettlement(SettlementStep(w.permit.value, e, at))
  {
    hide Admission.Counted;
  }

  lemma SamePermits(w: World, v: World, owner: Option<Target>)
    requires CircuitsBalanced(w, owner) && v.circuits == w.circuits && v.foreign == w.foreign && v.permit == w.permit
    ensures CircuitsBalanced(v, owner)
  {
    forall t | t in v.circuits
      ensures v.circuits[t].permits == Foreign(v, t) + OwnPermit(v.permit, owner, t)
    {
      assert w.circuits[t].permits == Foreign(w, t) + OwnPermit(w.permit, owner, t);
    }
  }

  lemma OursBalances(w: World, candidates: seq<Target>, stream: bool, s: Standing, e: Event, n: Standing,
                     at: Circumstances, pools: Pools)
    requires Balanced(w, s.stage) && Turn(candidates, stream, s, e) == Some(n) && Answers(w, e, at, pools)
    ensures Enabled(w, e, at) && Balanced(Effect(w, e, at, pools), n.stage)
  {
    TurnChanges(candidates, stream, s, e, n);
    TurnsAreEnabled(w, candidates, stream, s, e, at, pools);
    hide GateBalanced, CircuitsBalanced, Turn, Answers, Enabled, Effect, LeaseOf, PermitOf;
    OursBalancesGate(w, e, LeaseOf(s.stage), LeaseOf(n.stage), at, pools);
    OursBalancesCircuits(w, e, PermitOf(s.stage), PermitOf(n.stage), at, pools);
  }

  lemma OthersBalanceGate(w: World, m: Move, owner: Option<Target>)
    requires GateBalanced(w, owner) && OthersMay(w, m)
    ensures GateBalanced(OthersMove(w, m), owner)
  {
    hide OwnLease, Admission.Counted, Admission.Admits, Admission.Next, CircuitRuns.Next, Circuit.Decide;
    if m.OnGate? {
      GateStaysCounted(w.gate, m.step);
    }
  }

  lemma OthersBalanceCircuit(w: World, t: Target, step: CircuitRuns.Step, owner: Option<Target>)
    requires CircuitsBalanced(w, owner) && OthersMay(w, OnCircuit(t, step))
    ensures CircuitsBalanced(OthersMove(w, OnCircuit(t, step)), owner)
  {
    var v := OthersMove(w, OnCircuit(t, step));
    PermitsOf(w, owner, t);
    PermitsOfNext(w.circuits[t], step);
    OwnPermitsStay(Foreign(w, t), OwnPermit(w.permit, owner, t), w.circuits[t].snapshot, step);
    assert w.permit.Some? <==> owner.Some?;
    var sys, held := CircuitRuns.Next(w.circuits[t], step), PermitsAfter(Foreign(w, t), w.circuits[t].snapshot, step);
    assert v == w.(circuits := w.circuits[t := sys], foreign := w.foreign[t := held]);
    ForeignMoves(w, v, t, held);
    hide *;
    OneCircuitBalances(w, owner, v, owner, t, sys, held);
  }

  lemma ForeignMoves(w: World, v: World, t: Target, held: multiset<Circuit.Permit>)
    requires v.foreign == w.foreign[t := held]
    ensures forall u :: Foreign(v, u) == if u == t then held else Foreign(w, u)
  {
  }

  lemma OthersBalanceCircuits(w: World, m: Move, owner: Option<Target>)
    requires CircuitsBalanced(w, owner) && OthersMay(w, m)
    ensures CircuitsBalanced(OthersMove(w, m), owner)
  {
    hide CircuitsBalanced, Admission.Counted, Admission.Admits, Admission.Next, CircuitRuns.Next, Circuit.Decide;
    match m
    case OnGate(_) => SamePermits(w, OthersMove(w, m), owner);
    case OnCircuit(t, step) => OthersBalanceCircuit(w, t, step, owner);
  }

  /** Whatever others do meanwhile, the gate and the circuits owe the request, at any moment,
    * exactly what its stage says: no lease or permit of it is lost, given back twice or anyone
    * else's. */
  lemma {:induction false} RunsBalance(worlds: seq<World>, moves: seq<Move>, pools: Pools, candidates: seq<Target>,
                                       stream: bool) returns (s: Standing)
    requires IsRun(worlds, moves, pools) && After(candidates, stream, TraceOf(moves)).Some?
    ensures After(candidates, stream, TraceOf(moves)) == Some(s) && Balanced(worlds[|moves|], s.stage)
  {
    hide Balanced, Moves, Begins, Turn;
    s := After(candidates, stream, TraceOf(moves)).value;
    if moves == [] {
      BeginsBalanced(worlds[0]);
    } else {
      var last := |moves| - 1;
      var front, m, w, v := moves[..last], moves[last], worlds[last], worlds[last + 1];
      assert worlds[..last + 1][last] == w;
      if m.Ours? {
        OneMore(candidates, stream, TraceOf(front), m.event);
      } else {
        assert TraceOf(moves) == TraceOf(front);
      }
      var before := RunsBalance(worlds[..last + 1], front, pools, candidates, stream);
      assert Moves(w, m, v, pools);
      MoveBalances(w, m, v, pools, candidates, stream, before, s);
    }
  }

  lemma BeginsBalanced(w: World)
    requires Begins(w)
    ensures Balanced(w, Between)
  {
  }

  lemma MoveBalances(w: World, m: Move, v: World, pools: Pools, candidates: seq<Target>, stream: bool, s: Standing,
                     n: Standing)
    requires Balanced(w, s.stage) && Moves(w, m, v, pools)
    requires if m.Ours? then Turn(candidates, stream, s, m.event) == Some(n) else n == s
    ensures Balanced(v, n.stage)
  {
    hide GateBalanced, CircuitsBalanced, Answers, Enabled, Effect, OthersMove, OthersMay, Turn;
    if m.Ours? {
      OursBalances(w, candidates, stream, s, m.event, n, m.at, pools);
    } else {
      OthersBalanceGate(w, m, LeaseOf(s.stage));
      OthersBalanceCircuits(w, m, PermitOf(s.stage));
    }
  }

  /** When a request is done, every account counts just what others hold, with one more for the
    * target of a winning stream, and so does every circuit. */
  lemma DoneHoldsNothing(worlds: seq<World>, moves: seq<Move>, pools: Pools, candidates: seq<Target>, stream: bool,
                         key: string, t: Target)
    requires IsRun(worlds, moves, pools) && After(candidates, stream, TraceOf(moves)).Some?
    requires var stage := After(candidates, stream, TraceOf(moves)).value.stage;
             stage.Between? || stage.Over? || (stream && stage.Winning?)
    ensures var stage, w := After(candidates, stream, TraceOf(moves)).value.stage, worlds[|moves|];
            && Admission.InFlight(w.gate.counters.accounts, key)
               == w.others[key] + (if stage.Winning? && KeyOf(stage.target) == key then 1 else 0)
            && (t in w.circuits ==>
                  |w.circuits[t].permits| == |Foreign(w, t)| + (if stage == Winning(t) then 1 else 0))
  {
    var s := RunsBalance(worlds, moves, pools, candidates, stream);
    var w := worlds[|moves|];
    hide After, IsRun;
    assert w.gate.leases[key] == Admission.InFlight(w.gate.counters.accounts, key);
    assert OwnLease(LeaseOf(s.stage))[key] == if s.stage.Winning? && KeyOf(s.stage.target) == key then 1 else 0;
    if t in w.circuits {
      assert w.circuits[t].permits == Foreign(w, t) + OwnPermit(w.permit, PermitOf(s.stage), t);
      assert |OwnPermit(w.permit, PermitOf(s.stage), t)| == if s.stage == Winning(t) then 1 else 0;
    }
  }
}
