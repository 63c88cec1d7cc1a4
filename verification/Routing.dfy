/** The routing loop: which targets a request tries, in which order, and what becomes of the
  * capacity leases and circuit permits it takes. */
module Routing {
  import opened Prelude
  import opened Failure

  /** A target is a model of a backend, used with one of its credentials. */
  datatype Target = Target(backend: string, credential: string, model: string)

  datatype Result = Succeeded | FailedWith(class_: FailureClass)

  datatype Decision = Primary(probe: bool) | Fallback(reason: Option<FailureClass>, wait: bool)

  datatype Event =
    | PassBegins
    | NoCapacity(target: Target)
    | Acquired(target: Target)
    | Declined(target: Target, reason: Option<FailureClass>, wait: bool)
    | Granted(target: Target, probe: bool)
    | Attempted(sequence: nat, target: Target, result: Result)
    | Settled(target: Target, failure: Option<FailureClass>)
    | Released(target: Target)
    | PassEnds

  // ---------------------------------------------------------------- the protocol

  /** Where a request stands. */
  datatype Stage =
    | Between                                   // no pass is running
    | Choosing                                  // looking for the next candidate
    | Holding(target: Target)                        // a lease is held, the circuit not yet asked
    | Trying(target: Target, retried: bool)          // a permit is held, an attempt is due
    | Failing(target: Target, class_: FailureClass)  // the permit is to be settled as failed
    | Winning(target: Target)                        // the attempt succeeded
    | Leaving(target: Target, forGood: bool)         // the lease is to be released
    | Over                                      // nothing more happens

  datatype Standing = Standing(stage: Stage, attempted: set<Target>, evaluated: set<Target>, sequence: nat, waits: bool)

  /** The first candidate that was neither attempted before nor looked at in this pass. */
  function NextTarget(candidates: seq<Target>, seen: set<Target>): Option<Target> {
    if candidates == [] then None
    else if candidates[0] !in seen then Some(candidates[0])
    else NextTarget(candidates[1..], seen)
  }

  function Turn(candidates: seq<Target>, stream: bool, s: Standing, e: Event): Option<Standing> {
    match e
    case PassBegins => if s.stage.Between? then Some(s.(stage := Choosing, evaluated := {}, waits := false)) else None
    case NoCapacity(t) =>
      if s.stage.Choosing? && NextTarget(candidates, s.attempted + s.evaluated) == Some(t)
      then Some(s.(evaluated := s.evaluated + {t})) else None
    case Acquired(t) =>
      if s.stage.Choosing? && NextTarget(candidates, s.attempted + s.evaluated) == Some(t)
      then Some(s.(stage := Holding(t), evaluated := s.evaluated + {t})) else None
    case Declined(t, _, wait) =>
      if s.stage == Holding(t) then Some(s.(stage := Leaving(t, false), waits := s.waits || wait)) else None
    case Granted(t, _) =>
      if s.stage == Holding(t) then Some(s.(stage := Trying(t, false), attempted := s.attempted + {t})) else None
    case Attempted(n, t, result) =>
      if s.stage.Trying? && s.stage.target == t && n == s.sequence + 1 then
        Some(s.(sequence := n,
                stage := match result
                         case Succeeded => Winning(t)
                         case FailedWith(class_) =>
                           if !s.stage.retried && class_.RetriesSameTargetOnce() then Trying(t, true)
                           else Failing(t, class_)))
      else None
    case Settled(t, failure) =>
      if s.stage.Failing? && s.stage.target == t && failure == Some(s.stage.class_) then
        Some(s.(stage := Leaving(t, !s.stage.class_.AllowsFallback())))
      else if s.stage == Winning(t) && failure == None && !stream then Some(s.(stage := Leaving(t, true)))
      else None
    case Released(t) =>
      if s.stage == Leaving(t, false) then Some(s.(stage := Choosing))
      else if s.stage == Leaving(t, true) then Some(s.(stage := Over))
      else None
    case PassEnds =>
      if s.stage.Choosing? && NextTarget(candidates, s.attempted + s.evaluated) == None
      then Some(s.(stage := Between)) else None
  }

  function Start(): Standing { Standing(Between, {}, {}, 0, false) }

  function After(candidates: seq<Target>, stream: bool, trace: seq<Event>): Option<Standing> {
    if trace == [] then Some(Start())
    else
      var before := After(candidates, stream, trace[..|trace| - 1]);
      if before.None? then None else Turn(candidates, stream, before.value, trace[|trace| - 1])
  }

  lemma OneMore(candidates: seq<Target>, stream: bool, trace: seq<Event>, e: Event)
    ensures After(candidates, stream, trace + [e])
            == if After(candidates, stream, trace).None? then None
               else Turn(candidates, stream, After(candidates, stream, trace).value, e)
  {
    hide Turn;
    assert (trace + [e])[..|trace|] == trace;
  }

  // ---------------------------------------------------------------- the reported outcome

  /** The first reason there was to look further. */
  function FirstReason(trace: seq<Event>): Option<FailureClass> {
    if trace == [] then None
    else
      var before := FirstReason(trace[..|trace| - 1]);
      if before.Some? then before
      else
        match trace[|trace| - 1]
        case NoCapacity(_) => Some(LocalCapacity)
        case Declined(_, reason, _) => reason
        case Settled(_, failure) => failure
        case _ => None
  }

  /** The failure of the last attempted target that failed. */
  function LastFailure(trace: seq<Event>): Option<(Target, FailureClass)> {
    if trace == [] then None
    else
      match trace[|trace| - 1]
      case Settled(t, Some(class_)) => Some((t, class_))
      case _ => LastFailure(trace[..|trace| - 1])
  }

  datatype Outcome = Won(target: Target) | Lost(class_: FailureClass, failed: Option<Target>)

  function FailureOf(last: Option<(Target, FailureClass)>, timedOut: bool): Outcome {
    if last.None? || timedOut then Lost(FallbackUnavailable, None) else Lost(last.value.1, Some(last.value.0))
  }

  lemma ReasonGrows(trace: seq<Event>, e: Event)
    ensures FirstReason(trace + [e])
            == if FirstReason(trace).Some? then FirstReason(trace)
               else if e.NoCapacity? then Some(LocalCapacity)
               else if e.Declined? then e.reason
               else if e.Settled? then e.failure
               else None
    ensures LastFailure(trace + [e])
            == if e.Settled? && e.failure.Some? then Some((e.target, e.failure.value)) else LastFailure(trace)
  {
    assert (trace + [e])[..|trace|] == trace;
  }

  // ---------------------------------------------------------------- the rest of the system

  /** What the rest of the system answers: whether an account has capacity and what a circuit decides
    * in each pass, how each attempt ends, whether a probe settles in time after a pass, and after how
    * many passes the wait budget is spent. */
  datatype Surroundings = Surroundings(admits: (nat, Target) -> bool, decides: (nat, Target) -> Decision,
                                       answers: nat -> Result, wakes: nat -> bool, budget: nat)

  function Passes(trace: seq<Event>): nat {
    if trace == [] then 0 else Passes(trace[..|trace| - 1]) + if trace[|trace| - 1].PassBegins? then 1 else 0
  }

  /** Whether a candidate was declined in the current or last pass that is worth waiting for. */
  function Waiting(trace: seq<Event>): bool {
    if trace == [] || trace[|trace| - 1].PassBegins? then false
    else Waiting(trace[..|trace| - 1]) || (trace[|trace| - 1].Declined? && trace[|trace| - 1].wait)
  }

  /** Whether the pass that has ended is followed by another. */
  predicate GoesOn(world: Surroundings, passes: nat, waiting: bool) {
    passes == 0 || (waiting && passes - 1 < world.budget && world.wakes(passes - 1))
  }

  /** The event is what the rest of the system answers in this pass. */
  predicate Allows(world: Surroundings, passes: nat, waiting: bool, e: Event) {
    var pass := passes - 1;
    match e
    case PassBegins => GoesOn(world, passes, waiting)
    case NoCapacity(t) => pass >= 0 && !world.admits(pass, t)
    case Acquired(t) => pass >= 0 && world.admits(pass, t)
    case Declined(t, reason, wait) => pass >= 0 && world.decides(pass, t) == Fallback(reason, wait)
    case Granted(t, probe) => pass >= 0 && world.decides(pass, t) == Primary(probe)
    case Attempted(n, _, result) => result == world.answers(n)
    case _ => true
  }

  predicate Answered(world: Surroundings, trace: seq<Event>) {
    trace != [] ==>
      var front := trace[..|trace| - 1];
      Answered(world, front) && Allows(world, Passes(front), Waiting(front), trace[|trace| - 1])
  }

  lemma AnswersGrow(world: Surroundings, trace: seq<Event>, e: Event)
    ensures Passes(trace + [e]) == Passes(trace) + if e.PassBegins? then 1 else 0
    ensures Waiting(trace + [e]) == (!e.PassBegins? && (Waiting(trace) || (e.Declined? && e.wait)))
    ensures Answered(world, trace + [e])
            <==> Answered(world, trace) && Allows(world, Passes(trace), Waiting(trace), e)
  {
    hide Allows;
    assert (trace + [e])[..|trace|] == trace;
  }

  // ---------------------------------------------------------------- the loop

  lemma {:induction false} NextIsFirst(candidates: seq<Target>, seen: set<Target>, i: nat)
    requires i <= |candidates| && forall k :: 0 <= k < i ==> candidates[k] in seen
    ensures i < |candidates| && candidates[i] !in seen ==> NextTarget(candidates, seen) == Some(candidates[i])
    ensures i == |candidates| ==> NextTarget(candidates, seen) == None
  {
    if i > 0 {
      NextIsFirst(candidates[1..], seen, i - 1);
    }
  }

  class Router {
    const candidates: seq<Target>
    const stream: bool
    var attempted: set<Target>
    var sequence: nat
    var fallbackReason: Option<FailureClass>
    var lastFailure: Option<(Target, FailureClass)>
    ghost var trace: seq<Event>

    constructor (candidates: seq<Target>, stream: bool)
      ensures this.candidates == candidates && this.stream == stream && trace == [] && Agrees(Start())
    {
      this.candidates, this.stream := candidates, stream;
      attempted, sequence, fallbackReason, lastFailure, trace := {}, 0, None, None, [];
    }

    /** The trace so far is lawful, and the variables are what it says. */
    ghost predicate Agrees(s: Standing)
      reads this
    {
      && After(candidates, stream, trace) == Some(s)
      && s.attempted == attempted && s.sequence == sequence
      && fallbackReason == FirstReason(trace) && lastFailure == LastFailure(trace)
      && s.waits == Waiting(trace)
    }

    /** Records an event of the protocol that the rest of the system answers. */
    ghost method Note(world: Surroundings, s: Standing, e: Event, n: Standing)
      requires After(candidates, stream, trace) == Some(s) && Turn(candidates, stream, s, e) == Some(n)
      requires Answered(world, trace) && Allows(world, Passes(trace), Waiting(trace), e)
      modifies this`trace
      ensures trace == old(trace) + [e] && After(candidates, stream, trace) == Some(n) && Answered(world, trace)
      ensures Passes(trace) == Passes(old(trace)) + if e.PassBegins? then 1 else 0
      ensures Waiting(trace) == (!e.PassBegins? && (Waiting(old(trace)) || (e.Declined? && e.wait)))
      ensures FirstReason(trace)
              == if FirstReason(old(trace)).Some? then FirstReason(old(trace))
                 else if e.NoCapacity? then Some(LocalCapacity)
                 else if e.Declined? then e.reason
                 else if e.Settled? then e.failure
                 else None
      ensures LastFailure(trace)
              == if e.Settled? && e.failure.Some? then Some((e.target, e.failure.value)) else LastFailure(old(trace))
    {
      OneMore(candidates, stream, trace, e);
      ReasonGrows(trace, e);
      AnswersGrow(world, trace, e);
      trace := trace + [e];
    }

    /** Attempts the granted target, once more after an ambiguous rejection, and settles a
      * failure. Returns the failure unless the attempt won. */
    method Try(target: Target, world: Surroundings, ghost s: Standing)
      returns (failure: Option<FailureClass>, ghost n: Standing)
      requires Agrees(s) && Answered(world, trace) && s.stage == Trying(target, false)
      modifies this
      ensures Agrees(n) && Answered(world, trace) && Passes(trace) == Passes(old(trace)) && old(trace) <= trace
      ensures n == s.(stage := n.stage, sequence := n.sequence)
      ensures failure.None? ==> n.stage == Winning(target)
      ensures failure.Some? ==> n.stage == Leaving(target, !failure.value.AllowsFallback())
      ensures failure.Some? ==> lastFailure == Some((target, failure.value))
      ensures failure.Some? ==> trace != [] && trace[|trace| - 1] == Settled(target, failure)
    {
      hide After, FirstReason, LastFailure, NextTarget, Passes, Waiting, Answered;
      n := s;
      var retryAvailable := true;
      while true
        invariant Agrees(n) && n == s.(stage := Trying(target, !retryAvailable), sequence := n.sequence)
        invariant Answered(world, trace) && Passes(trace) == Passes(old(trace)) && old(trace) <= trace
        decreases retryAvailable
      {
        sequence := sequence + 1;
        var result := world.answers(sequence);
        ghost var next := Turn(candidates, stream, n, Attempted(sequence, target, result)).value;
        Note(world, n, Attempted(sequence, target, result), next);
        n := next;
        if result.Succeeded? {
          return None, n;
        }
        if retryAvailable && result.class_.RetriesSameTargetOnce() {
          retryAvailable := false;
        } else {
          next := n.(stage := Leaving(target, !result.class_.AllowsFallback()));
          Note(world, n, Settled(target, Some(result.class_)), next);
          n := next;
          if fallbackReason.None? {
            fallbackReason := Some(result.class_);
          }
          lastFailure := Some((target, result.class_));
          return Some(result.class_), n;
        }
      }
    }

    /** Gives back the lease. */
    ghost method Release(world: Surroundings, s: Standing, target: Target, n: Standing)
      requires After(candidates, stream, trace) == Some(s) && s.stage.Leaving? && s.stage.target == target
      requires n == s.(stage := if s.stage.forGood then Over else Choosing) && Answered(world, trace)
      modifies this`trace
      ensures trace == old(trace) + [Released(target)] && After(candidates, stream, trace) == Some(n)
      ensures Answered(world, trace) && Passes(trace) == Passes(old(trace)) && Waiting(trace) == Waiting(old(trace))
      ensures FirstReason(trace) == FirstReason(old(trace)) && LastFailure(trace) == LastFailure(old(trace))
    {
      hide After, FirstReason, LastFailure, NextTarget, Passes, Waiting, Answered;
      Note(world, s, Released(target), n);
    }

    /** There is no capacity for the candidate. */
    method Refuse(target: Target, world: Surroundings, ghost s: Standing) returns (ghost n: Standing)
      requires Agrees(s) && s.stage.Choosing? && NextTarget(candidates, s.attempted + s.evaluated) == Some(target)
      requires Answered(world, trace) && Passes(trace) > 0 && !world.admits(Passes(trace) - 1, target)
      modifies this
      ensures Agrees(n) && trace == old(trace) + [NoCapacity(target)] && attempted == old(attempted)
      ensures Answered(world, trace) && Passes(trace) == Passes(old(trace))
      ensures n == s.(evaluated := s.evaluated + {target})
    {
      hide After, FirstReason, LastFailure, NextTarget, Passes, Waiting, Answered;
      n := s.(evaluated := s.evaluated + {target});
      Note(world, s, NoCapacity(target), n);
      if fallbackReason.None? {
        fallbackReason := Some(LocalCapacity);
      }
    }

    /** The circuit declines the candidate, and its lease is given back. */
    method Decline(target: Target, world: Surroundings, reason: Option<FailureClass>, wait: bool, ghost s: Standing)
      returns (ghost n: Standing)
      requires Agrees(s) && s.stage == Holding(target)
      requires Answered(world, trace) && Passes(trace) > 0
      requires world.decides(Passes(trace) - 1, target) == Fallback(reason, wait)
      modifies this
      ensures Agrees(n) && trace == old(trace) + [Declined(target, reason, wait)] + [Released(target)]
      ensures Answered(world, trace) && Passes(trace) == Passes(old(trace))
      ensures n == s.(stage := Choosing, waits := s.waits || wait) && attempted == old(attempted)
    {
      hide After, FirstReason, LastFailure, NextTarget, Passes, Waiting, Answered;
      ghost var declined := s.(stage := Leaving(target, false), waits := s.waits || wait);
      Note(world, s, Declined(target, reason, wait), declined);
      if fallbackReason.None? {
        fallbackReason := reason;
      }
      n := declined.(stage := Choosing);
      Release(world, declined, target, n);
    }

    /** Attempts the granted target and lets go of it, unless a stream has won. */
    method Use(target: Target, world: Surroundings, probe: bool, ghost s: Standing)
      returns (stop: bool, won: bool, ghost n: Standing)
      requires Agrees(s) && s.stage == Holding(target)
      requires Answered(world, trace) && Passes(trace) > 0 && world.decides(Passes(trace) - 1, target) == Primary(probe)
      modifies this
      ensures Agrees(n) && old(trace) <= trace && old(attempted) <= attempted
      ensures Answered(world, trace) && Passes(trace) == Passes(old(trace))
      ensures n.evaluated == s.evaluated && n.waits == s.waits
      ensures !stop ==> n.stage.Choosing? && !won
      ensures stop && !won ==> n.stage.Over? && lastFailure.Some?
      ensures won ==> stop && n.stage == (if stream then Winning(target) else Over)
      ensures won && !stream ==> |trace| >= 2 && trace[|trace| - 2] == Settled(target, None)
      ensures stop && !won ==> Failed(trace)
    {
      hide After, FirstReason, LastFailure, NextTarget, Passes, Waiting, Answered;
      ghost var next := s.(stage := Trying(target, false), attempted := s.attempted + {target});
      Note(world, s, Granted(target, probe), next);
      attempted := attempted + {target};
      var failure: Option<FailureClass>;
      failure, n := Try(target, world, next);
      stop, won := true, failure.None?;
      if failure.None? {
        if !stream {
          next := n.(stage := Leaving(target, true));
          Note(world, n, Settled(target, None), next);
          n := next.(stage := Over);
          Release(world, next, target, n);
        }
      } else {
        stop := !failure.value.AllowsFallback();
        next := n.(stage := if stop then Over else Choosing);
        Release(world, n, target, next);
        n := next;
      }
    }

    /** Looks at one candidate that was not seen before: takes a lease, asks the circuit, and
      * attempts the target if it may. */
    method Visit(target: Target, world: Surroundings, pass: nat, ghost s: Standing)
      returns (waits: bool, stop: bool, won: bool, ghost n: Standing)
      requires Agrees(s) && s.stage.Choosing? && NextTarget(candidates, s.attempted + s.evaluated) == Some(target)
      requires Answered(world, trace) && Passes(trace) == pass + 1
      modifies this
      ensures Agrees(n) && old(trace) <= trace && Answered(world, trace) && Passes(trace) == pass + 1
      ensures n.evaluated == s.evaluated + {target} && n.waits == (s.waits || waits)
      ensures !stop ==> n.stage.Choosing? && !won
      ensures stop && !won ==> n.stage.Over? && lastFailure.Some?
      ensures won ==> stop && n.stage == (if stream then Winning(target) else Over)
      ensures won && !stream ==> |trace| >= 2 && trace[|trace| - 2] == Settled(target, None)
      ensures stop && !won ==> Failed(trace)
      ensures old(attempted) <= attempted
    {
      hide After, FirstReason, LastFailure, NextTarget, Passes, Waiting, Answered;
      waits, stop, won := false, false, false;
      if !world.admits(pass, target) {
        n := Refuse(target, world, s);
        return;
      }
      ghost var holding := s.(stage := Holding(target), evaluated := s.evaluated + {target});
      Note(world, s, Acquired(target), holding);
      match world.decides(pass, target) {
        case Fallback(reason, wait) =>
          waits := wait;
          n := Decline(target, world, reason, wait, holding);
        case Primary(probe) => stop, won, n := Use(target, world, probe, holding);
      }
    }

    /** One pass over the candidates. */
    method Pass(pass: nat, world: Surroundings, ghost s: Standing)
      returns (waits: bool, stop: bool, winner: Option<Target>, ghost n: Standing)
      requires Agrees(s) && s.stage.Between?
      requires Answered(world, trace) && Passes(trace) == pass && GoesOn(world, pass, s.waits)
      modifies this
      ensures Agrees(n) && old(trace) <= trace && Answered(world, trace) && Passes(trace) == pass + 1
      ensures !stop ==> n.stage.Between? && winner.None? && waits == n.waits
      ensures stop && winner.None? ==> n.stage.Over? && lastFailure.Some?
      ensures winner.Some? ==> stop && n.stage == (if stream then Winning(winner.value) else Over)
      ensures winner.Some? && !stream ==> |trace| >= 2 && trace[|trace| - 2] == Settled(winner.value, None)
      ensures stop && winner.None? ==> Failed(trace)
    {
      hide After, FirstReason, LastFailure, NextTarget, Passes, Waiting, Answered, GoesOn;
      waits, stop, winner := false, false, None;
      n := s.(stage := Choosing, evaluated := {}, waits := false);
      Note(world, s, PassBegins, n);
      var evaluated: set<Target> := {};
      for i := 0 to |candidates|
        invariant Agrees(n) && n.stage.Choosing? && n.evaluated == evaluated && n.waits == waits && old(trace) <= trace
        invariant Answered(world, trace) && Passes(trace) == pass + 1
        invariant forall k :: 0 <= k < i ==> candidates[k] in attempted + evaluated
        invariant !stop && winner.None?
      {
        var target := candidates[i];
        if target !in attempted && target !in evaluated {
          evaluated := evaluated + {target};
          NextIsFirst(candidates, n.attempted + n.evaluated, i);
          var wait, won: bool;
          wait, stop, won, n := Visit(target, world, pass, n);
          waits := waits || wait;
          if stop {
            winner := if won then Some(target) else None;
            return;
          }
        }
      }
      NextIsFirst(candidates, n.attempted + n.evaluated, |candidates|);
      ghost var next := n.(stage := Between);
      Note(world, n, PassEnds, next);
      n := next;
    }

    /** Routes one request. The trace is lawful, it is what the rest of the system answers, and it is
      * over: no other trace is (see `RoutingRuns.AnswersDetermineTheTrace`). */
    method Route(world: Surroundings) returns (outcome: Outcome, ghost n: Standing)
      requires Agrees(Start()) && trace == []
      modifies this
      ensures After(candidates, stream, trace) == Some(n) && fallbackReason == FirstReason(trace)
      ensures Answered(world, trace) && Done(world, stream, trace, n.stage)
      ensures outcome.Won? && stream ==> n.stage == Winning(outcome.target)
      ensures outcome.Won? && !stream ==>
                n.stage.Over? && |trace| >= 2 && trace[|trace| - 2] == Settled(outcome.target, None)
      ensures outcome.Lost? ==>
                && (n.stage.Over? || n.stage.Between?) && (n.stage.Over? ==> Failed(trace))
                && outcome == if LastFailure(trace).None? || (n.stage.Between? && Waiting(trace))
                              then Lost(FallbackUnavailable, None)
                              else Lost(LastFailure(trace).value.1, Some(LastFailure(trace).value.0))
    {
      hide After, FirstReason, LastFailure, NextTarget, Turn, Passes, Waiting, Answered;
      NothingYet(world);
      n := Start();
      var timedOut, pass := false, 0;
      while true
        invariant Agrees(n) && n.stage.Between? && !timedOut
        invariant Answered(world, trace) && Passes(trace) == pass && GoesOn(world, pass, n.waits)
        decreases world.budget - pass
      {
        var waits, stop: bool;
        var winner: Option;
        waits, stop, winner, n := Pass(pass, world, n);
        if winner.Some? {
          return Won(winner.value), n;
        }
        if stop {
          break;
        }
        if waits {
          if pass < world.budget && world.wakes(pass) {
            pass := pass + 1;
            continue;
          }
          timedOut := true;
        }
        break;
      }
      outcome := FailureOf(lastFailure, timedOut);
    }
  }

  /** The last attempt failed and was settled so. */
  predicate Failed(trace: seq<Event>) {
    |trace| >= 2 && trace[|trace| - 2].Settled? && trace[|trace| - 2].failure.Some?
  }

  /** Nothing more can happen: the loop was left, a stream has won, or the last pass has ended and is
    * not followed by another. */
  predicate Done(world: Surroundings, stream: bool, trace: seq<Event>, stage: Stage) {
    stage.Over? || (stream && stage.Winning?) || (stage.Between? && !GoesOn(world, Passes(trace), Waiting(trace)))
  }

  lemma NothingYet(world: Surroundings)
    ensures Answered(world, []) && Passes([]) == 0 && !Waiting([])
  {
  }
}
