/** What every lawful trace of the routing loop satisfies. */
module RoutingRuns {
  import opened Prelude
  import opened Failure
  import opened Routing

  lemma Prefix(candidates: seq<Target>, stream: bool, trace: seq<Event>, n: nat)
    requires After(candidates, stream, trace).Some? && n <= |trace|
    ensures After(candidates, stream, trace[..n]).Some?
    decreases |trace| - n
  {
    hide Turn;
    if n == |trace| {
      assert trace[..n] == trace;
    } else {
      Prefix(candidates, stream, trace, n + 1);
      assert trace[..n + 1][..n] == trace[..n];
    }
  }

  lemma StepAt(candidates: seq<Target>, stream: bool, trace: seq<Event>, i: nat) returns (s: Standing)
    requires After(candidates, stream, trace).Some? && i < |trace|
    ensures After(candidates, stream, trace[..i]) == Some(s) && Turn(candidates, stream, s, trace[i]).Some?
  {
    hide Turn;
    Prefix(candidates, stream, trace, i);
    Prefix(candidates, stream, trace, i + 1);
    assert trace[..i + 1][..i] == trace[..i];
    s := After(candidates, stream, trace[..i]).value;
  }

  // ---------------------------------------------------------------- grants

  ghost predicate GrantsKept(trace: seq<Event>, s: Standing) {
    && (forall t :: t in s.attempted <==> exists i :: 0 <= i < |trace| && trace[i].Granted? && trace[i].target == t)
    && (s.stage.Holding? ==> s.stage.target !in s.attempted)
    && (forall i, j :: 0 <= i < j < |trace| && trace[i].Granted? && trace[j].Granted? ==>
         trace[i].target != trace[j].target)
  }

  lemma {:induction false} NextIsUnseen(candidates: seq<Target>, seen: set<Target>)
    ensures var next := NextTarget(candidates, seen);
            && (next.Some? ==> next.value !in seen && exists i :: 0 <= i < |candidates| && candidates[i] == next.value
                                                                   && forall k :: 0 <= k < i ==> candidates[k] in seen)
            && (next.None? ==> forall k :: 0 <= k < |candidates| ==> candidates[k] in seen)
  {
    if candidates != [] && candidates[0] in seen {
      NextIsUnseen(candidates[1..], seen);
      var next := NextTarget(candidates[1..], seen);
      if next.Some? {
        var i :| 0 <= i < |candidates[1..]| && candidates[1..][i] == next.value
                 && forall k :: 0 <= k < i ==> candidates[1..][k] in seen;
        assert candidates[i + 1] == next.value;
        assert forall k :: 0 < k < i + 1 ==> candidates[k] == candidates[1..][k - 1];
      } else {
        assert forall k :: 0 < k < |candidates| ==> candidates[k] == candidates[1..][k - 1];
      }
    }
  }

  lemma {:induction false} GrantsAreKept(candidates: seq<Target>, stream: bool, trace: seq<Event>) returns (s: Standing)
    requires After(candidates, stream, trace).Some?
    ensures After(candidates, stream, trace) == Some(s) && GrantsKept(trace, s)
  {
    s := After(candidates, stream, trace).value;
    if trace != [] {
      var front, e := trace[..|trace| - 1], trace[|trace| - 1];
      var before := GrantsAreKept(candidates, stream, front);
      NextIsUnseen(candidates, before.attempted + before.evaluated);
      assert trace == front + [e];
      assert s.attempted == if e.Granted? then before.attempted + {e.target} else before.attempted;
      assert e.Granted? ==> e.target !in before.attempted;
      assert s.stage.Holding? ==> s.stage.target !in s.attempted;
      hide After, NextTarget, Turn;
      forall t
        ensures t in s.attempted <==> exists i :: 0 <= i < |trace| && trace[i].Granted? && trace[i].target == t
      {
        if t in before.attempted {
          var i :| 0 <= i < |front| && front[i].Granted? && front[i].target == t;
          assert trace[i] == front[i];
        } else if e.Granted? && e.target == t {
          assert trace[|front|] == e;
        }
        if i :| 0 <= i < |trace| && trace[i].Granted? && trace[i].target == t {
          if i < |front| {
            assert front[i] == trace[i];
          }
        }
      }
    }
  }

  /** Each target is selected at most once, although it may be listed in several layers and
    * passes. */
  lemma GrantedAtMostOnce(candidates: seq<Target>, stream: bool, trace: seq<Event>, i: nat, j: nat)
    requires After(candidates, stream, trace).Some? && i < j < |trace| && trace[i].Granted? && trace[j].Granted?
    ensures trace[i].target != trace[j].target
  {
    var s := GrantsAreKept(candidates, stream, trace);
  }

  // ---------------------------------------------------------------- order

  /** The target was attempted before, or refused since the pass began. */
  ghost predicate Passed(trace: seq<Event>, n: nat, t: Target)
    requires n <= |trace|
  {
    exists i :: 0 <= i < n && ((trace[i].Granted? && trace[i].target == t)
                               || ((trace[i].NoCapacity? || trace[i].Declined?) && trace[i].target == t
                                   && forall k :: i < k < n ==> !trace[k].PassBegins?))
  }

  ghost predicate PassKept(trace: seq<Event>, s: Standing) {
    && (forall t :: t in s.attempted ==> Passed(trace, |trace|, t))
    && (!s.stage.Between? ==> forall t :: t in s.evaluated ==> Passed(trace, |trace|, t) || s.stage == Holding(t))
  }

  lemma StillPassed(trace: seq<Event>, n: nat, e: Event, t: Target)
    requires n == |trace| && Passed(trace, n, t)
    requires !e.PassBegins? || exists i :: 0 <= i < n && trace[i].Granted? && trace[i].target == t
    ensures Passed(trace + [e], n + 1, t)
  {
    var more := trace + [e];
    assert forall k :: 0 <= k < n ==> more[k] == trace[k];
    if e.PassBegins? {
      var i :| 0 <= i < n && trace[i].Granted? && trace[i].target == t;
      assert more[i].Granted? && more[i].target == t;
    } else {
      var i :| 0 <= i < n && ((trace[i].Granted? && trace[i].target == t)
                              || ((trace[i].NoCapacity? || trace[i].Declined?) && trace[i].target == t
                                  && forall k :: i < k < n ==> !trace[k].PassBegins?));
      assert more[i] == trace[i];
      assert forall k :: i < k < n + 1 && k != n ==> more[k] == trace[k];
    }
  }

  lemma NowPassed(trace: seq<Event>, e: Event, t: Target)
    requires (e.Granted? || e.NoCapacity? || e.Declined?) && e.target == t
    ensures Passed(trace + [e], |trace| + 1, t)
  {
    assert (trace + [e])[|trace|] == e;
  }

  lemma {:induction false} PassIsKept(candidates: seq<Target>, stream: bool, trace: seq<Event>) returns (s: Standing)
    requires After(candidates, stream, trace).Some?
    ensures After(candidates, stream, trace) == Some(s) && PassKept(trace, s)
  {
    s := After(candidates, stream, trace).value;
    if trace != [] {
      var front, e := trace[..|trace| - 1], trace[|trace| - 1];
      var before := PassIsKept(candidates, stream, front);
      var same := GrantsAreKept(candidates, stream, front);
      hide After, NextTarget, Passed;
      assert trace == front + [e];
      forall t | t in s.attempted || (!s.stage.Between? && t in s.evaluated && s.stage != Holding(t))
        ensures Passed(trace, |trace|, t)
      {
        PassStep(candidates, stream, front, before, e, s, t);
      }
    }
  }

  lemma PassStep(candidates: seq<Target>, stream: bool, front: seq<Event>, before: Standing, e: Event, s: Standing,
                    t: Target)
    requires PassKept(front, before) && GrantsKept(front, before) && Turn(candidates, stream, before, e) == Some(s)
    requires t in s.attempted || (!s.stage.Between? && t in s.evaluated && s.stage != Holding(t))
    ensures Passed(front + [e], |front| + 1, t)
  {
    hide Passed, NextTarget;
    if (e.Granted? || e.NoCapacity? || e.Declined?) && e.target == t {
      NowPassed(front, e, t);
    } else {
      assert Passed(front, |front|, t);
      StillPassed(front, |front|, e, t);
    }
  }

  /** A candidate is looked at only when every earlier candidate was already attempted, or was
    * refused in the same pass. */
  lemma EarlierCandidatesPassed(candidates: seq<Target>, stream: bool, trace: seq<Event>, j: nat) returns (i: nat)
    requires After(candidates, stream, trace).Some? && j < |trace| && (trace[j].Acquired? || trace[j].NoCapacity?)
    ensures i < |candidates| && candidates[i] == trace[j].target
    ensures forall k :: 0 <= k < i ==> Passed(trace, j, candidates[k])
  {
    var s := StepAt(candidates, stream, trace, j);
    var same := PassIsKept(candidates, stream, trace[..j]);
    NextIsUnseen(candidates, s.attempted + s.evaluated);
    i :| 0 <= i < |candidates| && candidates[i] == trace[j].target
         && forall k :: 0 <= k < i ==> candidates[k] in s.attempted + s.evaluated;
    hide After, NextTarget;
    forall k | 0 <= k < i
      ensures Passed(trace, j, candidates[k])
    {
      PassedInPrefix(trace, j, candidates[k]);
    }
  }

  lemma PassedInPrefix(trace: seq<Event>, j: nat, t: Target)
    requires j <= |trace| && Passed(trace[..j], j, t)
    ensures Passed(trace, j, t)
  {
    var i :| 0 <= i < j && ((trace[..j][i].Granted? && trace[..j][i].target == t)
                            || ((trace[..j][i].NoCapacity? || trace[..j][i].Declined?) && trace[..j][i].target == t
                                && forall k :: i < k < j ==> !trace[..j][k].PassBegins?));
    assert forall k :: 0 <= k < j ==> trace[..j][k] == trace[k];
  }

  /** A pass ends only when every candidate was attempted, or refused in it. */
  lemma PassesAreExhaustive(candidates: seq<Target>, stream: bool, trace: seq<Event>, j: nat, k: nat)
    requires After(candidates, stream, trace).Some? && j < |trace| && trace[j].PassEnds? && k < |candidates|
    ensures Passed(trace, j, candidates[k])
  {
    var s := StepAt(candidates, stream, trace, j);
    var same := PassIsKept(candidates, stream, trace[..j]);
    NextIsUnseen(candidates, s.attempted + s.evaluated);
    PassedInPrefix(trace, j, candidates[k]);
  }

  // ---------------------------------------------------------------- attempts

  ghost predicate AttemptOf(trace: seq<Event>, i: int, t: Target) {
    0 <= i < |trace| && trace[i].Attempted? && trace[i].target == t
  }

  /** Attempts belong to granted targets; the current target has been attempted as often as the
    * stage says; and a second attempt directly follows an ambiguous rejection. */
  ghost predicate AttemptsKept(trace: seq<Event>, s: Standing) {
    && (forall i, t :: AttemptOf(trace, i, t) ==> t in s.attempted)
    && (s.stage.Trying? ==> s.stage.target in s.attempted)
    && (s.stage.Trying? && !s.stage.retried ==> forall i :: !AttemptOf(trace, i, s.stage.target))
    && (s.stage.Trying? && s.stage.retried ==>
          AttemptOf(trace, |trace| - 1, s.stage.target)
          && trace[|trace| - 1].result == FailedWith(ProviderAmbiguousRejection)
          && forall i :: AttemptOf(trace, i, s.stage.target) ==> i == |trace| - 1)
    && (forall i, j, t :: i < j && AttemptOf(trace, i, t) && AttemptOf(trace, j, t) ==>
          j == i + 1 && trace[i].result == FailedWith(ProviderAmbiguousRejection))
  }

  lemma AttemptsGrow(front: seq<Event>, e: Event, i: int, t: Target)
    ensures AttemptOf(front + [e], i, t) <==> AttemptOf(front, i, t) || (i == |front| && e.Attempted? && e.target == t)
    ensures 0 <= i < |front| ==> (front + [e])[i] == front[i]
  {
  }

  lemma {:induction false} AttemptsAreKept(candidates: seq<Target>, stream: bool, trace: seq<Event>)
    returns (s: Standing)
    requires After(candidates, stream, trace).Some?
    ensures After(candidates, stream, trace) == Some(s) && AttemptsKept(trace, s)
  {
    s := After(candidates, stream, trace).value;
    if trace != [] {
      var front, e := trace[..|trace| - 1], trace[|trace| - 1];
      var before := AttemptsAreKept(candidates, stream, front);
      var same := GrantsAreKept(candidates, stream, front);
      hide After, NextTarget;
      assert trace == front + [e];
      AttemptStep(candidates, stream, front, before, e, s);
    }
  }

  lemma AttemptStep(candidates: seq<Target>, stream: bool, front: seq<Event>, before: Standing, e: Event, s: Standing)
    requires AttemptsKept(front, before) && GrantsKept(front, before) && Turn(candidates, stream, before, e) == Some(s)
    ensures AttemptsKept(front + [e], s)
  {
    hide NextTarget;
    var trace := front + [e];
    forall i, t
      ensures AttemptOf(trace, i, t) <==> AttemptOf(front, i, t) || (i == |front| && e.Attempted? && e.target == t)
      ensures 0 <= i < |front| ==> trace[i] == front[i]
    {
      AttemptsGrow(front, e, i, t);
    }
    assert trace[|front|] == e;
  }

  /** A target is attempted at most twice, and the second time only right after an ambiguous
    * rejection. */
  lemma SecondAttemptsFollowAmbiguity(candidates: seq<Target>, stream: bool, trace: seq<Event>, i: nat, j: nat,
                                      t: Target)
    requires After(candidates, stream, trace).Some? && i < j && AttemptOf(trace, i, t) && AttemptOf(trace, j, t)
    ensures j == i + 1 && trace[i].result == FailedWith(ProviderAmbiguousRejection)
    ensures forall k :: AttemptOf(trace, k, t) ==> k == i || k == j
  {
    var s := AttemptsAreKept(candidates, stream, trace);
  }

  // ---------------------------------------------------------------- endings

  /** An attempt that ends the routing: success, or a failure that is the client's own. */
  predicate Decisive(e: Event) {
    e.Attempted? && (e.result.Succeeded? || e.result.class_ == ClientRequest || e.result.class_ == ClientCancelled)
  }

  function Settlement(e: Event): Event
    requires e.Attempted?
  {
    Settled(e.target, if e.result.Succeeded? then None else Some(e.result.class_))
  }

  ghost predicate EndKept(trace: seq<Event>, s: Standing) {
    var n := |trace|;
    && (forall i :: 0 <= i < n && Decisive(trace[i]) ==> EndAt(trace, s.stage, i))
    && (s.stage.Failing? ==> n > 0 && trace[n - 1] == Attempted(s.sequence, s.stage.target, FailedWith(s.stage.class_)))
    && (s.stage.Winning? ==> n > 0 && trace[n - 1] == Attempted(s.sequence, s.stage.target, Succeeded))
    && (s.stage.Leaving? && s.stage.forGood ==> n >= 2 && Decisive(trace[n - 2]))
    && (s.stage.Over? ==> n >= 3 && Decisive(trace[n - 3]))
  }

  /** Where a decisive attempt leaves the request. */
  predicate EndAt(trace: seq<Event>, stage: Stage, i: nat)
    requires i < |trace| && Decisive(trace[i])
  {
    var n, t := |trace|, trace[i].target;
    match stage
    case Winning(w) => i == n - 1 && w == t && trace[i].result.Succeeded?
    case Failing(f, class_) => i == n - 1 && f == t && trace[i].result == FailedWith(class_)
    case Leaving(l, forGood) => forGood && i == n - 2 && l == t && trace[n - 1] == Settlement(trace[i])
    case Over => i == n - 3 && trace[n - 2] == Settlement(trace[i]) && trace[n - 1] == Released(t)
    case _ => false
  }

  lemma EndStep(candidates: seq<Target>, stream: bool, front: seq<Event>, before: Standing, e: Event, s: Standing)
    requires EndKept(front, before) && Turn(candidates, stream, before, e) == Some(s)
    ensures EndKept(front + [e], s)
  {
    hide NextTarget;
    var trace := front + [e];
    assert trace[|front|] == e;
    assert forall i :: 0 <= i < |front| ==> trace[i] == front[i];
  }

  lemma {:induction false} EndIsKept(candidates: seq<Target>, stream: bool, trace: seq<Event>) returns (s: Standing)
    requires After(candidates, stream, trace).Some?
    ensures After(candidates, stream, trace) == Some(s) && EndKept(trace, s)
  {
    hide Turn, EndKept;
    s := After(candidates, stream, trace).value;
    if trace != [] {
      var front, e := trace[..|trace| - 1], trace[|trace| - 1];
      var before := EndIsKept(candidates, stream, front);
      assert trace == front + [e];
      EndStep(candidates, stream, front, before, e, s);
    } else {
      NoEnd();
    }
  }

  lemma NoEnd()
    ensures EndKept([], Start())
  {
  }

  /** Nothing follows a success or a failure without fallback but the settlement of its permit and
    * the release of its lease. */
  lemma NothingFollowsTheEnd(candidates: seq<Target>, stream: bool, trace: seq<Event>, i: nat)
    requires After(candidates, stream, trace).Some? && i < |trace| && Decisive(trace[i])
    ensures |trace| <= i + 3
    ensures i + 1 < |trace| ==> trace[i + 1] == Settlement(trace[i])
    ensures i + 2 < |trace| ==> trace[i + 2] == Released(trace[i].target)
  {
    var s := EndIsKept(candidates, stream, trace);
    hide After;
  }

  /** ... and nothing else ends a request: when it is over, that was its last attempt. */
  lemma OnlyDecisiveAttemptsEnd(candidates: seq<Target>, stream: bool, trace: seq<Event>)
    requires After(candidates, stream, trace).Some?
    ensures var stage := After(candidates, stream, trace).value.stage;
            && (stage.Over? ==> |trace| >= 3 && Decisive(trace[|trace| - 3]))
            && (stage.Winning? ==> |trace| > 0 && Decisive(trace[|trace| - 1]) && trace[|trace| - 1].result.Succeeded?)
  {
    var s := EndIsKept(candidates, stream, trace);
    hide After;
  }

  /** The first attempt of a target that is rejected ambiguously is followed by a second one. */
  lemma AmbiguityIsRetried(candidates: seq<Target>, stream: bool, trace: seq<Event>, j: nat)
    requires After(candidates, stream, trace).Some? && j + 1 < |trace| && trace[j].Attempted?
    requires trace[j].result == FailedWith(ProviderAmbiguousRejection)
    requires forall i :: 0 <= i < j ==> !AttemptOf(trace, i, trace[j].target)
    ensures trace[j + 1].Attempted? && trace[j + 1].target == trace[j].target
  {
    var s := StepAt(candidates, stream, trace, j);
    var t := StepAt(candidates, stream, trace, j + 1);
    var u := AttemptsAreKept(candidates, stream, trace[..j]);
    OneMore(candidates, stream, trace[..j], trace[j]);
    assert trace[..j + 1] == trace[..j] + [trace[j]];
    var target := trace[j].target;
    assert s.stage.Trying? && s.stage.target == target;
    assert AttemptOf(trace[..j], j - 1, target) ==> AttemptOf(trace, j - 1, target);
    hide After, NextTarget;
  }

  // ---------------------------------------------------------------- leases and permits

  /** Leases of the target taken and not yet released. */
  function Held(trace: seq<Event>, t: Target): int {
    if trace == [] then 0
    else
      var e := trace[|trace| - 1];
      Held(trace[..|trace| - 1], t)
      + if e == Acquired(t) then 1 else if e == Released(t) then -1 else 0
  }

  /** Permits of the target granted and not yet settled. */
  function Owed(trace: seq<Event>, t: Target): int {
    if trace == [] then 0
    else
      var e := trace[|trace| - 1];
      Owed(trace[..|trace| - 1], t)
      + if e.Granted? && e.target == t then 1 else if e.Settled? && e.target == t then -1 else 0
  }

  predicate HoldsLease(s: Stage, t: Target) {
    (s.Holding? || s.Trying? || s.Failing? || s.Winning? || s.Leaving?) && s.target == t
  }

  predicate HoldsPermit(s: Stage, t: Target) { (s.Trying? || s.Failing? || s.Winning?) && s.target == t }

  /** At any moment, each target's lease and permit are outstanding exactly once or not at all:
    * none is lost, released twice or settled twice. */
  lemma {:induction false} LeasesAndPermitsBalance(candidates: seq<Target>, stream: bool, trace: seq<Event>, t: Target)
    requires After(candidates, stream, trace).Some?
    ensures var s := After(candidates, stream, trace).value;
            && Held(trace, t) == (if HoldsLease(s.stage, t) then 1 else 0)
            && Owed(trace, t) == (if HoldsPermit(s.stage, t) then 1 else 0)
  {
    if trace != [] {
      var front, e := trace[..|trace| - 1], trace[|trace| - 1];
      LeasesAndPermitsBalance(candidates, stream, front, t);
      TurnHolds(candidates, stream, After(candidates, stream, front).value, e, t);
      hide Turn, HoldsLease, HoldsPermit;
    }
  }

  lemma TurnHolds(candidates: seq<Target>, stream: bool, s: Standing, e: Event, t: Target)
    requires Turn(candidates, stream, s, e).Some?
    ensures var n := Turn(candidates, stream, s, e).value;
            && (HoldsLease(n.stage, t) <==> e == Acquired(t) || (HoldsLease(s.stage, t) && e != Released(t)))
            && (e == Acquired(t) ==> !HoldsLease(s.stage, t)) && (e == Released(t) ==> HoldsLease(s.stage, t))
            && (HoldsPermit(n.stage, t) <==> (e.Granted? && e.target == t)
                                             || (HoldsPermit(s.stage, t) && !(e.Settled? && e.target == t)))
            && (e.Granted? && e.target == t ==> !HoldsPermit(s.stage, t))
            && (e.Settled? && e.target == t ==> HoldsPermit(s.stage, t))
  {
    hide NextTarget;
  }

  /** When a request is done, only a winning stream still holds its lease and its permit. */
  lemma OnlyWinningStreamsHold(candidates: seq<Target>, stream: bool, trace: seq<Event>, t: Target)
    requires After(candidates, stream, trace).Some?
    requires var stage := After(candidates, stream, trace).value.stage;
             stage.Between? || stage.Over? || (stream && stage.Winning?)
    ensures var stage := After(candidates, stream, trace).value.stage;
            Held(trace, t) == Owed(trace, t) == if stage == Winning(t) then 1 else 0
  {
    hide After, Held, Owed;
    LeasesAndPermitsBalance(candidates, stream, trace, t);
  }

  // ---------------------------------------------------------------- answers

  lemma {:induction false} AnsweredPrefix(world: Surroundings, trace: seq<Event>, n: nat)
    requires Answered(world, trace) && n <= |trace|
    ensures Answered(world, trace[..n])
    ensures n < |trace| ==> Allows(world, Passes(trace[..n]), Waiting(trace[..n]), trace[n])
  {
    hide Allows, Passes, Waiting;
    if n == |trace| {
      assert trace[..n] == trace;
    } else if n < |trace| - 1 {
      var front := trace[..|trace| - 1];
      AnsweredPrefix(world, front, n);
      assert front[..n] == trace[..n] && front[n] == trace[n];
    }
  }

  /** At most one event is lawful and what the rest of the system answers. */
  lemma OneEventIsDue(candidates: seq<Target>, stream: bool, world: Surroundings, s: Standing, passes: nat,
                      waiting: bool, e: Event, f: Event)
    requires Turn(candidates, stream, s, e).Some? && Allows(world, passes, waiting, e)
    requires Turn(candidates, stream, s, f).Some? && Allows(world, passes, waiting, f)
    ensures e == f
  {
    hide NextTarget, GoesOn;
  }

  lemma NothingIsDue(candidates: seq<Target>, stream: bool, world: Surroundings, trace: seq<Event>, s: Standing,
                     e: Event)
    requires Done(world, stream, trace, s.stage) && Turn(candidates, stream, s, e).Some?
    ensures !Allows(world, Passes(trace), Waiting(trace), e)
  {
    hide NextTarget, GoesOn, Passes, Waiting;
  }

  lemma {:induction false} SameStart(candidates: seq<Target>, stream: bool, world: Surroundings, a: seq<Event>,
                                     b: seq<Event>)
    requires After(candidates, stream, a).Some? && Answered(world, a)
    requires After(candidates, stream, b).Some? && Answered(world, b) && |a| <= |b|
    ensures b[..|a|] == a
  {
    if a != [] {
      var n := |a| - 1;
      var s := StepAt(candidates, stream, a, n);
      var t := StepAt(candidates, stream, b, n);
      AnsweredPrefix(world, a, n);
      AnsweredPrefix(world, b, n);
      Prefix(candidates, stream, a, n);
      hide After, Turn, Answered, Allows, Passes, Waiting;
      SameStart(candidates, stream, world, a[..n], b);
      OneEventIsDue(candidates, stream, world, s, Passes(a[..n]), Waiting(a[..n]), a[n], b[n]);
      FrontAndLast(a);
      assert b[..n + 1] == b[..n] + [b[n]];
    }
  }

  /** The answers of the rest of the system determine what a request does: no two traces are lawful,
    * answered and over. */
  lemma AnswersDetermineTheTrace(candidates: seq<Target>, stream: bool, world: Surroundings, a: seq<Event>,
                                 b: seq<Event>)
    requires After(candidates, stream, a).Some? && Answered(world, a)
    requires After(candidates, stream, b).Some? && Answered(world, b)
    requires Done(world, stream, a, After(candidates, stream, a).value.stage)
    requires Done(world, stream, b, After(candidates, stream, b).value.stage)
    ensures a == b
  {
    var short, long := if |a| <= |b| then a else b, if |a| <= |b| then b else a;
    SameStart(candidates, stream, world, short, long);
    if |short| < |long| {
      var s := StepAt(candidates, stream, long, |short|);
      AnsweredPrefix(world, long, |short|);
      NothingIsDue(candidates, stream, world, short, s, long[|short|]);
    } else {
      assert long[..|short|] == long;
    }
  }

  /** A request begins with a pass, and it is between passes only when one has ended. */
  lemma PassesBracketTheTrace(candidates: seq<Target>, stream: bool, trace: seq<Event>)
    requires After(candidates, stream, trace).Some? && trace != []
    ensures trace[0].PassBegins?
    ensures After(candidates, stream, trace).value.stage.Between? <==> trace[|trace| - 1].PassEnds?
  {
    var s := StepAt(candidates, stream, trace, 0);
    var t := StepAt(candidates, stream, trace, |trace| - 1);
    hide NextTarget;
  }

  /** What allows each event: capacity and the circuit's decision are those of the pass it happens in,
    * an attempt ends as the upstream answers it, and another pass begins only after one that left a
    * candidate to wait for, whose probe settled within the budget. */
  lemma EventsAreAnswered(world: Surroundings, trace: seq<Event>, i: nat)
    requires Answered(world, trace) && i < |trace|
    ensures var pass := Passes(trace[..i]) - 1;
            && (trace[i].Acquired? ==> pass >= 0 && world.admits(pass, trace[i].target))
            && (trace[i].NoCapacity? ==> pass >= 0 && !world.admits(pass, trace[i].target))
            && (trace[i].Granted? ==> pass >= 0 && world.decides(pass, trace[i].target) == Primary(trace[i].probe))
            && (trace[i].Declined? ==>
                  pass >= 0 && world.decides(pass, trace[i].target) == Fallback(trace[i].reason, trace[i].wait))
            && (trace[i].Attempted? ==> trace[i].result == world.answers(trace[i].sequence))
            && (trace[i].PassBegins? && pass >= 0 ==>
                  Waiting(trace[..i]) && pass < world.budget && world.wakes(pass))
  {
    AnsweredPrefix(world, trace, i);
    hide Answered, Passes, Waiting;
  }

  /** A pass leaves something to wait for when one of its candidates was declined so. */
  lemma {:induction false} WaitingMeansDeclined(trace: seq<Event>)
    ensures Waiting(trace) <==> exists i :: 0 <= i < |trace| && trace[i].Declined? && trace[i].wait
                                            && forall k :: i < k < |trace| ==> !trace[k].PassBegins?
  {
    if trace != [] {
      var front, e := trace[..|trace| - 1], trace[|trace| - 1];
      WaitingMeansDeclined(front);
      hide Waiting;
      assert Waiting(trace) == (!e.PassBegins? && (Waiting(front) || (e.Declined? && e.wait))) by {
        FrontAndLast(trace);
        WaitingGrows(front, e);
      }
      if Waiting(front) && !e.PassBegins? {
        var i :| 0 <= i < |front| && front[i].Declined? && front[i].wait
                 && forall k :: i < k < |front| ==> !front[k].PassBegins?;
        assert trace[i] == front[i] && forall k :: i < k < |trace| ==> trace[k] == if k < |front| then front[k] else e;
      }
      if i :| 0 <= i < |trace| && trace[i].Declined? && trace[i].wait
              && forall k :: i < k < |trace| ==> !trace[k].PassBegins? {
        if i < |front| {
          assert front[i] == trace[i] && forall k :: i < k < |front| ==> front[k] == trace[k];
        }
      }
    }
  }

  lemma WaitingGrows(trace: seq<Event>, e: Event)
    ensures Waiting(trace + [e]) == (!e.PassBegins? && (Waiting(trace) || (e.Declined? && e.wait)))
  {
    assert (trace + [e])[..|trace|] == trace;
  }

  // ---------------------------------------------------------------- what is reported

  /** What an event gives as a reason to look further. */
  predicate GivesReason(e: Event, class_: FailureClass) {
    || (e.NoCapacity? && class_ == LocalCapacity)
    || (e.Declined? && e.reason == Some(class_))
    || (e.Settled? && e.failure == Some(class_))
  }

  ghost predicate FirstAt(trace: seq<Event>, i: nat, class_: FailureClass) {
    i < |trace| && GivesReason(trace[i], class_) && forall k, c :: 0 <= k < i ==> !GivesReason(trace[k], c)
  }

  ghost predicate NoReason(trace: seq<Event>) { forall k, c :: 0 <= k < |trace| ==> !GivesReason(trace[k], c) }

  lemma {:induction false} FirstReasonAt(trace: seq<Event>) returns (i: nat)
    ensures FirstReason(trace).Some? ==> FirstAt(trace, i, FirstReason(trace).value)
    ensures FirstReason(trace).None? ==> NoReason(trace)
  {
    i := 0;
    if trace != [] {
      var (front, last) := (trace[..|trace| - 1], trace[|trace| - 1]);
      i := FirstReasonAt(front);
      ReasonGrows(front, last);
      assert front + [last] == trace;
      hide FirstReason;
      if FirstReason(front).None? {
        i := |front|;
      }
    }
  }

  /** The reason that is reported is the first one that was given. */
  lemma FirstReasonIs(trace: seq<Event>, class_: FailureClass)
    ensures FirstReason(trace) == Some(class_) <==> exists i: nat :: FirstAt(trace, i, class_)
    ensures FirstReason(trace) == None <==> NoReason(trace)
  {
    var i := FirstReasonAt(trace);
    if j: nat :| FirstAt(trace, j, class_) {
      assert GivesReason(trace[j], class_);
      hide FirstReason, GivesReason;
      if FirstReason(trace).Some? && FirstReason(trace).value != class_ {
        var c := FirstReason(trace).value;
        assert FirstAt(trace, i, c) && GivesReason(trace[i], c);
        OneReason(trace[i], c, class_);
      }
    }
  }

  lemma OneReason(e: Event, a: FailureClass, b: FailureClass)
    requires GivesReason(e, a) && GivesReason(e, b)
    ensures a == b
  {
  }

  /** The failure that is reported is the last one that was settled. */
  lemma {:induction false} LastFailureIs(trace: seq<Event>, target: Target, class_: FailureClass)
    ensures LastFailure(trace) == Some((target, class_)) <==>
              exists i :: 0 <= i < |trace| && trace[i] == Settled(target, Some(class_))
                          && forall k :: i < k < |trace| ==> !(trace[k].Settled? && trace[k].failure.Some?)
    ensures LastFailure(trace) == None <==>
              forall k :: 0 <= k < |trace| ==> !(trace[k].Settled? && trace[k].failure.Some?)
  {
    if trace != [] {
      var (front, last) := (trace[..|trace| - 1], trace[|trace| - 1]);
      LastFailureIs(front, target, class_);
      ReasonGrows(front, last);
      assert front + [last] == trace;
      hide LastFailure;
    }
  }
}
