/** The warm epochs of a lease: which checkpoints it is believed to hold, and until when. */
module WarmEpochs {
  import opened Prelude

  datatype Confidence = Pending | SuccessfulRequest | ProviderReported {
    function Rank(): nat { if Pending? then 0 else if SuccessfulRequest? then 1 else 2 }
  }

  datatype Epoch = Epoch(through: nat, expires: int, tokens: nat, confidence: Confidence)

  predicate Dominates(a: Epoch, b: Epoch) { a.through >= b.through && a.expires >= b.expires }

  predicate AnyDominates(epochs: seq<Epoch>, e: Epoch) {
    exists i :: 0 <= i < |epochs| && Dominates(epochs[i], e)
  }

  /** Some epoch holds the checkpoint at the time. */
  predicate Covers(epochs: seq<Epoch>, ordinal: nat, now: int) {
    exists i :: 0 <= i < |epochs| && epochs[i].through >= ordinal && epochs[i].expires > now
  }

  function Without(epochs: seq<Epoch>, e: Epoch): seq<Epoch> {
    if epochs == [] then []
    else
      var last := epochs[|epochs| - 1];
      Without(epochs[..|epochs| - 1], e) + if Dominates(e, last) then [] else [last]
  }

  function Unexpired(epochs: seq<Epoch>, now: int): seq<Epoch> {
    if epochs == [] then []
    else
      var last := epochs[|epochs| - 1];
      Unexpired(epochs[..|epochs| - 1], now) + if last.expires > now then [last] else []
  }

  // ---------------------------------------------------------------- compaction

  function Undominated(epochs: seq<Epoch>, all: seq<Epoch>): seq<Epoch> {
    if epochs == [] then []
    else
      var last := epochs[|epochs| - 1];
      Undominated(epochs[..|epochs| - 1], all)
      + if exists i :: 0 <= i < |all| && all[i] != last && Dominates(all[i], last) then [] else [last]
  }

  predicate KeyBefore(a: Epoch, b: Epoch) {
    a.through < b.through || (a.through == b.through && a.expires < b.expires)
  }

  /** Stable insertion by (frontier, expiry). */
  function Place(sorted: seq<Epoch>, e: Epoch): seq<Epoch> {
    if sorted == [] then [e]
    else
      var last := sorted[|sorted| - 1];
      if KeyBefore(e, last) then Place(sorted[..|sorted| - 1], e) + [last] else sorted + [e]
  }

  function Sorted(epochs: seq<Epoch>): seq<Epoch> {
    if epochs == [] then [] else Place(Sorted(epochs[..|epochs| - 1]), epochs[|epochs| - 1])
  }

  function Deduplicated(epochs: seq<Epoch>): seq<Epoch> {
    if |epochs| < 2 then epochs
    else
      var front := Deduplicated(epochs[..|epochs| - 1]);
      if epochs[|epochs| - 1] == epochs[|epochs| - 2] then front else front + [epochs[|epochs| - 1]]
  }

  function Compact(epochs: seq<Epoch>): seq<Epoch> { Deduplicated(Sorted(Undominated(epochs, epochs))) }

  /** A new epoch takes the place of those it dominates; nothing happens when it is dominated. */
  function Insert(epochs: seq<Epoch>, e: Epoch): Option<seq<Epoch>> {
    if AnyDominates(epochs, e) then None else Some(Compact(Without(epochs, e) + [e]))
  }

  /** What an expiry leaves of the epochs. */
  function Expire(epochs: seq<Epoch>, now: int): seq<Epoch> {
    var left := Unexpired(epochs, now);
    if |left| == |epochs| || left == [] then left else Compact(left)
  }

  // ---------------------------------------------------------------- the front

  /** Later epochs reach strictly further and expire strictly earlier. */
  ghost predicate Front(epochs: seq<Epoch>) {
    forall i, j :: 0 <= i < j < |epochs| ==>
      epochs[i].through < epochs[j].through && epochs[i].expires > epochs[j].expires
  }

  ghost predicate Incomparable(epochs: seq<Epoch>) {
    forall i, j :: 0 <= i < j < |epochs| ==> !Dominates(epochs[i], epochs[j]) && !Dominates(epochs[j], epochs[i])
  }

  lemma FrontIsIncomparable(epochs: seq<Epoch>)
    requires Front(epochs)
    ensures Incomparable(epochs)
  {
  }

  lemma {:induction false} NothingIsDominated(epochs: seq<Epoch>, all: seq<Epoch>)
    requires Incomparable(all) && epochs <= all
    ensures Undominated(epochs, all) == epochs
  {
    if epochs != [] {
      var last := |epochs| - 1;
      NothingIsDominated(epochs[..last], all);
      assert epochs[last] == all[last];
      assert forall i :: 0 <= i < |all| && i != last ==> !Dominates(all[i], all[last]);
    }
  }

  /** Placing an epoch that is comparable with none into a front gives a front. */
  lemma {:induction false} PlaceKeepsFront(front: seq<Epoch>, e: Epoch)
    requires Front(front) && !AnyDominates(front, e)
    requires forall i :: 0 <= i < |front| ==> !Dominates(e, front[i])
    ensures Front(Place(front, e)) && |Place(front, e)| == |front| + 1
    ensures forall x :: x in Place(front, e) <==> x in front || x == e
  {
    if front != [] {
      var last := front[|front| - 1];
      var rest := front[..|front| - 1];
      assert front == rest + [last];
      assert forall i :: 0 <= i < |rest| ==> rest[i] == front[i];
      if KeyBefore(e, last) {
        assert !AnyDominates(rest, e);
        PlaceKeepsFront(rest, e);
        var placed := Place(rest, e);
        forall i | 0 <= i < |placed|
          ensures placed[i].through < last.through && placed[i].expires > last.expires
        {
          assert placed[i] in placed;
          if placed[i] != e {
            var j :| 0 <= j < |rest| && rest[j] == placed[i];
          } else {
            assert !Dominates(front[|front| - 1], e);
          }
        }
      } else {
        assert !Dominates(front[|front| - 1], e);
        forall i | 0 <= i < |front|
          ensures front[i].through < e.through && front[i].expires > e.expires
        {
          assert !Dominates(front[i], e);
          assert front[i].through <= last.through && front[i].expires >= last.expires;
        }
      }
    }
  }

  lemma {:induction false} SortedIsFront(epochs: seq<Epoch>)
    requires Incomparable(epochs)
    ensures Front(Sorted(epochs)) && |Sorted(epochs)| == |epochs|
    ensures forall x :: x in Sorted(epochs) <==> x in epochs
  {
    if epochs != [] {
      var front, last := epochs[..|epochs| - 1], epochs[|epochs| - 1];
      SortedIsFront(front);
      assert epochs == front + [last];
      var s := Sorted(front);
      forall i | 0 <= i < |s|
        ensures !Dominates(s[i], last) && !Dominates(last, s[i])
      {
        assert s[i] in front;
        var j :| 0 <= j < |front| && front[j] == s[i];
        assert epochs[j] == s[i];
      }
      PlaceKeepsFront(s, last);
    }
  }

  lemma {:induction false} FrontHasNoDuplicates(epochs: seq<Epoch>)
    requires Front(epochs)
    ensures Deduplicated(epochs) == epochs
  {
    if |epochs| >= 2 {
      FrontHasNoDuplicates(epochs[..|epochs| - 1]);
      assert epochs[|epochs| - 2].through < epochs[|epochs| - 1].through;
    }
  }

  /** Compacting epochs none of which dominates another only sorts them. */
  lemma CompactSorts(epochs: seq<Epoch>)
    requires Incomparable(epochs)
    ensures Front(Compact(epochs)) && |Compact(epochs)| == |epochs|
    ensures forall x :: x in Compact(epochs) <==> x in epochs
  {
    hide Undominated, Sorted, Deduplicated;
    NothingIsDominated(epochs, epochs);
    SortedIsFront(epochs);
    FrontHasNoDuplicates(Sorted(epochs));
  }

  lemma {:induction false} FrontIsSorted(epochs: seq<Epoch>)
    requires Front(epochs)
    ensures Sorted(epochs) == epochs
  {
    if epochs != [] {
      var front := epochs[..|epochs| - 1];
      FrontIsSorted(front);
      if front != [] {
        assert front[|front| - 1] == epochs[|epochs| - 2];
      }
    }
  }

  /** Compacting a front changes nothing. */
  lemma CompactKeepsFront(epochs: seq<Epoch>)
    requires Front(epochs)
    ensures Compact(epochs) == epochs
  {
    hide Undominated, Sorted, Deduplicated;
    FrontIsIncomparable(epochs);
    NothingIsDominated(epochs, epochs);
    FrontIsSorted(epochs);
    FrontHasNoDuplicates(epochs);
  }

  lemma {:induction false} UndominatedIs(epochs: seq<Epoch>, all: seq<Epoch>)
    ensures forall x :: x in Undominated(epochs, all)
                        <==> x in epochs && forall y :: y in all && y != x ==> !Dominates(y, x)
  {
    if epochs != [] {
      var front, last := epochs[..|epochs| - 1], epochs[|epochs| - 1];
      UndominatedIs(front, all);
      assert epochs == front + [last];
    }
  }

  lemma {:induction false} PlaceHolds(sorted: seq<Epoch>, e: Epoch)
    ensures forall x :: x in Place(sorted, e) <==> x in sorted || x == e
  {
    if sorted != [] {
      PlaceHolds(sorted[..|sorted| - 1], e);
      assert sorted == sorted[..|sorted| - 1] + [sorted[|sorted| - 1]];
    }
  }

  lemma {:induction false} SortedHolds(epochs: seq<Epoch>)
    ensures forall x :: x in Sorted(epochs) <==> x in epochs
  {
    if epochs != [] {
      var front, last := epochs[..|epochs| - 1], epochs[|epochs| - 1];
      SortedHolds(front);
      PlaceHolds(Sorted(front), last);
      assert epochs == front + [last];
    }
  }

  lemma {:induction false} DeduplicatedHolds(epochs: seq<Epoch>)
    ensures forall x :: x in Deduplicated(epochs) <==> x in epochs
  {
    if |epochs| >= 2 {
      var front, last := epochs[..|epochs| - 1], epochs[|epochs| - 1];
      DeduplicatedHolds(front);
      assert epochs == front + [last] && front[|front| - 1] == epochs[|epochs| - 2];
    }
  }

  /** Compaction keeps just the epochs that no other one dominates. */
  lemma CompactHolds(epochs: seq<Epoch>)
    ensures forall x :: x in Compact(epochs) <==> x in epochs && forall y :: y in epochs && y != x ==> !Dominates(y, x)
  {
    hide Undominated, Sorted, Deduplicated, Dominates;
    UndominatedIs(epochs, epochs);
    SortedHolds(Undominated(epochs, epochs));
    DeduplicatedHolds(Sorted(Undominated(epochs, epochs)));
  }

  /** An epoch that dominates the given one, and that only its equals dominate. */
  function Climb(epochs: seq<Epoch>, e: Epoch): Epoch {
    if epochs == [] then e
    else
      var top := Climb(epochs[..|epochs| - 1], e);
      if Dominates(epochs[|epochs| - 1], top) then epochs[|epochs| - 1] else top
  }

  lemma {:induction false} ClimbIsTop(epochs: seq<Epoch>, e: Epoch)
    ensures Climb(epochs, e) in epochs || Climb(epochs, e) == e
    ensures Dominates(Climb(epochs, e), e)
    ensures forall y :: y in epochs && Dominates(y, Climb(epochs, e)) ==> Dominates(Climb(epochs, e), y)
  {
    if epochs != [] {
      ClimbIsTop(epochs[..|epochs| - 1], e);
      assert epochs == epochs[..|epochs| - 1] + [epochs[|epochs| - 1]];
    }
  }

  predicate Equals(a: Epoch, b: Epoch) { a.through == b.through && a.expires == b.expires }

  /** Different epochs with the same frontier and expiry are dominated by one with another. */
  ghost predicate TwinsAreDominated(epochs: seq<Epoch>) {
    forall a, b :: a in epochs && b in epochs && a != b && Equals(a, b) ==> StrictlyDominated(epochs, a)
  }

  ghost predicate StrictlyDominated(epochs: seq<Epoch>, a: Epoch) {
    exists c :: c in epochs && Dominates(c, a) && !Equals(c, a)
  }

  /** Compaction keeps what a list covers exactly when no twins are left on top: it drops two
    * different epochs that dominate each other, both of them. */
  lemma CompactKeepsCoverageIff(epochs: seq<Epoch>)
    ensures (forall ordinal: nat, now: int :: Covers(Compact(epochs), ordinal, now) <==> Covers(epochs, ordinal, now))
            <==> TwinsAreDominated(epochs)
  {
    CompactHolds(epochs);
    hide Compact, Covers, StrictlyDominated;
    if TwinsAreDominated(epochs) {
      forall ordinal: nat, now: int
        ensures Covers(Compact(epochs), ordinal, now) <==> Covers(epochs, ordinal, now)
      {
        CoversByMember(epochs, ordinal, now);
        CoversByMember(Compact(epochs), ordinal, now);
        if x :| x in epochs && x.through >= ordinal && x.expires > now {
          TopIsKept(epochs, x);
          assert Climb(epochs, x) in Compact(epochs);
        }
      }
    } else {
      var a, b :| a in epochs && b in epochs && a != b && Equals(a, b) && !StrictlyDominated(epochs, a);
      CoversByMember(epochs, a.through, a.expires - 1);
      CoversByMember(Compact(epochs), a.through, a.expires - 1);
      TwinsAreDropped(epochs, a, b);
      assert Covers(epochs, a.through, a.expires - 1);
    }
  }

  lemma TopIsKept(epochs: seq<Epoch>, e: Epoch)
    requires e in epochs && TwinsAreDominated(epochs)
    ensures var top := Climb(epochs, e);
            top in epochs && Dominates(top, e) && forall y :: y in epochs && y != top ==> !Dominates(y, top)
  {
    ClimbIsTop(epochs, e);
  }

  lemma TwinsAreDropped(epochs: seq<Epoch>, a: Epoch, b: Epoch)
    requires a in epochs && b in epochs && a != b && Equals(a, b) && !StrictlyDominated(epochs, a)
    ensures forall x :: x in Compact(epochs) ==> !Dominates(x, a)
  {
    CompactHolds(epochs);
    hide Compact;
    forall x | x in Compact(epochs)
      ensures !Dominates(x, a)
    {
      assert x in epochs;
      assert Dominates(x, a) ==> Equals(x, a);
      assert x != a ==> !Dominates(a, x);
      assert x != b ==> !Dominates(b, x);
    }
  }

  // ---------------------------------------------------------------- insertion

  lemma {:induction false} WithoutIs(epochs: seq<Epoch>, e: Epoch)
    ensures forall x :: x in Without(epochs, e) <==> x in epochs && !Dominates(e, x)
    ensures Incomparable(epochs) ==> Incomparable(Without(epochs, e))
  {
    if epochs != [] {
      var front, last := epochs[..|epochs| - 1], epochs[|epochs| - 1];
      WithoutIs(front, e);
      assert epochs == front + [last];
      if Incomparable(epochs) {
        var w := Without(front, e);
        forall i | 0 <= i < |w|
          ensures !Dominates(w[i], last) && !Dominates(last, w[i])
        {
          assert w[i] in front;
          var j :| 0 <= j < |front| && front[j] == w[i];
          assert epochs[j] == w[i];
        }
      }
    }
  }

  lemma CoversByMember(epochs: seq<Epoch>, ordinal: nat, now: int)
    ensures Covers(epochs, ordinal, now) <==> exists x :: x in epochs && x.through >= ordinal && x.expires > now
  {
  }

  /** The epochs stay a front, and cover exactly what they covered before or what the new
    * evidence covers. */
  lemma InsertCovers(epochs: seq<Epoch>, e: Epoch, ordinal: nat, now: int)
    requires Front(epochs)
    ensures Insert(epochs, e).Some? ==> Front(Insert(epochs, e).value) && e in Insert(epochs, e).value
    ensures Covers(Insert(epochs, e).GetOr(epochs), ordinal, now)
            <==> Covers(epochs, ordinal, now) || (e.through >= ordinal && e.expires > now)
  {
    if AnyDominates(epochs, e) {
      var i :| 0 <= i < |epochs| && Dominates(epochs[i], e);
    } else {
      InsertIsFront(epochs, e);
      hide Compact, Without, AnyDominates;
      var after := Insert(epochs, e).value;
      CoversByMember(epochs, ordinal, now);
      CoversByMember(after, ordinal, now);
      if x :| x in epochs && x.through >= ordinal && x.expires > now {
        assert x in after || Dominates(e, x);
      }
    }
  }

  /** An epoch is inserted unless one that is there reaches as far and lasts as long. */
  lemma InsertFailsIff(epochs: seq<Epoch>, e: Epoch)
    ensures Insert(epochs, e).None? <==> exists x :: x in epochs && x.through >= e.through && x.expires >= e.expires
  {
    if x :| x in epochs && x.through >= e.through && x.expires >= e.expires {
      var i :| 0 <= i < |epochs| && epochs[i] == x;
      assert Dominates(epochs[i], e);
    }
  }

  lemma InsertIsFront(epochs: seq<Epoch>, e: Epoch)
    requires Front(epochs) && !AnyDominates(epochs, e)
    ensures Front(Compact(Without(epochs, e) + [e]))
    ensures forall x :: x in Compact(Without(epochs, e) + [e]) <==> (x in epochs && !Dominates(e, x)) || x == e
  {
    hide Compact, Without;
    FrontIsIncomparable(epochs);
    WithoutIs(epochs, e);
    var w := Without(epochs, e);
    forall i | 0 <= i < |w|
      ensures !Dominates(w[i], e) && !Dominates(e, w[i])
    {
      assert w[i] in epochs;
    }
    CompactSorts(w + [e]);
  }

  // ---------------------------------------------------------------- expiry

  predicate Decreasing(epochs: seq<Epoch>) {
    forall i, j :: 0 <= i < j < |epochs| ==> epochs[i].expires > epochs[j].expires
  }

  lemma {:induction false} AllUnexpired(epochs: seq<Epoch>, now: int)
    requires forall i :: 0 <= i < |epochs| ==> epochs[i].expires > now
    ensures Unexpired(epochs, now) == epochs
  {
    if epochs != [] {
      AllUnexpired(epochs[..|epochs| - 1], now);
    }
  }

  lemma {:induction false} UnexpiredIs(epochs: seq<Epoch>, now: int)
    requires Decreasing(epochs)
    ensures Unexpired(epochs, now) <= epochs
    ensures forall i :: 0 <= i < |epochs| ==> (epochs[i].expires > now <==> i < |Unexpired(epochs, now)|)
  {
    if epochs != [] {
      var last := |epochs| - 1;
      if epochs[last].expires > now {
        AllUnexpired(epochs, now);
      } else {
        var front := epochs[..last];
        UnexpiredIs(front, now);
        assert Unexpired(epochs, now) == Unexpired(front, now);
        assert forall i :: 0 <= i < last ==> front[i] == epochs[i];
      }
    }
  }

  lemma PrefixCovers(epochs: seq<Epoch>, left: seq<Epoch>, now: int, ordinal: nat, later: int)
    requires left <= epochs && now <= later
    requires forall i :: 0 <= i < |epochs| ==> (epochs[i].expires > now <==> i < |left|)
    ensures Covers(left, ordinal, later) <==> Covers(epochs, ordinal, later)
  {
    if Covers(epochs, ordinal, later) {
      var i :| 0 <= i < |epochs| && epochs[i].through >= ordinal && epochs[i].expires > later;
      assert left[i] == epochs[i];
    }
    if Covers(left, ordinal, later) {
      var i :| 0 <= i < |left| && left[i].through >= ordinal && left[i].expires > later;
      assert left[i] == epochs[i];
    }
  }

  lemma ExpireIsUnexpired(epochs: seq<Epoch>, now: int)
    requires Front(epochs)
    ensures Front(Expire(epochs, now)) && Expire(epochs, now) == Unexpired(epochs, now) && Expire(epochs, now) <= epochs
    ensures forall i :: 0 <= i < |epochs| ==> (epochs[i].expires > now <==> i < |Expire(epochs, now)|)
  {
    assert Decreasing(epochs);
    UnexpiredIs(epochs, now);
    var left := Unexpired(epochs, now);
    hide Compact, Unexpired;
    CompactKeepsFront(left);
  }

  /** Expiry keeps a front and everything it covers from now on, and nothing that has expired. */
  lemma ExpireCovers(epochs: seq<Epoch>, now: int)
    requires Front(epochs)
    ensures Front(Expire(epochs, now)) && Expire(epochs, now) == Unexpired(epochs, now) && Expire(epochs, now) <= epochs
    ensures forall ordinal: nat, later: int :: now <= later ==>
              (Covers(Expire(epochs, now), ordinal, later) <==> Covers(epochs, ordinal, later))
    ensures forall e :: e in Expire(epochs, now) ==> e.expires > now
  {
    hide Compact, Unexpired, Expire, Covers, Front;
    ExpireIsUnexpired(epochs, now);
    var left := Expire(epochs, now);
    forall ordinal: nat, later: int | now <= later
      ensures Covers(left, ordinal, later) <==> Covers(epochs, ordinal, later)
    {
      PrefixCovers(epochs, left, now, ordinal, later);
    }
  }

  // ---------------------------------------------------------------- the life of a lease

  datatype EpochStep = Learns(evidence: Epoch) | Forgets(now: int)

  /** The epochs of a lease after some observations and expiries since it was created. */
  function EpochsAfter(steps: seq<EpochStep>): seq<Epoch> {
    if steps == [] then []
    else
      var before := EpochsAfter(steps[..|steps| - 1]);
      match steps[|steps| - 1]
      case Learns(e) => Insert(before, e).GetOr(before)
      case Forgets(now) => Expire(before, now)
  }

  predicate Taught(steps: seq<EpochStep>, ordinal: nat, at: int) {
    exists i :: 0 <= i < |steps| && steps[i].Learns? && steps[i].evidence.through >= ordinal
        && steps[i].evidence.expires > at
  }

  lemma TaughtLater(steps: seq<EpochStep>, step: EpochStep, ordinal: nat, at: int)
    ensures Taught(steps + [step], ordinal, at)
            <==> Taught(steps, ordinal, at)
                 || (step.Learns? && step.evidence.through >= ordinal && step.evidence.expires > at)
  {
    var more := steps + [step];
    assert more[|steps|] == step && forall i :: 0 <= i < |steps| ==> more[i] == steps[i];
  }

  /** Throughout its life the epochs of a lease are a front, and cover a checkpoint, at any time
    * that no expiry has passed, exactly when some evidence since its creation does. */
  lemma {:induction false} LeaseCoversItsEvidence(steps: seq<EpochStep>, ordinal: nat, at: int)
    requires forall i :: 0 <= i < |steps| && steps[i].Forgets? ==> steps[i].now <= at
    ensures Front(EpochsAfter(steps))
    ensures Covers(EpochsAfter(steps), ordinal, at) <==> Taught(steps, ordinal, at)
  {
    if steps != [] {
      var front, last := steps[..|steps| - 1], steps[|steps| - 1];
      LeaseCoversItsEvidence(front, ordinal, at);
      hide Front, Covers, Taught, Insert, Expire;
      TaughtLater(front, last, ordinal, at);
      assert front + [last] == steps;
      match last
      case Learns(e) => InsertCovers(EpochsAfter(front), e, ordinal, at);
      case Forgets(now) => ExpireCovers(EpochsAfter(front), now);
    }
  }

  // ---------------------------------------------------------------- reach, expiry, best epoch

  /** The largest frontier. */
  function Reach(epochs: seq<Epoch>): nat {
    if epochs == [] then 0 else Max(Reach(epochs[..|epochs| - 1]), epochs[|epochs| - 1].through)
  }

  function Expiry(epochs: seq<Epoch>): Option<int> {
    if epochs == [] then None
    else
      var front := Expiry(epochs[..|epochs| - 1]);
      var last := epochs[|epochs| - 1].expires;
      Some(if front.Some? then Max(front.value, last) else last)
  }

  lemma {:induction false} ReachIs(epochs: seq<Epoch>)
    ensures forall e :: e in epochs ==> e.through <= Reach(epochs)
    ensures epochs != [] ==> exists e :: e in epochs && e.through == Reach(epochs)
  {
    if epochs != [] {
      var front, last := epochs[..|epochs| - 1], epochs[|epochs| - 1];
      ReachIs(front);
      assert epochs == front + [last];
      assert last in epochs;
    }
  }

  lemma {:induction false} ExpiryIs(epochs: seq<Epoch>)
    ensures Expiry(epochs).Some? <==> epochs != []
    ensures forall e :: e in epochs ==> e.expires <= Expiry(epochs).value
    ensures epochs != [] ==> exists e :: e in epochs && e.expires == Expiry(epochs).value
  {
    if epochs != [] {
      var front, last := epochs[..|epochs| - 1], epochs[|epochs| - 1];
      ExpiryIs(front);
      assert epochs == front + [last];
      assert last in epochs;
    }
  }

  /** Expiry does not change when the longest-lived epoch stays. */
  lemma ExpireKeepsExpiry(epochs: seq<Epoch>, now: int)
    requires Front(epochs) && Unexpired(epochs, now) != []
    ensures Expiry(Expire(epochs, now)) == Expiry(epochs)
  {
    ExpireCovers(epochs, now);
    hide Unexpired, Expire;
    ExpiryIs(epochs);
    var left := Expire(epochs, now);
    ExpiryIs(left);
    assert left[0] == epochs[0];
    assert forall e :: e in epochs ==> e.expires <= epochs[0].expires;
    assert epochs[0] in left && epochs[0] in epochs;
  }

  /** The order in which an epoch is preferred. */
  predicate Better(a: Epoch, b: Epoch) {
    a.confidence.Rank() > b.confidence.Rank()
    || (a.confidence == b.confidence && a.expires > b.expires)
    || (a.confidence == b.confidence && a.expires == b.expires && a.through > b.through)
  }

  /** The best epoch that holds the checkpoint now. */
  function Best(epochs: seq<Epoch>, ordinal: nat, now: int): (best: Option<Epoch>)
    ensures best.Some? <==> Covers(epochs, ordinal, now)
    ensures best.Some? ==> best.value in epochs && best.value.through >= ordinal && best.value.expires > now
    ensures best.Some? ==> forall e :: e in epochs && e.through >= ordinal && e.expires > now ==> !Better(e, best.value)
  {
    if epochs == [] then None
    else
      var front, last := epochs[..|epochs| - 1], epochs[|epochs| - 1];
      var best := Best(front, ordinal, now);
      assert epochs == front + [last];
      assert forall i :: 0 <= i < |front| ==> epochs[i] == front[i];
      if last.through >= ordinal && last.expires > now && (best.None? || !Better(best.value, last)) then
        assert epochs[|epochs| - 1] == last;
        Some(last)
      else best
  }
}
