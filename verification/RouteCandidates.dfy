/** The order in which the targets of a model are offered to the routing loop. */
module RouteCandidates {
  import opened Prelude
  import opened Routing

  datatype Layer = Layer(targets: seq<Target>, affinity: bool)

  datatype Candidate = Candidate(target: Target, layer: nat, matched: Option<nat>) {
    function Depth(): nat { matched.GetOr(0) }
  }

  // ---------------------------------------------------------------- deepest match first

  /** Stable insertion: behind every candidate that matches at least as deep. */
  function Place(sorted: seq<Candidate>, c: Candidate): seq<Candidate> {
    if sorted == [] then [c]
    else
      var last := sorted[|sorted| - 1];
      if last.Depth() < c.Depth() then Place(sorted[..|sorted| - 1], c) + [last] else sorted + [c]
  }

  function DeepestFirst(candidates: seq<Candidate>): seq<Candidate> {
    if candidates == [] then []
    else Place(DeepestFirst(candidates[..|candidates| - 1]), candidates[|candidates| - 1])
  }

  ghost predicate Descending(candidates: seq<Candidate>) {
    forall i, j :: 0 <= i < j < |candidates| ==> candidates[i].Depth() >= candidates[j].Depth()
  }

  /** The candidates of one depth, in order. */
  function OfDepth(candidates: seq<Candidate>, depth: nat): seq<Candidate> {
    if candidates == [] then []
    else
      var last := candidates[|candidates| - 1];
      OfDepth(candidates[..|candidates| - 1], depth) + if last.Depth() == depth then [last] else []
  }

  lemma OfDepthGrows(candidates: seq<Candidate>, c: Candidate, depth: nat)
    ensures OfDepth(candidates + [c], depth) == OfDepth(candidates, depth) + if c.Depth() == depth then [c] else []
  {
    assert (candidates + [c])[..|candidates|] == candidates;
  }

  lemma {:induction false} PlaceAdds(sorted: seq<Candidate>, c: Candidate)
    ensures multiset(Place(sorted, c)) == multiset(sorted) + multiset{c}
  {
    if sorted != [] {
      assert sorted == sorted[..|sorted| - 1] + [sorted[|sorted| - 1]];
      if sorted[|sorted| - 1].Depth() < c.Depth() {
        PlaceAdds(sorted[..|sorted| - 1], c);
      }
    }
  }

  lemma {:induction false} PlaceDescends(sorted: seq<Candidate>, c: Candidate)
    requires Descending(sorted)
    ensures Descending(Place(sorted, c))
  {
    if sorted != [] {
      var front, last := sorted[..|sorted| - 1], sorted[|sorted| - 1];
      if last.Depth() < c.Depth() {
        PlaceDescends(front, c);
        PlaceAdds(front, c);
        var placed := Place(front, c);
        forall i | 0 <= i < |placed|
          ensures placed[i].Depth() >= last.Depth()
        {
          assert placed[i] in multiset(placed);
          assert placed[i] in multiset(front) || placed[i] == c;
        }
      }
    }
  }

  lemma {:induction false} PlaceIsStable(sorted: seq<Candidate>, c: Candidate, depth: nat)
    requires Descending(sorted)
    ensures OfDepth(Place(sorted, c), depth) == OfDepth(sorted, depth) + if c.Depth() == depth then [c] else []
  {
    if sorted == [] {
      OfDepthGrows([], c, depth);
      assert [] + [c] == [c];
    } else {
      var front, last := sorted[..|sorted| - 1], sorted[|sorted| - 1];
      if last.Depth() < c.Depth() {
        PlaceIsStable(front, c, depth);
        OfDepthGrows(Place(front, c), last, depth);
      } else {
        OfDepthGrows(sorted, c, depth);
      }
    }
  }

  /** Deeper matches come first, candidates of equal depth keep the order in which they were
    * selected, and nothing is lost or added. */
  lemma {:induction false} DeepestFirstIsStable(candidates: seq<Candidate>, depth: nat)
    ensures Descending(DeepestFirst(candidates))
    ensures OfDepth(DeepestFirst(candidates), depth) == OfDepth(candidates, depth)
    ensures multiset(DeepestFirst(candidates)) == multiset(candidates)
  {
    if candidates != [] {
      var front, last := candidates[..|candidates| - 1], candidates[|candidates| - 1];
      assert candidates == front + [last];
      DeepestFirstIsStable(front, depth);
      hide Place, Descending;
      PlaceAdds(DeepestFirst(front), last);
      PlaceDescends(DeepestFirst(front), last);
      PlaceIsStable(DeepestFirst(front), last, depth);
    }
  }

  // ---------------------------------------------------------------- all layers

  /** The order drawn for the targets of a layer is one of them. */
  predicate IsOrder(pick: seq<nat>, n: nat) { |pick| == n && multiset(pick) == multiset(seq(n, i => i)) }

  predicate InRange(pick: seq<nat>, n: nat) { forall i :: 0 <= i < |pick| ==> pick[i] < n }

  function Picked(layer: nat, targets: seq<Target>, pick: seq<nat>, matched: (nat, Target) -> Option<nat>,
                  affinity: bool)
    : (candidates: seq<Candidate>)
    requires InRange(pick, |targets|)
    ensures |candidates| == |pick|
  {
    seq(|pick|, i requires 0 <= i < |pick| =>
      var target := targets[pick[i]];
      Candidate(target, layer, if affinity then matched(layer, target) else None))
  }

  function Block(layers: seq<Layer>, index: nat, pick: seq<nat>, matched: (nat, Target) -> Option<nat>): seq<Candidate>
    requires index < |layers| && InRange(pick, |layers[index].targets|)
  {
    var layer := layers[index];
    var affinity := layer.affinity && |pick| > 1;
    var picked := Picked(index, layer.targets, pick, matched, affinity);
    if affinity then DeepestFirst(picked) else picked
  }

  predicate Choices(layers: seq<Layer>, order: seq<nat>, picks: seq<seq<nat>>) {
    && |picks| == |order| && (forall i :: 0 <= i < |order| ==> order[i] < |layers|)
    && forall i :: 0 <= i < |order| ==>
         IsOrder(picks[i], |layers[order[i]].targets|) && InRange(picks[i], |layers[order[i]].targets|)
  }

  function Blocks(layers: seq<Layer>, order: seq<nat>, picks: seq<seq<nat>>, matched: (nat, Target) -> Option<nat>)
    : seq<Candidate>
    requires Choices(layers, order, picks)
  {
    if order == [] then []
    else
      var last := |order| - 1;
      Blocks(layers, order[..last], picks[..last], matched) + Block(layers, order[last], picks[last], matched)
  }

  /** Lists the layers in calendar order, each with its targets in the drawn order, and puts the
    * deepest prompt-prefix matches of an affinity layer first. */
  method ListCandidates(layers: seq<Layer>, order: seq<nat>, picks: seq<seq<nat>>,
                        matched: (nat, Target) -> Option<nat>)
    returns (candidates: seq<Candidate>)
    requires Choices(layers, order, picks)
    ensures candidates == Blocks(layers, order, picks, matched)
  {
    hide Block;
    candidates := [];
    for i := 0 to |order|
      invariant candidates == Blocks(layers, order[..i], picks[..i], matched)
    {
      assert order[..i + 1][..i] == order[..i] && picks[..i + 1][..i] == picks[..i];
      var block := ListLayer(layers, order[i], picks[i], matched);
      candidates := candidates + block;
    }
    assert order[..|order|] == order && picks[..|order|] == picks;
  }

  method ListLayer(layers: seq<Layer>, index: nat, pick: seq<nat>, matched: (nat, Target) -> Option<nat>)
    returns (block: seq<Candidate>)
    requires index < |layers| && InRange(pick, |layers[index].targets|)
    ensures block == Block(layers, index, pick, matched)
  {
    var layer := layers[index];
    var affinity := layer.affinity && |pick| > 1;
    block := [];
    for i := 0 to |pick|
      invariant block == Picked(index, layer.targets, pick, matched, affinity)[..i]
    {
      var target := layer.targets[pick[i]];
      block := block + [Candidate(target, index, if affinity then matched(index, target) else None)];
    }
    assert block == Picked(index, layer.targets, pick, matched, affinity);
    if affinity {
      block := DeepestFirst(block);
    }
  }

  // ---------------------------------------------------------------- every target once per listing

  function Targets(candidates: seq<Candidate>): (targets: seq<Target>)
    ensures |targets| == |candidates|
  {
    seq(|candidates|, i requires 0 <= i < |candidates| => candidates[i].target)
  }

  lemma TakeOut<T>(s: seq<T>, i: nat)
    requires i < |s|
    ensures multiset(s[..i] + s[i + 1..]) == multiset(s) - multiset{s[i]}
  {
    assert s == s[..i] + [s[i]] + s[i + 1..];
  }

  lemma TargetsTakeOut(s: seq<Candidate>, i: nat)
    requires i < |s|
    ensures multiset(Targets(s)) == multiset(Targets(s[..i] + s[i + 1..])) + multiset{s[i].target}
  {
    var front, rest := Targets(s[..i]), Targets(s[i + 1..]);
    assert Targets(s) == front + [s[i].target] + rest;
    assert Targets(s[..i] + s[i + 1..]) == front + rest;
  }

  lemma {:induction false} SameCandidatesSameTargets(a: seq<Candidate>, b: seq<Candidate>)
    requires multiset(a) == multiset(b)
    ensures multiset(Targets(a)) == multiset(Targets(b))
  {
    assert |a| == |multiset(a)| == |multiset(b)| == |b|;
    if a != [] {
      var last := a[|a| - 1];
      assert last in multiset(b);
      var i :| 0 <= i < |b| && b[i] == last;
      hide Targets;
      TakeOut(a, |a| - 1);
      TakeOut(b, i);
      TargetsTakeOut(a, |a| - 1);
      TargetsTakeOut(b, i);
      assert a[..|a| - 1] + a[|a|..] == a[..|a| - 1];
      SameCandidatesSameTargets(a[..|a| - 1], b[..i] + b[i + 1..]);
    }
  }

  lemma AtTakesOut(targets: seq<Target>, pick: seq<nat>, i: nat)
    requires InRange(pick, |targets|) && i < |pick|
    ensures InRange(pick[..i] + pick[i + 1..], |targets|)
    ensures multiset(At(targets, pick)) == multiset(At(targets, pick[..i] + pick[i + 1..])) + multiset{targets[pick[i]]}
  {
    var front, rest := At(targets, pick[..i]), At(targets, pick[i + 1..]);
    assert At(targets, pick) == front + [targets[pick[i]]] + rest;
    assert At(targets, pick[..i] + pick[i + 1..]) == front + rest;
  }

  lemma {:induction false} PickedTargets(targets: seq<Target>, pick: seq<nat>, other: seq<nat>)
    requires InRange(pick, |targets|) && InRange(other, |targets|) && multiset(pick) == multiset(other)
    ensures multiset(At(targets, pick)) == multiset(At(targets, other))
  {
    assert |pick| == |multiset(pick)| == |multiset(other)| == |other|;
    if pick != [] {
      var last := pick[|pick| - 1];
      assert last in multiset(other);
      var i :| 0 <= i < |other| && other[i] == last;
      hide At, InRange;
      TakeOut(pick, |pick| - 1);
      TakeOut(other, i);
      AtTakesOut(targets, pick, |pick| - 1);
      AtTakesOut(targets, other, i);
      assert pick[..|pick| - 1] + pick[|pick|..] == pick[..|pick| - 1];
      PickedTargets(targets, pick[..|pick| - 1], other[..i] + other[i + 1..]);
    } else {
      assert other == pick;
    }
  }

  function At(targets: seq<Target>, pick: seq<nat>): (picked: seq<Target>)
    requires InRange(pick, |targets|)
    ensures |picked| == |pick|
  {
    seq(|pick|, i requires 0 <= i < |pick| => targets[pick[i]])
  }

  /** A layer's block is a permutation of its targets. */
  lemma BlockIsPermutation(layers: seq<Layer>, index: nat, pick: seq<nat>, matched: (nat, Target) -> Option<nat>)
    requires index < |layers| && InRange(pick, |layers[index].targets|) && IsOrder(pick, |layers[index].targets|)
    ensures multiset(Targets(Block(layers, index, pick, matched))) == multiset(layers[index].targets)
  {
    var layer := layers[index];
    var affinity := layer.affinity && |pick| > 1;
    var picked := Picked(index, layer.targets, pick, matched, affinity);
    DeepestFirstIsStable(picked, 0);
    SameCandidatesSameTargets(Block(layers, index, pick, matched), picked);
    assert Targets(picked) == At(layer.targets, pick);
    hide Block, Picked, Targets, DeepestFirst;
    OrderTakesAll(layer.targets, pick);
  }

  lemma OrderTakesAll(targets: seq<Target>, pick: seq<nat>)
    requires InRange(pick, |targets|) && IsOrder(pick, |targets|)
    ensures multiset(At(targets, pick)) == multiset(targets)
  {
    var straight: seq<nat> := seq(|targets|, i => i);
    PickedTargets(targets, pick, straight);
    assert At(targets, straight) == targets;
  }

  function AllTargets(layers: seq<Layer>, order: seq<nat>): seq<Target>
    requires forall i :: 0 <= i < |order| ==> order[i] < |layers|
  {
    if order == [] then [] else AllTargets(layers, order[..|order| - 1]) + layers[order[|order| - 1]].targets
  }

  /** The candidates are the targets of the layers, each listing once, whatever was drawn and
    * whatever matched: affinity only changes the order within a layer. */
  lemma {:induction false} CandidatesAreTheTargets(layers: seq<Layer>, order: seq<nat>, picks: seq<seq<nat>>,
                                                   matched: (nat, Target) -> Option<nat>)
    requires Choices(layers, order, picks)
    ensures multiset(Targets(Blocks(layers, order, picks, matched))) == multiset(AllTargets(layers, order))
  {
    hide Block, IsOrder;
    if order != [] {
      var last := |order| - 1;
      CandidatesAreTheTargets(layers, order[..last], picks[..last], matched);
      BlockIsPermutation(layers, order[last], picks[last], matched);
      var front, block := Blocks(layers, order[..last], picks[..last], matched),
          Block(layers, order[last], picks[last], matched);
      assert Targets(front + block) == Targets(front) + Targets(block);
    }
  }

  // ---------------------------------------------------------------- where each layer is

  function Before(layers: seq<Layer>, order: seq<nat>, k: nat): nat
    requires k <= |order| && forall i :: 0 <= i < |order| ==> order[i] < |layers|
  {
    if k == 0 then 0 else Before(layers, order, k - 1) + |layers[order[k - 1]].targets|
  }

  lemma {:induction false} BlocksGrow(layers: seq<Layer>, order: seq<nat>, picks: seq<seq<nat>>,
                                      matched: (nat, Target) -> Option<nat>, k: nat)
    requires Choices(layers, order, picks) && k < |order|
    ensures |Blocks(layers, order[..k], picks[..k], matched)| == Before(layers, order, k)
    ensures |Block(layers, order[k], picks[k], matched)| == |layers[order[k]].targets|
    ensures Blocks(layers, order[..k + 1], picks[..k + 1], matched)
            == Blocks(layers, order[..k], picks[..k], matched) + Block(layers, order[k], picks[k], matched)
    decreases k
  {
    assert order[..k + 1][..k] == order[..k] && picks[..k + 1][..k] == picks[..k];
    BlockIsPermutation(layers, order[k], picks[k], matched);
    SameSize(Targets(Block(layers, order[k], picks[k], matched)), layers[order[k]].targets);
    hide Block;
    if k > 0 {
      BlocksGrow(layers, order, picks, matched, k - 1);
    }
  }

  lemma SameSize<T>(a: seq<T>, b: seq<T>)
    requires multiset(a) == multiset(b)
    ensures |a| == |b|
  {
    assert |a| == |multiset(a)| && |b| == |multiset(b)|;
  }

  lemma ChoicesOfFront(layers: seq<Layer>, order: seq<nat>, picks: seq<seq<nat>>, n: nat)
    requires Choices(layers, order, picks) && n <= |order|
    ensures Choices(layers, order[..n], picks[..n])
    ensures order[..|order|] == order && picks[..|order|] == picks
  {
    hide IsOrder, InRange;
  }

  lemma Slices<T>(a: seq<T>, b: seq<T>, from: nat, to: nat)
    requires from <= to <= |a|
    ensures (a + b)[from..to] == a[from..to] && (a + b)[|a|..|a| + |b|] == b
  {
  }

  lemma {:induction false} BlockIsThere(layers: seq<Layer>, order: seq<nat>, picks: seq<seq<nat>>,
                                        matched: (nat, Target) -> Option<nat>, k: nat, n: nat)
    requires Choices(layers, order, picks) && k < n <= |order|
    requires Choices(layers, order[..n], picks[..n])
    ensures var (all, from) := (Blocks(layers, order[..n], picks[..n], matched), Before(layers, order, k));
            && from + |layers[order[k]].targets| <= |all|
            && all[from..from + |layers[order[k]].targets|] == Block(layers, order[k], picks[k], matched)
  {
    hide IsOrder, InRange, Block, Blocks, Before;
    BlocksGrow(layers, order, picks, matched, n - 1);
    ChoicesOfFront(layers, order, picks, n - 1);
    var (front, last) := (Blocks(layers, order[..n - 1], picks[..n - 1], matched),
                          Block(layers, order[n - 1], picks[n - 1], matched));
    hide *;
    if k < n - 1 {
      BlockIsThere(layers, order, picks, matched, k, n - 1);
      var from := Before(layers, order, k);
      Slices(front, last, from, from + |layers[order[k]].targets|);
    } else {
      Slices(front, last, 0, 0);
    }
  }

  function Bytes(matched: Option<nat>): nat { if matched.Some? then matched.value else 0 }

  /** The candidates of a layer with affinity as they were drawn, each with what it matches. */
  function Drawn(index: nat, targets: seq<Target>, pick: seq<nat>, matched: (nat, Target) -> Option<nat>)
    : (drawn: seq<Candidate>)
    requires InRange(pick, |targets|)
    ensures |drawn| == |pick|
  {
    seq(|pick|, i requires 0 <= i < |pick| =>
      Candidate(targets[pick[i]], index, matched(index, targets[pick[i]])))
  }

  ghost predicate IsBlock(layer: Layer, index: nat, pick: seq<nat>, matched: (nat, Target) -> Option<nat>, depth: nat,
                          block: seq<Candidate>)
    requires InRange(pick, |layer.targets|)
  {
    && |block| == |pick|
    && (!layer.affinity || |pick| <= 1 ==>
          forall i :: 0 <= i < |pick| ==> block[i] == Candidate(layer.targets[pick[i]], index, None))
    && (layer.affinity && |pick| > 1 ==>
          var drawn := Drawn(index, layer.targets, pick, matched);
          && multiset(block) == multiset(drawn) && OfDepth(block, depth) == OfDepth(drawn, depth)
          && (forall i, j :: 0 <= i < j < |block| ==> Bytes(block[i].matched) >= Bytes(block[j].matched)))
  }

  /** The layers follow each other in the given order, each as long as its list of targets. In a layer
    * without affinity, or with one target, the targets come as they were drawn and match nothing. In
    * any other, each carries what it matches, those that match more bytes come first, and those that
    * match as many come as they were drawn. */
  lemma LayersFollowTheOrder(layers: seq<Layer>, order: seq<nat>, picks: seq<seq<nat>>,
                             matched: (nat, Target) -> Option<nat>, k: nat, depth: nat)
    requires Choices(layers, order, picks) && k < |order|
    ensures var (all, from) := (Blocks(layers, order, picks, matched), Before(layers, order, k));
            var layer := layers[order[k]];
            && |picks[k]| == |layer.targets| && from + |layer.targets| <= |all|
            && IsBlock(layer, order[k], picks[k], matched, depth, all[from..from + |layer.targets|])
  {
    hide IsOrder, InRange, Block, Blocks, Before, IsBlock;
    ChoicesOfFront(layers, order, picks, |order|);
    BlockIs(layers, order[k], picks[k], matched, depth);
    hide *;
    BlockIsThere(layers, order, picks, matched, k, |order|);
  }

  lemma BlockIs(layers: seq<Layer>, index: nat, pick: seq<nat>, matched: (nat, Target) -> Option<nat>, depth: nat)
    requires index < |layers| && InRange(pick, |layers[index].targets|) && IsOrder(pick, |layers[index].targets|)
    ensures |pick| == |layers[index].targets|
    ensures IsBlock(layers[index], index, pick, matched, depth, Block(layers, index, pick, matched))
  {
    var layer := layers[index];
    if layer.affinity && |pick| > 1 {
      var picked := Picked(index, layer.targets, pick, matched, true);
      var drawn := Drawn(index, layer.targets, pick, matched);
      assert picked == drawn;
      DeepestFirstIsStable(picked, depth);
      hide OfDepth, DeepestFirst, Picked, IsOrder, InRange;
      SameSize(DeepestFirst(picked), drawn);
    }
  }
}
