/** The random selector: a SplitMix64 generator, unbiased bounded draws by rejection, and the
  * Fisher-Yates shuffle that orders the targets of a layer. */
module Selector {
  import opened Prelude
  import opened Wrapping

  const GOLDEN_GAMMA: nat := 0x9e37_79b9_7f4a_7c15
  const GAMMA_INVERSE: nat := 0xf1de_83e1_9937_733d
  const FIRST_FACTOR: nat := 0xbf58_476d_1ce4_e5b9
  const FIRST_INVERSE: nat := 0x96de_1b17_3f11_9089
  const SECOND_FACTOR: nat := 0x94d0_49bb_1331_11eb
  const SECOND_INVERSE: nat := 0x3196_42b2_d24d_8ec3

  // ---------------------------------------------------------------- the generator

  function XorShift(value: nat, k: nat): nat { Xor(value, ShiftRight(value, k)) }

  function Mix(state: nat): nat {
    var first := WrappingMul(XorShift(state, 30), FIRST_FACTOR);
    var second := WrappingMul(XorShift(first, 27), SECOND_FACTOR);
    XorShift(second, 31)
  }

  lemma SixtyFourBits()
    ensures PowerOfTwo(64) == MODULUS
  {
    assert PowerOfTwo(8) == 0x100;
    assert PowerOfTwo(16) == 0x1_0000;
    assert PowerOfTwo(24) == 0x100_0000;
    assert PowerOfTwo(32) == 0x1_0000_0000;
    assert PowerOfTwo(40) == 0x100_0000_0000;
    assert PowerOfTwo(48) == 0x1_0000_0000_0000;
    assert PowerOfTwo(56) == 0x100_0000_0000_0000;
  }

  lemma XorShiftBelow(a: nat, k: nat)
    requires a < MODULUS
    ensures XorShift(a, k) < MODULUS
  {
    SixtyFourBits();
    ShiftShrinks(a, k);
    XorBelow(a, ShiftRight(a, k), 64);
  }

  lemma FactorsInvert()
    ensures (FIRST_FACTOR * FIRST_INVERSE) % MODULUS == 1
    ensures (SECOND_FACTOR * SECOND_INVERSE) % MODULUS == 1
    ensures (GOLDEN_GAMMA * GAMMA_INVERSE) % MODULUS == 1
  {
  }

  /** One stage of the mixer, an xor-shift followed by an odd multiplication, can be undone. */
  lemma StageInjective(a: nat, b: nat, k: nat, factor: nat, inverse: nat)
    requires a < MODULUS && b < MODULUS && k > 0 && (factor * inverse) % MODULUS == 1
    ensures WrappingMul(XorShift(a, k), factor) == WrappingMul(XorShift(b, k), factor) ==> a == b
  {
    hide Xor, ShiftRight, WrappingMul;
    XorShiftBelow(a, k);
    XorShiftBelow(b, k);
    if WrappingMul(XorShift(a, k), factor) == WrappingMul(XorShift(b, k), factor) {
      MultiplicationInjective(XorShift(a, k), XorShift(b, k), factor, inverse);
      XorShiftInjective(a, b, k);
    }
  }

  lemma WrapsBelow(a: nat, b: nat)
    ensures WrappingMul(a, b) < MODULUS
  {
  }

  /** The mixer maps 64-bit states to 64-bit values without collisions. */
  lemma MixInjective(a: nat, b: nat)
    requires a < MODULUS && b < MODULUS
    ensures Mix(a) < MODULUS
    ensures Mix(a) == Mix(b) ==> a == b
  {
    hide Xor, ShiftRight, WrappingMul;
    FactorsInvert();
    var a1, b1 := WrappingMul(XorShift(a, 30), FIRST_FACTOR), WrappingMul(XorShift(b, 30), FIRST_FACTOR);
    WrapsBelow(XorShift(a, 30), FIRST_FACTOR);
    WrapsBelow(XorShift(b, 30), FIRST_FACTOR);
    var a2, b2 := WrappingMul(XorShift(a1, 27), SECOND_FACTOR), WrappingMul(XorShift(b1, 27), SECOND_FACTOR);
    WrapsBelow(XorShift(a1, 27), SECOND_FACTOR);
    WrapsBelow(XorShift(b1, 27), SECOND_FACTOR);
    XorShiftBelow(a2, 31);
    if Mix(a) == Mix(b) {
      XorShiftInjective(a2, b2, 31);
      StageInjective(a1, b1, 27, SECOND_FACTOR, SECOND_INVERSE);
      StageInjective(a, b, 30, FIRST_FACTOR, FIRST_INVERSE);
    }
  }

  /** The generator state after `k` draws from `seed`. */
  function Nth(seed: nat, k: nat): (state: nat)
    ensures state < MODULUS
  {
    (seed + k * GOLDEN_GAMMA) % MODULUS
  }

  lemma NthSteps(seed: nat, k: nat)
    ensures WrappingAdd(Nth(seed, k), GOLDEN_GAMMA) == Nth(seed, k + 1)
    ensures seed < MODULUS ==> Nth(seed, 0) == seed
  {
    var x := seed + k * GOLDEN_GAMMA;
    var u := x % MODULUS + GOLDEN_GAMMA;
    assert seed + (k + 1) * GOLDEN_GAMMA == x + GOLDEN_GAMMA;
    RemainderIs(x + GOLDEN_GAMMA, x / MODULUS + u / MODULUS, u % MODULUS);
  }

  lemma SameRemainder(x: nat, d: nat)
    requires (x + d) % MODULUS == x % MODULUS
    ensures d % MODULUS == 0
  {
  }

  lemma Distribute(i: nat, d: nat)
    ensures (i + d) * GOLDEN_GAMMA == i * GOLDEN_GAMMA + d * GOLDEN_GAMMA
  {
  }

  /** The increment is odd, so the state does not repeat within the period. */
  lemma StatesDiffer(seed: nat, i: nat, j: nat)
    requires i < j < i + MODULUS
    ensures Nth(seed, i) != Nth(seed, j)
  {
    if Nth(seed, i) == Nth(seed, j) {
      var d := j - i;
      Distribute(i, d);
      SameRemainder(seed + i * GOLDEN_GAMMA, d * GOLDEN_GAMMA);
      FactorsInvert();
      OnlyZeroWraps(d);
    }
  }

  lemma OnlyZeroWraps(d: nat)
    requires 0 < d < MODULUS
    ensures (d * GOLDEN_GAMMA) % MODULUS != 0
  {
    FactorsInvert();
    if WrappingMul(d, GOLDEN_GAMMA) == WrappingMul(0, GOLDEN_GAMMA) {
      MultiplicationInjective(d, 0, GOLDEN_GAMMA, GAMMA_INVERSE);
    }
  }

  // ---------------------------------------------------------------- bounded draws

  /** The number of 64-bit values outside the zone. */
  function MaxRejections(upper: nat): (n: nat)
    requires 0 < upper <= U64_MAX
    ensures 0 < n <= upper && n + 1 < MODULUS
  {
    U64_MAX % upper + 1
  }

  function Zone(upper: nat): (zone: nat)
    requires 0 < upper <= U64_MAX
    ensures 0 < zone <= U64_MAX && zone == MODULUS - MaxRejections(upper)
  {
    U64_MAX - U64_MAX % upper
  }

  predicate AcceptedAt(seed: nat, upper: nat, k: nat)
    requires 0 < upper <= U64_MAX
  {
    Mix(Nth(seed, k + 1)) < Zone(upper)
  }

  ghost function Rejected(seed: nat, k: nat): set<nat> {
    if k == 0 then {} else Rejected(seed, k - 1) + {Mix(Nth(seed, k))}
  }

  lemma {:induction false} RejectedMembers(seed: nat, k: nat, v: nat)
    ensures v in Rejected(seed, k) <==> exists i :: 0 < i <= k && v == Mix(Nth(seed, i))
  {
    hide Mix, Nth;
    if k > 0 {
      RejectedMembers(seed, k - 1, v);
    }
  }

  lemma {:induction false} RejectedSize(seed: nat, k: nat)
    requires k < MODULUS
    ensures |Rejected(seed, k)| == k
  {
    if k > 0 {
      RejectedSize(seed, k - 1);
      if Mix(Nth(seed, k)) in Rejected(seed, k - 1) {
        RejectedMembers(seed, k - 1, Mix(Nth(seed, k)));
        var i :| 0 < i <= k - 1 && Mix(Nth(seed, k)) == Mix(Nth(seed, i));
        MixInjective(Nth(seed, i), Nth(seed, k));
        StatesDiffer(seed, i, k);
      }
    }
  }

  lemma {:induction false} IntervalSize(values: set<nat>, low: nat, high: nat)
    requires low <= high && forall v :: v in values ==> low <= v < high
    ensures |values| <= high - low
    decreases high
  {
    if low == high {
      assert values == {};
    } else {
      IntervalSize(values - {high - 1}, low, high - 1);
    }
  }

  /** A run of rejections is at most `MaxRejections` long, whatever the seed: rejected
    * values are pairwise different and there are no more values outside the zone. */
  lemma RejectionsEnd(seed: nat, upper: nat, k: nat)
    requires 0 < upper <= U64_MAX && k < MODULUS
    requires forall i :: 0 <= i < k ==> !AcceptedAt(seed, upper, i)
    ensures k <= MaxRejections(upper)
  {
    hide Mix, Nth, Zone, MaxRejections;
    RejectedSize(seed, k);
    forall v | v in Rejected(seed, k)
      ensures Zone(upper) <= v < MODULUS
    {
      RejectedMembers(seed, k, v);
      var i :| 0 < i <= k && v == Mix(Nth(seed, i));
      assert !AcceptedAt(seed, upper, i - 1);
      MixInjective(Nth(seed, i), Nth(seed, i));
    }
    IntervalSize(Rejected(seed, k), Zone(upper), MODULUS);
  }

  /** The number of rejected values before the first accepted one, from the `k`-th on. */
  ghost function Skipped(seed: nat, upper: nat, k: nat): (n: nat)
    requires 0 < upper <= U64_MAX && k <= MaxRejections(upper)
    requires forall i :: 0 <= i < k ==> !AcceptedAt(seed, upper, i)
    ensures n <= MaxRejections(upper)
    ensures AcceptedAt(seed, upper, n)
    ensures forall i :: 0 <= i < n ==> !AcceptedAt(seed, upper, i)
    decreases MaxRejections(upper) - k
  {
    hide AcceptedAt, MaxRejections;
    if AcceptedAt(seed, upper, k) then k
    else
      RejectionsEnd(seed, upper, k + 1);
      Skipped(seed, upper, k + 1)
  }

  ghost function DrawnState(seed: nat, upper: nat): nat
    requires 0 < upper <= U64_MAX
  {
    Nth(seed, Skipped(seed, upper, 0) + 1)
  }

  ghost function Drawn(seed: nat, upper: nat): (value: nat)
    requires 0 < upper <= U64_MAX
    ensures value < upper
  {
    Mix(DrawnState(seed, upper)) % upper
  }

  method SplitMix64(state: nat) returns (value: nat, next: nat)
    ensures next == WrappingAdd(state, GOLDEN_GAMMA) && value == Mix(next)
  {
    next := WrappingAdd(state, GOLDEN_GAMMA);
    value := next;
    value := WrappingMul(XorShift(value, 30), FIRST_FACTOR);
    value := WrappingMul(XorShift(value, 27), SECOND_FACTOR);
    value := XorShift(value, 31);
  }

  /** Draws until a value falls into the zone. The loop ends after at most
    * `MaxRejections` rejections. */
  method BoundedU64(state: nat, upper: nat) returns (value: nat, next: nat)
    requires state < MODULUS && 0 < upper <= U64_MAX
    ensures value == Drawn(state, upper) && next == DrawnState(state, upper)
    ensures value < upper && next < MODULUS
  {
    hide Mix, Nth, MaxRejections, Skipped;
    var zone := U64_MAX - U64_MAX % upper;
    next := state;
    NthSteps(state, 0);
    ghost var rejections := 0;
    while true
      invariant rejections <= MaxRejections(upper)
      invariant next == Nth(state, rejections)
      invariant forall i :: 0 <= i < rejections ==> !AcceptedAt(state, upper, i)
      decreases MaxRejections(upper) - rejections
    {
      NthSteps(state, rejections);
      value, next := SplitMix64(next);
      if value < zone {
        FirstAcceptedIs(state, upper, rejections);
        value := value % upper;
        return;
      }
      assert !AcceptedAt(state, upper, rejections);
      RejectionsEnd(state, upper, rejections + 1);
      rejections := rejections + 1;
    }
  }

  lemma FirstAcceptedIs(seed: nat, upper: nat, n: nat)
    requires 0 < upper <= U64_MAX && AcceptedAt(seed, upper, n)
    requires forall i :: 0 <= i < n ==> !AcceptedAt(seed, upper, i)
    ensures Skipped(seed, upper, 0) == n
  {
    var m := Skipped(seed, upper, 0);
    assert !(m < n) && !(n < m);
  }

  ghost function AcceptedWith(upper: nat, residue: nat): set<nat>
    requires 0 < upper <= U64_MAX && residue < upper
  {
    set v | 0 <= v < Zone(upper) && v % upper == residue
  }

  ghost function Multiples(upper: nat, residue: nat, n: nat): set<nat>
    requires residue < upper
  {
    if n == 0 then {} else Multiples(upper, residue, n - 1) + {(n - 1) * upper + residue}
  }

  lemma {:induction false} MultiplesAre(upper: nat, residue: nat, n: nat)
    requires residue < upper
    ensures |Multiples(upper, residue, n)| == n
    ensures forall v :: v in Multiples(upper, residue, n) <==> 0 <= v < n * upper && v % upper == residue
  {
    if n > 0 {
      MultiplesAre(upper, residue, n - 1);
      forall v | 0 <= v
        ensures v in Multiples(upper, residue, n) <==> v < n * upper && v % upper == residue
      {
        OneMoreMultiple(upper, residue, n, v);
      }
    }
  }

  lemma OneMoreMultiple(upper: nat, residue: nat, n: nat, v: nat)
    requires residue < upper && n > 0
    ensures v < n * upper && v % upper == residue
            <==> (v < (n - 1) * upper && v % upper == residue) || v == (n - 1) * upper + residue
  {
    var base := (n - 1) * upper;
    assert n * upper == base + upper;
    if base <= v < base + upper {
      RemainderAbove(v, n - 1, upper);
    }
    RemainderAbove(base + residue, n - 1, upper);
  }

  lemma RemainderAbove(v: nat, q: nat, n: nat)
    requires n > 0 && q * n <= v < q * n + n
    ensures v % n == v - q * n
  {
    var d, r := v / n, v % n;
    assert v == d * n + r;
    SameQuotient(d, r, q, v - q * n, n);
  }

  lemma MultipleDivides(n: nat, upper: nat)
    requires upper > 0
    ensures n * upper / upper == n
  {
    var d, r := n * upper / upper, n * upper % upper;
    RemainderAbove(n * upper, n, upper);
    assert (n - d) * upper == 0;
  }

  lemma SameQuotient(d: nat, r: nat, q: nat, s: nat, n: nat)
    requires n > 0 && r < n && s < n && d * n + r == q * n + s
    ensures r == s
  {
    assert (d - q) * n == d * n - q * n;
    SmallMultiple(d - q, n, s - r);
  }

  lemma SmallMultiple(k: int, n: nat, m: int)
    requires n > 0 && k * n == m && 0 - n < m < n
    ensures m == 0
  {
    if k >= 1 {
      PositiveMultiple(k, n);
    } else if k <= -1 {
      assert -k * n == -m;
      PositiveMultiple(-k, n);
    }
  }

  lemma PositiveMultiple(k: nat, n: nat)
    requires k >= 1
    ensures k * n >= n
  {
    assert (k - 1) * n >= 0;
  }

  /** No residue is favoured: each is the result of equally many accepted values. */
  lemma ResiduesAreEquallyLikely(upper: nat, residue: nat)
    requires 0 < upper <= U64_MAX && residue < upper
    ensures |AcceptedWith(upper, residue)| == Zone(upper) / upper
  {
    hide Multiples;
    var n := U64_MAX / upper;
    assert Zone(upper) == n * upper;
    MultiplesAre(upper, residue, n);
    assert AcceptedWith(upper, residue) == Multiples(upper, residue, n);
    MultipleDivides(n, upper);
  }

  // ---------------------------------------------------------------- the shuffle

  function Swapped<T>(s: seq<T>, i: nat, j: nat): seq<T>
    requires i < |s| && j < |s|
  {
    s[i := s[j]][j := s[i]]
  }

  /** `choices[u - 1]` is the index swapped into position `u`, last position first. */
  predicate Legal(choices: seq<nat>) {
    forall u :: 0 <= u < |choices| ==> choices[u] <= u + 1
  }

  function Shuffle<T>(s: seq<T>, choices: seq<nat>): (r: seq<T>)
    requires Legal(choices) && |s| == |choices| + 1
    ensures |r| == |s|
    decreases |s|
  {
    if |s| == 1 then s
    else
      var last := |s| - 1;
      var t := Swapped(s, last, choices[last - 1]);
      Shuffle(t[..last], choices[..last - 1]) + [t[last]]
  }

  lemma SwapKeepsElements<T>(s: seq<T>, i: nat, j: nat)
    requires i < |s| && j < |s|
    ensures multiset(Swapped(s, i, j)) == multiset(s)
  {
  }

  lemma {:induction false} ShuffleKeepsElements<T>(s: seq<T>, choices: seq<nat>)
    requires Legal(choices) && |s| == |choices| + 1
    ensures multiset(Shuffle(s, choices)) == multiset(s)
    decreases |s|
  {
    if |s| > 1 {
      var last := |s| - 1;
      var t := Swapped(s, last, choices[last - 1]);
      SwapKeepsElements(s, last, choices[last - 1]);
      hide Swapped;
      SwapPutsLast(s, choices[last - 1]);
      ShuffleKeepsElements(t[..last], choices[..last - 1]);
      Front(t);
    }
  }

  lemma SnocInjective<T>(x: seq<T>, a: T, y: seq<T>, b: T)
    requires x + [a] == y + [b]
    ensures x == y && a == b
  {
    assert |x| == |x + [a]| - 1 == |y|;
    assert x == (x + [a])[..|x|] && y == (y + [b])[..|y|];
    assert a == (x + [a])[|x|] && b == (y + [b])[|y|];
  }

  /** Different choices give different orders... */
  lemma {:induction false} ShuffleInjective<T>(s: seq<T>, choices: seq<nat>, others: seq<nat>)
    requires Distinct(s) && Legal(choices) && Legal(others)
    requires |s| == |choices| + 1 == |others| + 1
    requires Shuffle(s, choices) == Shuffle(s, others)
    ensures choices == others
    decreases |s|
  {
    if |s| > 1 {
      var last := |s| - 1;
      var front, rest := choices[..last - 1], others[..last - 1];
      var c, d := choices[last - 1], others[last - 1];
      assert choices == front + [c] && others == rest + [d];
      var t, u := Swapped(s, last, c), Swapped(s, last, d);
      ShuffleUnfolds(s, front, c);
      ShuffleUnfolds(s, rest, d);
      SwapPutsLast(s, c);
      SwapPutsLast(s, d);
      SwapKeepsDistinct(s, c);
      hide Swapped, Shuffle;
      SnocInjective(Shuffle(t[..last], front), t[last], Shuffle(u[..last], rest), u[last]);
      assert c == d;
      ShuffleInjective(t[..last], front, rest);
    }
  }

  lemma SwapKeepsDistinct<T>(s: seq<T>, c: nat)
    requires Distinct(s) && c < |s|
    ensures |Swapped(s, |s| - 1, c)| == |s| && Distinct(Swapped(s, |s| - 1, c)[..|s| - 1])
  {
  }

  lemma Front<T>(s: seq<T>)
    requires |s| > 0
    ensures multiset(s[..|s| - 1]) == multiset(s) - multiset{s[|s| - 1]}
  {
    assert s == s[..|s| - 1] + [s[|s| - 1]];
  }

  /** ... and every order of the targets is the result of some choices, so independent
    * unbiased choices make every order equally likely. */
  lemma {:induction false} ShuffleReachesEveryOrder<T>(s: seq<T>, goal: seq<T>) returns (choices: seq<nat>)
    requires |s| > 0 && multiset(s) == multiset(goal)
    ensures Legal(choices) && |s| == |choices| + 1 && Shuffle(s, choices) == goal
    decreases |s|
  {
    assert |goal| == |multiset(goal)| == |s|;
    var last := |s| - 1;
    if last == 0 {
      assert s[0] in multiset(goal);
      choices := [];
    } else {
      assert goal[last] in multiset(s);
      var c: nat :| c < |s| && s[c] == goal[last];
      var t := Swapped(s, last, c);
      MoveLast(s, goal, c);
      hide Swapped;
      SwapPutsLast(s, c);
      var rest := ShuffleReachesEveryOrder(t[..last], goal[..last]);
      choices := rest + [c];
      ShuffleUnfolds(s, rest, c);
      hide Shuffle;
      assert goal == goal[..last] + [t[last]];
    }
  }

  lemma MoveLast<T>(s: seq<T>, goal: seq<T>, c: nat)
    requires |s| == |goal| > 0 && c < |s| && multiset(s) == multiset(goal) && s[c] == goal[|s| - 1]
    ensures Swapped(s, |s| - 1, c)[|s| - 1] == goal[|s| - 1]
    ensures multiset(Swapped(s, |s| - 1, c)[..|s| - 1]) == multiset(goal[..|s| - 1])
  {
    hide Swapped;
    SwapPutsLast(s, c);
    SwapKeepsElements(s, |s| - 1, c);
    SameFronts(Swapped(s, |s| - 1, c), goal);
  }

  lemma SwapPutsLast<T>(s: seq<T>, c: nat)
    requires c < |s|
    ensures |Swapped(s, |s| - 1, c)| == |s| && Swapped(s, |s| - 1, c)[|s| - 1] == s[c]
  {
  }

  lemma SameFronts<T>(a: seq<T>, b: seq<T>)
    requires |a| == |b| > 0 && multiset(a) == multiset(b) && a[|a| - 1] == b[|b| - 1]
    ensures multiset(a[..|a| - 1]) == multiset(b[..|b| - 1])
  {
    Front(a);
    Front(b);
  }

  lemma ShuffleUnfolds<T>(s: seq<T>, rest: seq<nat>, c: nat)
    requires Legal(rest) && |s| == |rest| + 2 && c < |s|
    ensures var t := Swapped(s, |s| - 1, c);
            Legal(rest + [c]) && Shuffle(s, rest + [c]) == Shuffle(t[..|s| - 1], rest) + [t[|s| - 1]]
  {
    hide Swapped;
    SwapPutsLast(s, c);
    assert (rest + [c])[..|s| - 2] == rest;
  }

  ghost function Choices(seed: nat, len: nat): (choices: seq<nat>)
    requires 0 < len <= U64_MAX
    ensures |choices| == len - 1 && Legal(choices)
    decreases len
  {
    if len == 1 then []
    else Choices(DrawnState(seed, len), len - 1) + [Drawn(seed, len)]
  }

  class RandomSelector {
    var state: nat

    ghost predicate Valid()
      reads this
    {
      state < MODULUS
    }

    constructor WithSeed(seed: nat)
      requires seed < MODULUS
      ensures Valid() && state == seed
    {
      state := seed;
    }

    /** A permutation of the target indices: the one the generator's choices shuffle to. */
    method Order(len: nat) returns (order: array<nat>)
      requires Valid() && len <= U64_MAX
      modifies this
      ensures Valid() && fresh(order) && order.Length == len
      ensures state == if len <= 1 then old(state) else WrappingAdd(old(state), GOLDEN_GAMMA)
      ensures multiset(order[..]) == multiset(Identity(len))
      ensures len > 0 ==> order[..] == Shuffle(Identity(len), Choices(old(state), len))
    {
      hide Shuffle, Choices, Drawn, DrawnState;
      order := new nat[len](i => i);
      assert order[..] == Identity(len);
      if len <= 1 {
        if len == 1 {
          OnlyChoice(order[..], state);
        }
        return;
      }
      var local: nat := state;
      ghost var seed := state;
      state := WrappingAdd(state, GOLDEN_GAMMA);
      var upper: nat := len - 1;
      assert order[..upper + 1] == Identity(len) && order[upper + 1..] == [];
      while upper >= 1
        invariant 0 <= upper < len && local < MODULUS && order.Length == len
        invariant state == WrappingAdd(seed, GOLDEN_GAMMA)
        invariant Shuffle(order[..upper + 1], Choices(local, upper + 1)) + order[upper + 1..]
                  == Shuffle(Identity(len), Choices(seed, len))
      {
        var selected, next := BoundedU64(local, upper + 1);
        ghost var before := order[..];
        order[upper], order[selected] := order[selected], order[upper];
        ShuffleStep(before, order[..], upper, selected, local);
        local := next;
        upper := upper - 1;
      }
      assert order[..1] + order[1..] == order[..];
      OnlyChoice(order[..1], local);
      ShuffleKeepsElements(Identity(len), Choices(seed, len));
    }

    /** A draw from the closed range; the caller's range must not be inverted or cover all of u64. */
    method RangeInclusive(minimum: nat, maximum: nat) returns (value: nat)
      requires Valid() && minimum <= maximum <= U64_MAX && maximum - minimum < U64_MAX
      modifies this
      ensures Valid() && state == WrappingAdd(old(state), GOLDEN_GAMMA)
      ensures minimum <= value <= maximum
      ensures value == minimum + Drawn(old(state), maximum - minimum + 1)
    {
      var local := state;
      state := WrappingAdd(state, GOLDEN_GAMMA);
      var drawn, _ := BoundedU64(local, maximum - minimum + 1);
      value := minimum + drawn;
    }
  }

  lemma OnlyChoice(s: seq<nat>, local: nat)
    requires |s| == 1
    ensures Shuffle(s, Choices(local, 1)) == s
  {
  }

  lemma ShuffleStep(before: seq<nat>, after: seq<nat>, upper: nat, selected: nat, local: nat)
    requires 1 <= upper < |before| <= U64_MAX && selected == Drawn(local, upper + 1)
    requires after == Swapped(before, upper, selected)
    ensures Shuffle(before[..upper + 1], Choices(local, upper + 1)) + before[upper + 1..]
            == Shuffle(after[..upper], Choices(DrawnState(local, upper + 1), upper)) + after[upper..]
  {
    hide Drawn, DrawnState;
    var s := before[..upper + 1];
    var choices := Choices(local, upper + 1);
    assert choices[..upper - 1] == Choices(DrawnState(local, upper + 1), upper);
    assert Swapped(s, upper, selected)[..upper] == after[..upper];
    assert after[upper..] == [after[upper]] + after[upper + 1..];
    assert after[upper + 1..] == before[upper + 1..];
  }
}
