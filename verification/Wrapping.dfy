/** Unsigned 64-bit arithmetic written out on integers: wrapping sums and products and the
  * exclusive or, with the facts that make the SplitMix64 mixer a permutation. */
module Wrapping {

  const MODULUS: nat := 0x1_0000_0000_0000_0000

  function WrappingAdd(a: nat, b: nat): nat { (a + b) % MODULUS }

  function WrappingMul(a: nat, b: nat): nat { (a * b) % MODULUS }

  function Xor(a: nat, b: nat): nat
    decreases a + b
  {
    if a == 0 && b == 0 then 0 else (a + b) % 2 + 2 * Xor(a / 2, b / 2)
  }

  function ShiftRight(a: nat, k: nat): nat
    decreases k
  {
    if k == 0 then a else ShiftRight(a / 2, k - 1)
  }

  lemma {:induction false} XorCancels(a: nat, b: nat, c: nat)
    requires Xor(a, c) == Xor(b, c)
    ensures a == b
    decreases a + b + c
  {
    hide Xor;
    XorHalves(a, c);
    XorHalves(b, c);
    if a + b + c > 0 {
      XorCancels(a / 2, b / 2, c / 2);
      assert a % 2 == b % 2;
    }
  }

  lemma {:induction false} XorHalves(a: nat, b: nat)
    ensures Xor(a, b) % 2 == (a + b) % 2 && Xor(a, b) / 2 == Xor(a / 2, b / 2)
  {
    BitAndRest((a + b) % 2, Xor(a / 2, b / 2));
  }

  lemma BitAndRest(bit: nat, rest: nat)
    requires bit < 2
    ensures (bit + 2 * rest) % 2 == bit && (bit + 2 * rest) / 2 == rest
  {
  }

  lemma {:induction false} XorShifts(a: nat, b: nat, k: nat)
    ensures ShiftRight(Xor(a, b), k) == Xor(ShiftRight(a, k), ShiftRight(b, k))
    decreases k
  {
    if k > 0 {
      XorHalves(a, b);
      XorShifts(a / 2, b / 2, k - 1);
    }
  }

  lemma {:induction false} ShiftShrinks(a: nat, k: nat)
    ensures ShiftRight(a, k) <= a && (k > 0 ==> ShiftRight(a, k) <= a / 2)
    decreases k
  {
    if k > 0 {
      ShiftShrinks(a / 2, k - 1);
    }
  }

  /** `x ^ (x >> k)` loses nothing: it can be undone from the top bits down. */
  lemma {:induction false} XorShiftInjective(a: nat, b: nat, k: nat)
    requires k > 0 && Xor(a, ShiftRight(a, k)) == Xor(b, ShiftRight(b, k))
    ensures a == b
    decreases a + b
  {
    var c, d := ShiftRight(a, k), ShiftRight(b, k);
    if a + b > 0 {
      XorShifts(a, c, k);
      XorShifts(b, d, k);
      ShiftShrinks(a, k);
      ShiftShrinks(b, k);
      XorShiftInjective(c, d, k);
      XorCancels(a, b, c);
    }
  }

  function PowerOfTwo(k: nat): (p: nat)
    ensures p >= 1
  {
    if k == 0 then 1 else 2 * PowerOfTwo(k - 1)
  }

  lemma {:induction false} XorBelow(a: nat, b: nat, k: nat)
    requires a < PowerOfTwo(k) && b < PowerOfTwo(k)
    ensures Xor(a, b) < PowerOfTwo(k)
    decreases k
  {
    if k > 0 && a + b > 0 {
      XorBelow(a / 2, b / 2, k - 1);
    }
  }

  /** Multiplying by a factor that has an inverse modulo 2^64 loses nothing. */
  lemma MultiplicationInjective(a: nat, b: nat, factor: nat, inverse: nat)
    requires a < MODULUS && b < MODULUS
    requires (factor * inverse) % MODULUS == 1
    requires WrappingMul(a, factor) == WrappingMul(b, factor)
    ensures a == b
  {
    var p, q, u, v := (a * factor) / MODULUS, (b * factor) / MODULUS, (a * factor) % MODULUS,
        (factor * inverse) / MODULUS;
    UndoFactor(a, factor, inverse, p, u, v);
    UndoFactor(b, factor, inverse, q, u, v);
  }

  lemma UndoFactor(a: nat, factor: nat, inverse: nat, p: nat, u: nat, v: nat)
    requires a < MODULUS && a * factor == MODULUS * p + u && factor * inverse == MODULUS * v + 1
    ensures a == (u * inverse) % MODULUS
  {
    assert a * (factor * inverse) == (a * factor) * inverse;
    assert a * (MODULUS * v + 1) == MODULUS * (a * v) + a;
    assert (MODULUS * p + u) * inverse == MODULUS * (p * inverse) + u * inverse;
    assert u * inverse == MODULUS * (a * v - p * inverse) + a;
    RemainderIs(u * inverse, a * v - p * inverse, a);
  }

  lemma RemainderIs(x: nat, q: int, r: nat)
    requires r < MODULUS && x == MODULUS * q + r
    ensures x % MODULUS == r
  {
  }
}
