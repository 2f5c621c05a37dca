/**
 * Angle arithmetic of the wheel: the full turn, JavaScript's truncating
 * remainder `%` taken modulo a full turn, and the non-negative floor-mod
 * that the winner resolution builds out of two such remainders.
 */
module Angles {

  /** `Math.PI * 2`, written as the decimal expansion of that double. */
  const TWO_PI: real := 6.283185307179586

  /** `Math.PI`. */
  const PI: real := TWO_PI / 2.0

  /** The pointer sits at the top of the wheel, at angle -π/2. */
  const POINTER_ANGLE: real := -PI / 2.0

  /** Conversion toward zero, the way JavaScript's `%` rounds its quotient. */
  function Trunc(x: real): (t: int)
    ensures 0.0 <= x ==> t as real <= x < t as real + 1.0
    ensures x < 0.0 ==> t as real - 1.0 < x <= t as real
  {
    if x >= 0.0 then x.Floor else -((-x).Floor)
  }

  /**
   * `a % (Math.PI * 2)` in JavaScript: the remainder has the sign of the
   * dividend, so a negative angle stays negative.
   */
  function RemTwoPi(a: real): (r: real)
    ensures 0.0 <= a ==> 0.0 <= r < TWO_PI
    ensures a < 0.0 ==> -TWO_PI < r <= 0.0
  {
    a - TWO_PI * Trunc(a / TWO_PI) as real
  }

  /**
   * `(a % (Math.PI * 2) + Math.PI * 2) % (Math.PI * 2)`: the double
   * remainder that maps every angle into [0, 2π).
   */
  function FloorMod(a: real): (r: real)
    ensures 0.0 <= r < TWO_PI
  {
    RemTwoPi(RemTwoPi(a) + TWO_PI)
  }

  /** The number of whole turns below `a`: the floor of `a / 2π`. */
  function Turns(a: real): int
  {
    (a / TWO_PI).Floor
  }

  /** Two angles are the same direction when they differ by whole turns. */
  predicate SameAngle(a: real, b: real)
  {
    FloorMod(a) == FloorMod(b)
  }

  /** An angle in [0, 2π) that differs from `a` by whole turns is FloorMod(a). */
  lemma WholeTurnsUnique(a: real, k: int, m: real)
    requires m == a - TWO_PI * k as real
    requires 0.0 <= m < TWO_PI
    ensures k == Turns(a)
  {
    assert a / TWO_PI == k as real + m / TWO_PI;
  }

  /**
   * The double remainder is the mathematical floor-mod: what is left of `a`
   * after taking away its whole turns.
   */
  lemma FloorModIsRemainder(a: real)
    ensures FloorMod(a) == a - TWO_PI * Turns(a) as real
  {
    var t1 := Trunc(a / TWO_PI);
    var m1 := RemTwoPi(a);
    assert m1 == a - TWO_PI * t1 as real;
    var t2 := Trunc((m1 + TWO_PI) / TWO_PI);
    var m2 := FloorMod(a);
    assert m2 == m1 + TWO_PI - TWO_PI * t2 as real;
    WholeTurnsUnique(a, t1 + t2 - 1, m2);
  }

  /** Adding whole turns does not change the normalized angle. */
  lemma FloorModPeriodic(a: real, k: int)
    ensures FloorMod(a + TWO_PI * k as real) == FloorMod(a)
  {
    FloorModIsRemainder(a);
    FloorModIsRemainder(a + TWO_PI * k as real);
    WholeTurnsUnique(a + TWO_PI * k as real, Turns(a) + k, FloorMod(a));
  }

  /** An angle already in [0, 2π) is its own normalized form. */
  lemma FloorModOfNormalized(a: real)
    requires 0.0 <= a < TWO_PI
    ensures FloorMod(a) == a
  {
    FloorModIsRemainder(a);
    WholeTurnsUnique(a, 0, a);
  }

  /** One JavaScript remainder keeps the direction of the angle. */
  lemma RemTwoPiSameAngle(a: real)
    ensures SameAngle(RemTwoPi(a), a)
  {
    var t := Trunc(a / TWO_PI);
    assert RemTwoPi(a) == a + TWO_PI * (-t) as real;
    FloorModPeriodic(a, -t);
  }

  /** On a non-negative angle the JavaScript remainder already normalizes. */
  lemma RemTwoPiOfNonNegative(a: real)
    requires 0.0 <= a
    ensures RemTwoPi(a) == FloorMod(a)
  {
    RemTwoPiSameAngle(a);
    FloorModOfNormalized(RemTwoPi(a));
  }
}
