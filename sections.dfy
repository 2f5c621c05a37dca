/**
 * The wheel's sections, the wedges they occupy, and the resolution of the
 * section that ends up under the pointer.
 */
module Sections {
  import opened Angles

  /** One labelled wedge of the wheel; `color` is any canvas fill style. */
  datatype Section = Section(text: string, color: string)

  /** A value that may be missing: `None` is JavaScript's `undefined`. */
  datatype Option<T> = None | Some(value: T)

  /** The angular width of each of the `n` equal wedges. */
  function AnglePerSection(n: int): (a: real)
    requires n >= 1
    ensures 0.0 < a <= TWO_PI
    ensures a * n as real == TWO_PI
  {
    TWO_PI / n as real
  }

  /** Where wedge `i` starts, in the wheel's own (unrotated) frame. */
  function WedgeStart(i: int, n: int): (s: real)
    requires n >= 1
    ensures i == 0 ==> s == 0.0
    ensures i == n ==> s == TWO_PI
    ensures 0 <= i <= n ==> 0.0 <= s <= TWO_PI
  {
    WedgeStartBounds(i, n);
    i as real * AnglePerSection(n)
  }

  lemma WedgeStartBounds(i: int, n: int)
    requires n >= 1
    ensures 0 <= i <= n ==> 0.0 <= i as real * AnglePerSection(n) <= TWO_PI
  {
    if 0 <= i <= n {
      MulMonotone(0.0, i as real, AnglePerSection(n));
      MulMonotone(i as real, n as real, AnglePerSection(n));
    }
  }

  /** Wedge `i` of `n` covers the half-open arc [WedgeStart(i), WedgeStart(i+1)). */
  predicate InWedge(x: real, i: int, n: int)
    requires n >= 1
  {
    WedgeStart(i, n) <= x < WedgeStart(i + 1, n)
  }

  /**
   * The pointer's direction in the wheel's frame: the pointer angle minus
   * the wheel's rotation, normalized into [0, 2π).
   */
  function PointerOffset(rotation: real): (x: real)
    ensures 0.0 <= x < TWO_PI
  {
    FloorMod(POINTER_ANGLE - rotation)
  }

  /** Scaling by a positive width brackets `x` between two multiples of it. */
  lemma FloorOfQuotient(x: real, a: real)
    requires a > 0.0
    ensures (x / a).Floor as real * a <= x < ((x / a).Floor as real + 1.0) * a
  {
    var q := x / a;
    var i := q.Floor as real;
    assert q * a == x;
    MulMonotone(i, q, a);
    assert q < i + 1.0;
    MulStrict(q, i + 1.0, a);
    assert q * a < (i + 1.0) * a;
    assert x < (i + 1.0) * a;
  }

  lemma MulMonotone(u: real, v: real, a: real)
    requires u <= v && a > 0.0
    ensures u * a <= v * a
  {
    assert v * a - u * a == (v - u) * a;
  }

  lemma MulStrict(u: real, v: real, a: real)
    requires u < v && a > 0.0
    ensures u * a < v * a
  {
    assert v * a - u * a == (v - u) * a;
  }

  /** A positive factor can be cancelled from a strict inequality through `x`. */
  lemma CancelPositive(p: real, q: real, a: real, x: real)
    requires a > 0.0
    requires p * a <= x < q * a
    ensures p < q
  {
    if q <= p {
      MulMonotone(q, p, a);
      assert false;
    }
  }

  /**
   * `getWinningSection`'s index: the floor of the pointer offset divided by
   * the wedge width. It names a real section, and it is a wedge that
   * contains the pointer.
   */
  function WinningIndex(n: int, rotation: real): (i: int)
    requires n >= 1
    ensures 0 <= i < n
    ensures InWedge(PointerOffset(rotation), i, n)
  {
    var x := PointerOffset(rotation);
    WedgeOfAngle(x, n);
    (x / AnglePerSection(n)).Floor
  }

  /** Every angle in [0, 2π) lies in the wedge its quotient by the width names. */
  lemma WedgeOfAngle(x: real, n: int)
    requires n >= 1
    requires 0.0 <= x < TWO_PI
    ensures var i := (x / AnglePerSection(n)).Floor; 0 <= i < n && InWedge(x, i, n)
  {
    var a := AnglePerSection(n);
    var i := (x / a).Floor;
    QuotientIndex(x, n);
    FloorOfQuotient(x, a);
    assert i as real * a <= x < (i + 1) as real * a;
  }

  /** The quotient of an angle in [0, 2π) by the wedge width floors to a wedge index. */
  lemma QuotientIndex(x: real, n: int)
    requires n >= 1
    requires 0.0 <= x < TWO_PI
    ensures 0 <= (x / AnglePerSection(n)).Floor < n
  {
    var a := AnglePerSection(n);
    var i := (x / a).Floor;
    FloorOfQuotient(x, a);
    assert i as real * a <= x;
    assert a * n as real == TWO_PI;
    assert n as real * a == TWO_PI;
    assert x < n as real * a;
    CancelPositive(i as real, n as real, a, x);
    assert 0.0 <= x / a;
  }

  /** Wedges do not overlap: the winning wedge is the only one under the pointer. */
  lemma WinnerIsOnlyWedgeUnderPointer(n: int, rotation: real, j: int)
    requires n >= 1
    requires InWedge(PointerOffset(rotation), j, n)
    ensures j == WinningIndex(n, rotation)
  {
    WedgesDisjoint(PointerOffset(rotation), j, WinningIndex(n, rotation), n);
  }

  /** No angle lies in two different wedges. */
  lemma WedgesDisjoint(x: real, i: int, j: int, n: int)
    requires n >= 1
    requires InWedge(x, i, n) && InWedge(x, j, n)
    ensures i == j
  {
    var a := AnglePerSection(n);
    assert j as real * a <= x < (j + 1) as real * a;
    assert i as real * a <= x < (i + 1) as real * a;
    CancelPositive(j as real, (i + 1) as real, a, x);
    CancelPositive(i as real, (j + 1) as real, a, x);
  }

  /** Turning the wheel by whole turns does not change the winner. */
  lemma WinnerIgnoresWholeTurns(n: int, rotation: real, k: int)
    requires n >= 1
    ensures WinningIndex(n, rotation + TWO_PI * k as real) == WinningIndex(n, rotation)
  {
    OffsetIgnoresWholeTurns(rotation, k);
  }

  /** Turning the wheel by whole turns does not move the pointer's offset. */
  lemma OffsetIgnoresWholeTurns(rotation: real, k: int)
    ensures PointerOffset(rotation + TWO_PI * k as real) == PointerOffset(rotation)
  {
    var d := POINTER_ANGLE - rotation;
    assert POINTER_ANGLE - (rotation + TWO_PI * k as real) == d + TWO_PI * (-k) as real;
    FloorModPeriodic(d, -k);
  }

  /**
   * `getWinningSection`: the section under the pointer, or `undefined` when
   * the wheel has no sections (`sections[0]` of an empty array).
   */
  function WinningSection(sections: seq<Section>, rotation: real): (w: Option<Section>)
    ensures w.None? <==> |sections| == 0
    ensures w.Some? ==> w.value in sections
    ensures w.Some? ==>
      exists i :: 0 <= i < |sections| && w.value == sections[i] && InWedge(PointerOffset(rotation), i, |sections|)
  {
    if |sections| == 0 then None
    else Some(sections[WinningIndex(|sections|, rotation)])
  }

  /** Four wedges at rotation 0: the pointer at 3π/2 falls in the last wedge. */
  lemma FourWedgesAtRest()
    ensures WinningIndex(4, 0.0) == 3
  {
    FloorModIsRemainder(POINTER_ANGLE);
    WholeTurnsUnique(POINTER_ANGLE, -1, 3.0 * PI / 2.0);
    WinnerIsOnlyWedgeUnderPointer(4, 0.0, 3);
  }

  /** Two wedges: half a turn moves the pointer onto the other section. */
  lemma TwoWedgesHalfTurn()
    ensures WinningIndex(2, 0.0) == 1
    ensures WinningIndex(2, PI) == 0
  {
    FloorModIsRemainder(POINTER_ANGLE);
    WholeTurnsUnique(POINTER_ANGLE, -1, 3.0 * PI / 2.0);
    WinnerIsOnlyWedgeUnderPointer(2, 0.0, 1);
    FloorModIsRemainder(POINTER_ANGLE - PI);
    WholeTurnsUnique(POINTER_ANGLE - PI, -1, PI / 2.0);
    WinnerIsOnlyWedgeUnderPointer(2, PI, 0);
  }
}
