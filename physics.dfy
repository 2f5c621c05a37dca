/**
 * The spin physics of the wheel as functions on a snapshot of its motion:
 * the guarded start, one animation tick with friction, and the stop. The
 * class in module Wheel updates its fields exactly as these functions say.
 */
module Physics {
  import opened Angles

  /** Multiplicative slow-down applied on every tick. */
  const FRICTION: real := 0.98

  /** Below this velocity (radians per tick) the wheel stops. */
  const MIN_VELOCITY: real := 0.001

  /**
   * The least loss of velocity in one tick that keeps the wheel spinning:
   * a velocity of at least MIN_VELOCITY loses at least this much.
   */
  const MIN_LOSS: real := MIN_VELOCITY * (1.0 - FRICTION)

  /** The fields `rotation`, `angularVelocity` and `isSpinning`. */
  datatype Motion = Motion(rotation: real, angularVelocity: real, isSpinning: bool)

  /** The motion of a freshly constructed wheel. */
  const AT_REST: Motion := Motion(0.0, 0.0, false)

  /**
   * The invariant every public operation keeps: the rotation is a
   * normalized angle, a spinning wheel is at least as fast as the stopping
   * threshold, and a wheel at rest has no velocity.
   */
  predicate Valid(m: Motion)
  {
    && 0.0 <= m.rotation < TWO_PI
    && (m.isSpinning ==> m.angularVelocity >= MIN_VELOCITY)
    && (!m.isSpinning ==> m.angularVelocity == 0.0)
  }

  /** `Math.random() * 0.2 + 0.3` for a draw `random` in [0, 1). */
  function InitialVelocity(random: real): (v: real)
    requires 0.0 <= random < 1.0
    ensures 0.3 <= v < 0.5
  {
    random * 0.2 + 0.3
  }

  /**
   * The guarded start of `spin`: ignored while spinning; otherwise the wheel
   * is marked spinning with a fresh velocity in [0.3, 0.5).
   */
  function Start(m: Motion, random: real): (s: Motion)
    requires 0.0 <= random < 1.0
    ensures m.isSpinning ==> s == m
    ensures !m.isSpinning ==> s.isSpinning && 0.3 <= s.angularVelocity < 0.5
    ensures s.rotation == m.rotation
  {
    if m.isSpinning then m
    else m.(isSpinning := true, angularVelocity := InitialVelocity(random))
  }

  /** `stopSpinning`: clear the flag and drop the velocity to zero. */
  function Stop(m: Motion): (s: Motion)
    ensures !s.isSpinning && s.angularVelocity == 0.0
    ensures s.rotation == m.rotation
  {
    m.(isSpinning := false, angularVelocity := 0.0)
  }

  /**
   * One call of `animate`: nothing when not spinning; otherwise friction,
   * rotation by the new velocity reduced with `% (Math.PI * 2)`, then stop
   * when the new velocity is under the threshold.
   */
  function Animate(m: Motion): (a: Motion)
    ensures a.isSpinning ==> m.isSpinning && a.angularVelocity >= MIN_VELOCITY
    ensures m.isSpinning && !a.isSpinning ==> a.angularVelocity == 0.0
    ensures m.isSpinning ==> SameAngle(a.rotation, m.rotation + m.angularVelocity * FRICTION)
  {
    RemTwoPiSameAngle(m.rotation + m.angularVelocity * FRICTION);
    if !m.isSpinning then m
    else
      var v := m.angularVelocity * FRICTION;
      var next := Motion(RemTwoPi(m.rotation + v), v, true);
      if v < MIN_VELOCITY then Stop(next) else next
  }

  /** A tick of a wheel at rest changes nothing. */
  lemma AnimateAtRest(m: Motion)
    requires !m.isSpinning
    ensures Animate(m) == m
  {
  }

  /**
   * One tick of a spinning wheel with non-negative rotation and positive
   * velocity: the velocity after friction is positive and strictly smaller,
   * the wheel has turned by exactly that velocity, its rotation is back in
   * [0, 2π), and it stops exactly when that velocity is below the
   * threshold, in which case it is at rest.
   */
  lemma AnimateSpinning(m: Motion)
    requires m.isSpinning && 0.0 <= m.rotation && m.angularVelocity > 0.0
    ensures var v := m.angularVelocity * FRICTION;
      && 0.0 < v < m.angularVelocity
      && 0.0 <= Animate(m).rotation < TWO_PI
      && SameAngle(Animate(m).rotation, m.rotation + v)
      && (Animate(m).isSpinning <==> v >= MIN_VELOCITY)
      && (Animate(m).isSpinning ==> Animate(m).angularVelocity == v)
      && (!Animate(m).isSpinning ==> Animate(m).angularVelocity == 0.0)
  {
    RemTwoPiSameAngle(m.rotation + m.angularVelocity * FRICTION);
  }

  /** Starting a spin keeps the invariant. */
  lemma StartValid(m: Motion, random: real)
    requires Valid(m) && 0.0 <= random < 1.0
    ensures Valid(Start(m, random))
  {
  }

  /** A second start right after a first one changes nothing. */
  lemma StartIdempotent(m: Motion, r1: real, r2: real)
    requires 0.0 <= r1 < 1.0 && 0.0 <= r2 < 1.0
    ensures Start(Start(m, r1), r2) == Start(m, r1)
  {
  }

  /** A tick keeps the invariant. */
  lemma AnimateValid(m: Motion)
    requires Valid(m)
    ensures Valid(Animate(m))
  {
    if m.isSpinning {
      AnimateSpinning(m);
    }
  }

  /**
   * A bound on the ticks still to come: zero at rest, otherwise one more
   * than the number of MIN_LOSS steps that fit in the velocity.
   */
  function Measure(m: Motion): nat
    requires Valid(m)
  {
    if m.isSpinning then (m.angularVelocity / MIN_LOSS).Floor + 1 else 0
  }

  /** Every tick of a spinning wheel brings the bound down. */
  lemma AnimateDecreases(m: Motion)
    requires Valid(m) && m.isSpinning
    ensures Valid(Animate(m)) && Measure(Animate(m)) < Measure(m)
  {
    AnimateValid(m);
    var a := Animate(m);
    if a.isSpinning {
      assert a.angularVelocity <= m.angularVelocity - MIN_LOSS;
      assert a.angularVelocity / MIN_LOSS <= m.angularVelocity / MIN_LOSS - 1.0;
    }
  }

  /** `k` ticks in a row. */
  function Advance(m: Motion, k: nat): Motion
    decreases k
  {
    if k == 0 then m else Advance(Animate(m), k - 1)
  }

  /**
   * The number of ticks after which a valid wheel is at rest: the spin
   * always ends, within Measure(m) ticks.
   */
  function TicksToStop(m: Motion): (k: nat)
    requires Valid(m)
    ensures k <= Measure(m)
    ensures k == 0 <==> !m.isSpinning
    decreases Measure(m)
  {
    if !m.isSpinning then 0
    else
      AnimateDecreases(m);
      1 + TicksToStop(Animate(m))
  }

  /**
   * The wheel is still spinning before TicksToStop(m) ticks and at rest,
   * with the invariant, after exactly that many.
   */
  lemma {:induction false} StopsExactlyAfterTicks(m: Motion, j: nat)
    requires Valid(m)
    ensures Valid(Advance(m, j))
    ensures Advance(m, j).isSpinning <==> j < TicksToStop(m)
    decreases j
  {
    if j > 0 {
      if m.isSpinning {
        AnimateDecreases(m);
        StopsExactlyAfterTicks(Animate(m), j - 1);
      } else {
        AdvanceAtRest(m, j);
      }
    }
  }

  /** A wheel at rest stays exactly as it is, tick after tick. */
  lemma {:induction false} AdvanceAtRest(m: Motion, k: nat)
    requires !m.isSpinning
    ensures Advance(m, k) == m
    decreases k
  {
    if k > 0 {
      AdvanceAtRest(Animate(m), k - 1);
    }
  }

  /** The motion once the spin has run to its end. */
  function Settle(m: Motion): (s: Motion)
    requires Valid(m)
    ensures Valid(s) && !s.isSpinning && s.angularVelocity == 0.0
    decreases Measure(m)
  {
    if !m.isSpinning then m
    else
      AnimateDecreases(m);
      Settle(Animate(m))
  }

  /** Settling is running the ticks until the wheel stops. */
  lemma {:induction false} SettleIsAdvance(m: Motion)
    requires Valid(m)
    ensures Settle(m) == Advance(m, TicksToStop(m))
    decreases Measure(m)
  {
    if m.isSpinning {
      AnimateDecreases(m);
      SettleIsAdvance(Animate(m));
    }
  }
}
