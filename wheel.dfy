/**
 * The `WheelOfFortune` object: its sections and the three motion fields that
 * `spin`, `animate` and `stopSpinning` update in place. Every update is the
 * one the functions of module Physics describe.
 */
module Wheel {
  import opened Angles
  import opened Sections
  import Physics

  /** What one call of `spin` or `animate` leaves behind it. */
  datatype Frame =
    | Ignored                          // the call returned at its guard
    | Requested                        // another animation frame was requested
    | Stopped(winner: Option<Section>) // the wheel stopped; the winner to display (None: no sections)

  class WheelOfFortune {
    var rotation: real
    var angularVelocity: real
    var isSpinning: bool
    var sections: seq<Section>

    /** The motion fields as one value. */
    function State(): Physics.Motion
      reads this
    {
      Physics.Motion(rotation, angularVelocity, isSpinning)
    }

    ghost predicate Valid()
      reads this
    {
      Physics.Valid(State())
    }

    /** A wheel showing `sections`, at rest at rotation 0. */
    constructor (sections: seq<Section>)
      ensures Valid() && State() == Physics.AT_REST
      ensures this.sections == sections
    {
      rotation := 0.0;
      angularVelocity := 0.0;
      isSpinning := false;
      this.sections := sections;
    }

    /** `getWinningSection`: the section under the pointer right now. */
    function GetWinningSection(): (w: Option<Section>)
      reads this
      ensures |sections| >= 1 ==> w == Some(sections[WinningIndex(|sections|, rotation)])
      ensures |sections| == 0 ==> w == None
    {
      WinningSection(sections, rotation)
    }

    /** `stopSpinning`: come to rest and report the winner. */
    method StopSpinning() returns (winner: Option<Section>)
      modifies this
      ensures State() == Physics.Stop(old(State()))
      ensures sections == old(sections)
      ensures winner == GetWinningSection()
      ensures 0.0 <= rotation < TWO_PI ==> Valid()
    {
      isSpinning := false;
      angularVelocity := 0.0;
      winner := GetWinningSection();
    }

    /**
     * `animate`: one tick. Returns at the guard when the wheel is not
     * spinning; otherwise applies friction, turns the wheel, and either
     * stops it (reporting the winner) or asks for another frame.
     */
    method Animate() returns (frame: Frame)
      requires Valid()
      modifies this
      ensures Valid()
      ensures State() == Physics.Animate(old(State()))
      ensures sections == old(sections)
      ensures !old(isSpinning) ==> frame == Ignored
      ensures old(isSpinning) && isSpinning ==> frame == Requested
      ensures old(isSpinning) && !isSpinning ==> frame == Stopped(GetWinningSection())
    {
      Physics.AnimateValid(State());
      if !isSpinning {
        return Ignored;
      }
      angularVelocity := angularVelocity * Physics.FRICTION;
      rotation := rotation + angularVelocity;
      rotation := RemTwoPi(rotation);
      if angularVelocity < Physics.MIN_VELOCITY {
        var winner := StopSpinning();
        frame := Stopped(winner);
      } else {
        frame := Requested;
      }
    }

    /**
     * `spin` with the random draw `random`: ignored while spinning;
     * otherwise the guarded start followed by the first tick, which
     * `spin` runs at once.
     */
    method Spin(random: real) returns (frame: Frame)
      requires Valid() && 0.0 <= random < 1.0
      modifies this
      ensures Valid()
      ensures sections == old(sections)
      ensures old(isSpinning) ==> State() == old(State()) && frame == Ignored
      ensures !old(isSpinning) ==> State() == Physics.Animate(Physics.Start(old(State()), random))
      ensures !old(isSpinning) ==> frame != Ignored
      ensures !old(isSpinning) ==> (frame == Requested <==> isSpinning)
    {
      if isSpinning {
        return Ignored;
      }
      isSpinning := true;
      angularVelocity := Physics.InitialVelocity(random);
      frame := Animate();
    }

    /**
     * A spin from rest driven to its end: `spin`, then one `animate` per
     * requested frame until the wheel stops. Returns the winner shown and
     * the number of ticks taken.
     */
    method RunSpin(random: real) returns (winner: Option<Section>, ticks: nat)
      requires Valid() && !isSpinning && 0.0 <= random < 1.0
      modifies this
      ensures Valid() && !isSpinning
      ensures sections == old(sections)
      ensures State() == Physics.Settle(Physics.Start(old(State()), random))
      ensures ticks == Physics.TicksToStop(Physics.Start(old(State()), random))
      ensures winner == GetWinningSection()
    {
      ghost var started := Physics.Start(State(), random);
      Physics.StartValid(State(), random);
      Physics.AnimateDecreases(started);
      var frame := Spin(random);
      ticks := 1;
      while frame == Requested
        invariant Valid() && sections == old(sections)
        invariant frame != Ignored
        invariant frame == Requested <==> isSpinning
        invariant frame.Stopped? ==> frame.winner == GetWinningSection()
        invariant Physics.Settle(State()) == Physics.Settle(started)
        invariant ticks + Physics.TicksToStop(State()) == Physics.TicksToStop(started)
        decreases Physics.Measure(State())
      {
        Physics.AnimateDecreases(State());
        frame := Animate();
        ticks := ticks + 1;
      }
      winner := frame.winner;
    }
  }
}
