/** `DeadReckoningPosition`: the horizontal offset integrated since the last position fix. */
module DeadReckoning {
  import opened Vectors
  import opened WindEstimation

  type i32 = n: int | -0x8000_0000 <= n < 0x8000_0000

  datatype Position = Position(
    offsetNorth: real, offsetEast: real, havePosition: bool, lastLatE7: i32, lastLngE7: i32, lastPosMs: u32)

  const NO_POSITION := Position(0.0, 0.0, false, 0, 0, 0)

  /** The position after `integrate`. */
  function Integrated(p: Position, velocity: Vec, dt: real, haveGps: bool): Position {
    if haveGps || !p.havePosition || dt <= 0.0 then p
    else p.(offsetNorth := p.offsetNorth + Mul(velocity.x, dt), offsetEast := p.offsetEast + Mul(velocity.y, dt))
  }

  class DeadReckoningPosition {
    var offsetNorth: real
    var offsetEast: real
    var havePosition: bool
    var lastLatE7: i32
    var lastLngE7: i32
    var lastPosMs: u32

    function State(): Position
      reads this
    {
      Position(offsetNorth, offsetEast, havePosition, lastLatE7, lastLngE7, lastPosMs)
    }

    constructor ()
      ensures State() == NO_POSITION
    {
      offsetNorth, offsetEast, havePosition := 0.0, 0.0, false;
      lastLatE7, lastLngE7, lastPosMs := 0, 0, 0;
    }

    method OnGpsFix(latE7: i32, lngE7: i32, nowMs: u32)
      modifies this
      ensures State() == Position(0.0, 0.0, true, latE7, lngE7, nowMs)
    {
      lastLatE7, lastLngE7, lastPosMs := latE7, lngE7, nowMs;
      offsetNorth, offsetEast, havePosition := 0.0, 0.0, true;
    }

    method Integrate(velocity: Vec, dt: real, haveGps: bool)
      modifies this`offsetNorth, this`offsetEast
      ensures State() == Integrated(old(State()), velocity, dt, haveGps)
    {
      if haveGps {
        return;
      }
      if havePosition && dt > 0.0 {
        offsetNorth := offsetNorth + Mul(velocity.x, dt);
        offsetEast := offsetEast + Mul(velocity.y, dt);
      }
    }
  }
}
