/** `WindEstimator`: wind from turning flight and from airspeed, on a wrapping millisecond clock. */
module WindEstimation {
  import opened Vectors
  import opened MathLibrary
  import opened Wrappers

  const CLOCK: nat := 0x1_0000_0000

  type u32 = n: nat | n < CLOCK

  const MIN_ESTIMATE_INTERVAL_MS: nat := 100
  const TURN_FUSE_DIFF_MIN := 0.2
  const STRAIGHT_WIND_INTERVAL_MS: nat := 2000
  const TURN_STATE_TIMEOUT_MS: nat := 10000
  const WIND_SPIKE_MARGIN_M_S := 20.0

  function WrappingSub(a: u32, b: u32): u32 { (a - b) % CLOCK }

  datatype WindEstimateInputs = WindEstimateInputs(
    nowMs: u32, velocity: Vec, fuselageDirection: Vec, airspeedEas: Option<real>, eas2tas: real, enabled: bool)

  datatype WindState = WindState(wind: Vec, lastFuse: Vec, lastVel: Vec, lastWindTimeMs: u32, lastEstimateMs: u32)

  const CALM_WIND := WindState(ZERO, ZERO, ZERO, 0, 0)

  /** What a call did: nothing, only passed the gate, restarted the turning state, rejected or
      blended a turning sample, or blended a straight-flight sample. */
  datatype WindOutcome = Ignored | Held | Restarted | TurnRejected | TurnBlended | StraightBlended

  // ---- specification ----------------------------------------------------

  /** The wind the turning triangle solves for. */
  function TurningSample(m: Libm, s: WindState, inp: WindEstimateInputs): Vec
    requires m.Length(inp.fuselageDirection.Minus(s.lastFuse)) != 0.0
  {
    var fuseDiff, velDiff := inp.fuselageDirection.Minus(s.lastFuse), inp.velocity.Minus(s.lastVel);
    var theta := m.atan2(velDiff.y, velDiff.x) - m.atan2(fuseDiff.y, fuseDiff.x);
    Triangle(m.Length(velDiff) / m.Length(fuseDiff), m.sin(theta), m.cos(theta),
             inp.fuselageDirection.Plus(s.lastFuse), inp.velocity.Plus(s.lastVel))
  }

  function Triangle(v: real, sinTheta: real, cosTheta: real, fuseSum: Vec, velSum: Vec): Vec {
    Vec(velSum.x - v * (cosTheta * fuseSum.x - sinTheta * fuseSum.y),
        velSum.y - v * (sinTheta * fuseSum.x + cosTheta * fuseSum.y),
        velSum.z - v * fuseSum.z).Times(0.5)
  }

  function StraightSample(inp: WindEstimateInputs): Vec
    requires inp.airspeedEas.Some?
  {
    inp.velocity.Minus(inp.fuselageDirection.Times(Mul(inp.airspeedEas.value, inp.eas2tas)))
  }

  function Blend(wind: Vec, keep: real, sample: Vec, take: real): Vec {
    wind.Times(keep).Plus(sample.Times(take))
  }

  predicate GatePasses(s: WindState, inp: WindEstimateInputs) {
    inp.enabled && WrappingSub(inp.nowMs, s.lastEstimateMs) >= MIN_ESTIMATE_INTERVAL_MS
  }

  /** State after `estimate`, and what the call did. */
  function Estimated(m: Libm, s: WindState, inp: WindEstimateInputs): (WindState, WindOutcome) {
    var age := WrappingSub(inp.nowMs, s.lastWindTimeMs);
    if !GatePasses(s, inp) then (s, Ignored)
    else
      var passed := s.(lastEstimateMs := inp.nowMs);
      var paired := passed.(lastFuse := inp.fuselageDirection, lastVel := inp.velocity, lastWindTimeMs := inp.nowMs);
      if age > TURN_STATE_TIMEOUT_MS then (paired, Restarted)
      else if m.Length(inp.fuselageDirection.Minus(s.lastFuse)) > TURN_FUSE_DIFF_MIN then
        var sample := TurningSample(m, s, inp);
        if m.Length(sample) < m.Length(s.wind) + WIND_SPIKE_MARGIN_M_S
        then (paired.(wind := Blend(s.wind, 0.95, sample, 0.05)), TurnBlended)
        else (paired, TurnRejected)
      else if inp.airspeedEas.Some? && age > STRAIGHT_WIND_INTERVAL_MS
      then (passed.(wind := Blend(s.wind, 0.92, StraightSample(inp), 0.08)), StraightBlended)
      else (passed, Held)
  }

  function GroundVelocityNoGps(wind: Vec, fuselageDirection: Vec, airspeedTas: real): Vec {
    fuselageDirection.Times(airspeedTas).Plus(wind)
  }

  // ---- the stateful form ------------------------------------------------

  class WindEstimator {
    var wind: Vec
    var lastFuse: Vec
    var lastVel: Vec
    var lastWindTimeMs: u32
    var lastEstimateMs: u32

    function State(): WindState
      reads this
    {
      WindState(wind, lastFuse, lastVel, lastWindTimeMs, lastEstimateMs)
    }

    constructor ()
      ensures State() == CALM_WIND
    {
      wind, lastFuse, lastVel, lastWindTimeMs, lastEstimateMs := ZERO, ZERO, ZERO, 0, 0;
    }

    method Estimate(m: Libm, inp: WindEstimateInputs)
      modifies this
      ensures State() == Estimated(m, old(State()), inp).0
    {
      hide Vec.Dot, Vec.Minus, Vec.Times, Triangle, Libm.Length;
      if !inp.enabled {
        return;
      }
      if WrappingSub(inp.nowMs, lastEstimateMs) < MIN_ESTIMATE_INTERVAL_MS {
        return;
      }
      lastEstimateMs := inp.nowMs;
      var fuseDiff := inp.fuselageDirection.Minus(lastFuse);
      var diffLength := m.Length(fuseDiff);
      if WrappingSub(inp.nowMs, lastWindTimeMs) > TURN_STATE_TIMEOUT_MS {
        lastWindTimeMs := inp.nowMs;
        lastFuse := inp.fuselageDirection;
        lastVel := inp.velocity;
        return;
      }
      if diffLength > TURN_FUSE_DIFF_MIN {
        EstimateTurning(m, inp, fuseDiff, diffLength);
        return;
      }
      if inp.airspeedEas.Some? {
        if WrappingSub(inp.nowMs, lastWindTimeMs) > STRAIGHT_WIND_INTERVAL_MS {
          var airspeed := inp.fuselageDirection.Times(Mul(inp.airspeedEas.value, inp.eas2tas));
          var sample := inp.velocity.Minus(airspeed);
          wind := wind.Times(0.92).Plus(sample.Times(0.08));
        }
      }
    }

    method EstimateTurning(m: Libm, inp: WindEstimateInputs, fuseDiff: Vec, diffLength: real)
      requires fuseDiff == inp.fuselageDirection.Minus(lastFuse)
      requires diffLength == m.Length(fuseDiff) > TURN_FUSE_DIFF_MIN
      modifies this
      ensures var before := old(State());
        var sample := TurningSample(m, before, inp);
        State() == before.(
          wind := if m.Length(sample) < m.Length(before.wind) + WIND_SPIKE_MARGIN_M_S
                  then Blend(before.wind, 0.95, sample, 0.05) else before.wind,
          lastFuse := inp.fuselageDirection, lastVel := inp.velocity, lastWindTimeMs := inp.nowMs)
    {
      hide Vec.Dot, Vec.Minus, Vec.Plus, Vec.Times, Libm.Length;
      var velocityDiff := inp.velocity.Minus(lastVel);
      var v := m.Length(velocityDiff) / diffLength;
      var fuseSum := inp.fuselageDirection.Plus(lastFuse);
      var velSum := inp.velocity.Plus(lastVel);
      lastFuse := inp.fuselageDirection;
      lastVel := inp.velocity;
      var theta := m.atan2(velocityDiff.y, velocityDiff.x) - m.atan2(fuseDiff.y, fuseDiff.x);
      var sinTheta := m.sin(theta);
      var cosTheta := m.cos(theta);
      var sample := Triangle(v, sinTheta, cosTheta, fuseSum, velSum);
      if m.Length(sample) < m.Length(wind) + WIND_SPIKE_MARGIN_M_S {
        wind := wind.Times(0.95).Plus(sample.Times(0.05));
      }
      lastWindTimeMs := inp.nowMs;
    }

    /** Horizontal wind speed for the yaw consistency check. */
    function WindSpeedXy(m: Libm): real
      reads this
    {
      m.LengthXy(wind)
    }
  }
}
