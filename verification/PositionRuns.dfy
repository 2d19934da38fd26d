/** How far the dead-reckoned offset is from velocity times elapsed time. */
module PositionRuns {
  import opened Vectors
  import opened MathLibrary
  import opened Wrappers
  import opened DcmLoop
  import opened Drift
  import opened WindEstimation
  import opened DeadReckoning
  import opened DriftLoop
  import opened LoopRuns

  /** The velocity a tick resolves. */
  function TickVelocity(m: Libm, v: Vehicle, tick: Tick): Option<Vec> {
    var dcm := MatrixStep(m, v.dcm, tick.ins, DriftOmega(v.loop)).0;
    OfferedVelocity(BeforeAttempt(m, v, tick).wind, dcm.matrix, tick.motion)
  }

  /** The seconds a tick integrates the offset over: all that are pending, its own included, or
      nothing when there are none. */
  function IntegratedSeconds(s: LoopState, tick: Tick): real {
    var pending := s.raDeltat + AddedTime(tick.ins, tick.loopDt);
    if pending > 0.0 then pending else 0.0
  }

  /** The offset moves as documented, by velocity times the interval of the tick. */
  predicate MovesAsFlown(from: Position, to: Position, velocity: Vec, loopDt: real) {
    && to.offsetNorth - from.offsetNorth == Mul(velocity.x, loopDt)
    && to.offsetEast - from.offsetEast == Mul(velocity.y, loopDt)
  }

  /** A tick without GPS that resolves a velocity moves the offset as documented exactly when the
      pending seconds happen to be its own interval, or the velocity is vertical. More than one
      contributing accelerometer, seconds left by earlier ticks, or no contribution at all each make
      it miss. */
  lemma OffsetMatchesTickIff(m: Libm, v: Vehicle, tick: Tick)
    requires !tick.motion.haveGps && v.loop.position.havePosition
    requires TickVelocity(m, v, tick).Some?
    ensures var velocity := TickVelocity(m, v, tick).value;
      var (from, to) := (v.loop.position, BeforeAttempt(m, v, tick).position);
      && MovesAsFlown(from, to, velocity, IntegratedSeconds(v.loop, tick))
      && (MovesAsFlown(from, to, velocity, tick.loopDt)
          <==> IntegratedSeconds(v.loop, tick) == tick.loopDt || (velocity.x == 0.0 && velocity.y == 0.0))
  {
    hide MatrixStep, WindUpdated, Accumulated, AddedTime, OfferedVelocity, Mul;
    var velocity := TickVelocity(m, v, tick).value;
    MulZero(velocity.x);
    MulZero(velocity.y);
    MulDiffersIff(velocity.x, IntegratedSeconds(v.loop, tick), tick.loopDt);
    MulDiffersIff(velocity.y, IntegratedSeconds(v.loop, tick), tick.loopDt);
  }

  lemma MulZero(x: real)
    ensures Mul(x, 0.0) == 0.0
  {
  }

  lemma MulDiffersIff(x: real, p: real, q: real)
    ensures Mul(x, p) == Mul(x, q) <==> x == 0.0 || p == q
  {
    if x != 0.0 && p != q {
      ProductPositive(x, p - q);
      ProductPositive(-x, p - q);
      assert x * (p - q) == x * p - x * q;
    }
  }

  /** A tick with a new fix knows where it is: at the fix that came with it, or at the origin when only a
      velocity did, with no offset either way. */
  lemma FixTaken(m: Libm, v: Vehicle, tick: Tick, gains: Gains)
    requires tick.motion.haveGps && tick.motion.newGpsFix
    ensures var (p, motion) := (Step(m, v, tick, gains).vehicle.loop.position, tick.motion);
      match (motion.gpsLatE7, motion.gpsLngE7)
      case (Some(lat), Some(lng)) =>
        p.havePosition && p.lastLatE7 == lat && p.lastLngE7 == lng && p.lastPosMs == motion.nowMs
        && p.offsetNorth == p.offsetEast == 0.0
      case _ =>
        if motion.gpsVelocity.Some? then
          p.havePosition && p.lastLatE7 == 0 && p.lastLngE7 == 0 && p.lastPosMs == motion.nowMs
          && p.offsetNorth == p.offsetEast == 0.0
        else p == v.loop.position
  {
    hide MatrixStep, WindUpdated, Accumulated, AddedTime, OfferedVelocity, Step;
    OffsetKept(m, v, tick, gains);
  }

  // ---- runs without GPS -------------------------------------------------

  /** What happens to the offset after `update_position` of a tick: nothing. */
  lemma OffsetKept(m: Libm, v: Vehicle, tick: Tick, gains: Gains)
    ensures Step(m, v, tick, gains).vehicle.loop.position == BeforeAttempt(m, v, tick).position
  {
    hide MatrixStep, BeforeAttempt, WindUpdated, OfferedVelocity, Correction, Selected, CorrectionInputs,
      Yaw.YawCorrection, YawInputs;
  }

  /** A tick without GPS that resolves the velocity `u` and adds `seconds` to the pending time. */
  ghost predicate Coasts(m: Libm, v: Vehicle, tick: Tick, u: Vec, seconds: real) {
    && !tick.motion.haveGps
    && TickVelocity(m, v, tick) == Some(u) && AddedTime(tick.ins, tick.loopDt) == seconds
  }

  lemma CoastingTick(m: Libm, v: Vehicle, tick: Tick, gains: Gains, u: Vec, seconds: real)
    requires v.loop.position.havePosition && Coasts(m, v, tick, u, seconds)
    ensures var next := Step(m, v, tick, gains).vehicle.loop;
      && next.position.havePosition
      && MovesAsFlown(v.loop.position, next.position, u, IntegratedSeconds(v.loop, tick))
      && (v.loop.raDeltat + seconds < DRIFT_CORRECTION_INTERVAL_S ==> next.raDeltat == v.loop.raDeltat + seconds)
  {
    hide MatrixStep, BeforeAttempt, Step, TickVelocity, AddedTime, MovesAsFlown, Prepared, AttemptWith;
    OffsetMatchesTickIff(m, v, tick);
    OffsetKept(m, v, tick, gains);
    StepFields(m, v, tick, gains);
    KnownStays(m, v, tick);
  }

  lemma KnownStays(m: Libm, v: Vehicle, tick: Tick)
    requires v.loop.position.havePosition
    ensures BeforeAttempt(m, v, tick).position.havePosition
  {
    hide MatrixStep, WindUpdated, Accumulated, AddedTime, OfferedVelocity;
  }

  /** 1 + 2 + ... + n. */
  function Triangle(n: nat): nat {
    if n == 0 then 0 else Triangle(n - 1) + n
  }

  lemma {:induction false} TriangleTwice(n: nat)
    ensures 2 * Triangle(n) == n * (n + 1)
  {
    if n == 0 {
    } else {
      TriangleTwice(n - 1);
    }
  }

  /** The wait for a correction overcounts. While `n` ticks without GPS at one velocity wait for the
      fifth of a second a correction needs, each adding `seconds`, the offset moves by that velocity
      over 1 + 2 + ... + n times those seconds, where n times were flown. */
  lemma {:induction false} WaitOvercounts(m: Libm, v: Vehicle, ticks: seq<Tick>, gains: Gains, u: Vec, seconds: real,
                                          n: nat)
    requires n <= |ticks| && v.loop.raDeltat == 0.0 && v.loop.position.havePosition && seconds > 0.0
    requires forall i :: 0 <= i < n ==> Coasts(m, VehicleAt(m, v, ticks, gains, i), ticks[i], u, seconds)
    requires n > 0 ==> Mul((n - 1) as real, seconds) < DRIFT_CORRECTION_INTERVAL_S
    ensures var end := VehicleAt(m, v, ticks, gains, n).loop;
      && end.position.havePosition
      && MovesAsFlown(v.loop.position, end.position, u, Mul(Triangle(n) as real, seconds))
      && (Mul(n as real, seconds) < DRIFT_CORRECTION_INTERVAL_S ==> end.raDeltat == Mul(n as real, seconds))
  {
    hide Step, Coasts, Mul;
    ZeroTimesAny(seconds);
    if n == 0 {
      MulZero(u.x);
      MulZero(u.y);
    } else {
      Fewer(n - 1, seconds);
      WaitOvercounts(m, v, ticks, gains, u, seconds, n - 1);
      var here := VehicleAt(m, v, ticks, gains, n - 1);
      var pending := Mul((n - 1) as real, seconds);
      MulNonNegative((n - 1) as real, seconds);
      CoastingTick(m, here, ticks[n - 1], gains, u, seconds);
      PendingAfter(m, here, ticks[n - 1], u, seconds);
      Counts(n, seconds);
      Moves(u.x, Mul(Triangle(n - 1) as real, seconds), pending + seconds);
      Moves(u.y, Mul(Triangle(n - 1) as real, seconds), pending + seconds);
    }
  }

  lemma Fewer(n: nat, seconds: real)
    requires seconds > 0.0
    ensures n > 0 ==> Mul((n - 1) as real, seconds) < Mul(n as real, seconds)
  {
  }

  lemma PendingAfter(m: Libm, v: Vehicle, tick: Tick, u: Vec, seconds: real)
    requires Coasts(m, v, tick, u, seconds) && v.loop.raDeltat + seconds > 0.0
    ensures IntegratedSeconds(v.loop, tick) == v.loop.raDeltat + seconds
  {
    hide AddedTime, TickVelocity;
  }

  lemma Counts(n: nat, seconds: real)
    requires n > 0
    ensures Mul((n - 1) as real, seconds) + seconds == Mul(n as real, seconds)
    ensures Mul(Triangle(n - 1) as real, seconds) + Mul(n as real, seconds) == Mul(Triangle(n) as real, seconds)
  {
    assert Triangle(n) as real == Triangle(n - 1) as real + n as real;
  }

  lemma Moves(x: real, p: real, q: real)
    ensures Mul(x, p) + Mul(x, q) == Mul(x, p + q)
  {
  }

  // ---- such ticks are reachable -----------------------------------------

  /** A level vehicle flying north at ten metres a second, its accelerometer at rest in flight. */
  function CruiseTick(gps: bool): Tick {
    var level := AccelReading(true, Some((Vec(0.0, 0.0, -GRAVITY_MSS), 0.1)));
    Tick.Tick(InsReading(None, ZERO, ZERO, [level, NO_ACCEL, NO_ACCEL], 1, 0, true), 0.1, None,
              DriftMotionInputs(0, if gps then Some(Vec(10.0, 0.0, 0.0)) else None, gps, gps, true,
                                10.0, 1.0, false, true, None, None))
  }

  /** A fix, then GPS is lost. */
  const OUTAGE: seq<Tick> := [CruiseTick(true), CruiseTick(false), CruiseTick(false)]

  lemma CruiseFix(m: Libm, gains: Gains)
    requires m.Lawful()
    ensures var v := Step(m, NEW_VEHICLE, OUTAGE[0], gains).vehicle;
      && v.dcm.matrix == IDENTITY && v.loop.raDeltat == 0.0 && v.loop.wind.wind == ZERO
      && v.loop.position.havePosition && v.loop.position.offsetNorth == 0.0 && v.loop.position.offsetEast == 0.0
  {
    hide Libm.Lawful, MatrixStep, Accumulated, AddedTime, Attempted, RaScale, Vec.Times, Mat.Mul;
    LevelStays(m, NEW_VEHICLE, OUTAGE[0], gains);
  }

  lemma CruiseAdds()
    ensures AddedTime(CruiseTick(false).ins, 0.1) == 0.1
  {
    assert Contributors(CruiseTick(false).ins, 1) == 1;
  }

  /** Away from GPS, a level vehicle goes on resolving the same velocity. */
  lemma CruiseCoasts(m: Libm, v: Vehicle, gains: Gains)
    requires m.Lawful() && v.dcm.matrix == IDENTITY && v.loop.wind.wind == ZERO
    ensures Coasts(m, v, CruiseTick(false), Vec(10.0, 0.0, 0.0), 0.1)
    ensures var next := Step(m, v, CruiseTick(false), gains).vehicle;
      next.dcm.matrix == IDENTITY && next.loop.wind.wind == ZERO
  {
    hide Libm.Lawful, MatrixStep, AddedTime, BeforeAttempt, Step, Vec.Times;
    LevelStays(m, v, CruiseTick(false), gains);
    WindStays(m, v, CruiseTick(false), gains);
    CruiseVelocity();
    CruiseAdds();
  }

  lemma CruiseVelocity()
    ensures GroundVelocityNoGps(ZERO, IDENTITY.ColX(), 10.0) == Vec(10.0, 0.0, 0.0)
  {
  }

  /** The wind changes on a new fix only. */
  lemma WindStays(m: Libm, v: Vehicle, tick: Tick, gains: Gains)
    requires !tick.motion.newGpsFix
    ensures BeforeAttempt(m, v, tick).wind == v.loop.wind && Step(m, v, tick, gains).vehicle.loop.wind == v.loop.wind
  {
    hide MatrixStep, Accumulated, AddedTime, Positioned, OfferedVelocity, Correction, Selected, CorrectionInputs,
      Yaw.YawCorrection, YawInputs;
  }

  /** From a newly built estimator: a fix, then two ticks of a tenth of a second without GPS. The
      vehicle flies two metres; the offset says three, and the last tick alone counts two of them. */
  lemma OutageRun(m: Libm, gains: Gains)
    requires m.Lawful()
    ensures var (v1, v2, v3) := (VehicleAt(m, NEW_VEHICLE, OUTAGE, gains, 1),
                                 VehicleAt(m, NEW_VEHICLE, OUTAGE, gains, 2),
                                 VehicleAt(m, NEW_VEHICLE, OUTAGE, gains, 3));
      && TickVelocity(m, v1, OUTAGE[1]) == TickVelocity(m, v2, OUTAGE[2]) == Some(Vec(10.0, 0.0, 0.0))
      && v1.loop.position.offsetNorth == 0.0 && v2.loop.position.offsetNorth == 1.0
      && v3.loop.position.offsetNorth == 3.0
      && !MovesAsFlown(v2.loop.position, v3.loop.position, Vec(10.0, 0.0, 0.0), OUTAGE[2].loopDt)
  {
    hide Libm.Lawful, Step, TickVelocity, AddedTime, VehicleAt;
    NextVehicle(m, NEW_VEHICLE, OUTAGE, gains, 0);
    NextVehicle(m, NEW_VEHICLE, OUTAGE, gains, 1);
    NextVehicle(m, NEW_VEHICLE, OUTAGE, gains, 2);
    var v1 := VehicleAt(m, NEW_VEHICLE, OUTAGE, gains, 1);
    var v2 := VehicleAt(m, NEW_VEHICLE, OUTAGE, gains, 2);
    CruiseFix(m, gains);
    CruiseCoasts(m, v1, gains);
    CruiseCoasts(m, v2, gains);
    CoastingTick(m, v1, OUTAGE[1], gains, Vec(10.0, 0.0, 0.0), 0.1);
    CoastingTick(m, v2, OUTAGE[2], gains, Vec(10.0, 0.0, 0.0), 0.1);
    PendingAfter(m, v1, OUTAGE[1], Vec(10.0, 0.0, 0.0), 0.1);
    PendingAfter(m, v2, OUTAGE[2], Vec(10.0, 0.0, 0.0), 0.1);
  }
}
