/** How the corrections reach the attitude: the rotation of the next tick. */
module Rates {
  import opened Vectors
  import opened MathLibrary
  import opened Wrappers
  import opened DcmMatrix
  import opened DcmLoop
  import opened Drift
  import opened DriftLoop
  import opened LoopRuns
  import opened SelectionRuns
  import opened BodyFrame
  import opened Alignment
  import opened ResetRuns
  import opened YawDrift
  import Heading

  // ---- one update -------------------------------------------------------

  /** A sample measured at `rate` less a bias, with that bias in the integral: the bias cancels, and the
      attitude turns at the true rate plus both pulls. */
  lemma BiasCancelled(s: DcmState, rate: Vec, bias: Vec, dt: real, gyro: Vec, omegaP: Vec, omegaYawP: Vec)
    requires dt > 0.0
    ensures Update(s, Some((rate.Minus(bias).Times(dt), dt)), gyro, bias, omegaP, omegaYawP).matrix
         == s.matrix.Rotate(rate.Plus(omegaP).Plus(omegaYawP).Times(dt))
  {
    hide Mat.Rotate, Vec.Times;
    MeasuredRate(rate.Minus(bias), dt);
    assert rate.Minus(bias).Plus(bias) == rate;
  }

  lemma MeasuredRate(rate: Vec, dt: real)
    requires dt > 0.0
    ensures rate.Times(dt).Over(dt) == rate
  {
    ThereAndOver(rate.x, dt);
    ThereAndOver(rate.y, dt);
    ThereAndOver(rate.z, dt);
  }

  lemma ThereAndOver(x: real, dt: real)
    requires dt > 0.0
    ensures x * dt / dt == x
  {
  }

  /** The published rate is the true one when the gyros read it less the bias: it leaves the pulls out. */
  lemma PublishedRate(s: DcmState, deltaAngle: Option<(Vec, real)>, rate: Vec, bias: Vec, omegaP: Vec, omegaYawP: Vec)
    ensures Update(s, deltaAngle, rate.Minus(bias), bias, omegaP, omegaYawP).omega == rate
  {
    hide Mat.Rotate, RotationVector;
  }

  /** While the gyros measure the opposite of all other corrections, the attitude turns by one alone. */
  lemma PullAlone(s: DcmState, bias: Vec, omegaP: Vec, omegaYawP: Vec, dt: real, gyro: Vec)
    requires dt > 0.0
    ensures Update(s, Some((ZERO.Minus(bias).Minus(omegaYawP).Times(dt), dt)), gyro, bias, omegaP, omegaYawP).matrix
         == s.matrix.Rotate(omegaP.Times(dt))
    ensures Update(s, Some((ZERO.Minus(bias).Minus(omegaP).Times(dt), dt)), gyro, bias, omegaP, omegaYawP).matrix
         == s.matrix.Rotate(omegaYawP.Times(dt))
  {
    hide Mat.Rotate, Vec.Times;
    MeasuredRate(ZERO.Minus(bias).Minus(omegaYawP), dt);
    MeasuredRate(ZERO.Minus(bias).Minus(omegaP), dt);
    assert ZERO.Minus(bias).Minus(omegaYawP).Plus(bias).Plus(omegaP).Plus(omegaYawP) == omegaP;
    assert ZERO.Minus(bias).Minus(omegaP).Plus(bias).Plus(omegaP).Plus(omegaYawP) == omegaYawP;
  }

  /** Without a sample, or with one over no time, the attitude does not turn. */
  lemma NoSampleNoTurn(s: DcmState, deltaAngle: Option<(Vec, real)>, gyro: Vec, omegaI: Vec, omegaP: Vec,
                       omegaYawP: Vec)
    requires deltaAngle.Some? ==> deltaAngle.value.1 <= 0.0
    ensures Update(s, deltaAngle, gyro, omegaI, omegaP, omegaYawP).matrix == s.matrix
  {
  }

  // ---- from one tick to the next ----------------------------------------

  /** The attitude the next tick's update makes, before it is normalised. */
  function NextAttitude(v: Vehicle, tick: Tick): Mat {
    var drift := DriftOmega(v.loop);
    Update(v.dcm, tick.ins.deltaAngle, tick.ins.gyro, drift.omegaI, drift.omegaP, drift.omegaYawP).matrix
  }

  /** A tick whose gyros measure over `dt` the opposite of every correction but the roll and pitch pull,
      so that nothing but that pull turns the attitude; in particular a tick that measures no turn while
      there is no bias and no yaw pull. */
  predicate OnlyPullTurns(v: Vehicle, tick: Tick, dt: real) {
    && dt > 0.0
    && tick.ins.deltaAngle
       == Some((ZERO.Minus(v.loop.corrector.omegaI).Minus(v.loop.yaw.omegaYawP).Times(dt), dt))
  }

  predicate OnlyYawPullTurns(v: Vehicle, tick: Tick, dt: real) {
    && dt > 0.0
    && tick.ins.deltaAngle
       == Some((ZERO.Minus(v.loop.corrector.omegaI).Minus(v.loop.corrector.omegaP).Times(dt), dt))
  }

  lemma StillTick(v: Vehicle, tick: Tick, dt: real)
    requires dt > 0.0 && tick.ins.deltaAngle == Some((ZERO, dt)) && v.loop.corrector.omegaI == ZERO
    ensures v.loop.yaw.omegaYawP == ZERO ==> OnlyPullTurns(v, tick, dt)
    ensures v.loop.corrector.omegaP == ZERO ==> OnlyYawPullTurns(v, tick, dt)
  {
  }

  /** The correction arrives: after a healthy tick that corrects on a selected accelerometer and keeps
      its attitude, a next tick on which nothing but the pull turns carries the scored direction toward
      the reference. */
  lemma CorrectionArrives(m: Libm, v: Vehicle, tick: Tick, gains: Gains, next: Tick, dt: real)
    requires m.Lawful() && NormalRows(MatrixStep(m, v.dcm, tick.ins, DriftOmega(v.loop)).0.matrix)
    requires tick.ins.gyroHealthy && tick.ins.AccelHealthy() && !AsksForReset(m, v, tick, gains)
    requires TickSelection(m, v, tick, gains).Some? && Step(m, v, tick, gains).outcome == Drift.Corrected
    requires OnlyPullTurns(Step(m, v, tick, gains).vehicle, next, dt)
    ensures var dcm := MatrixStep(m, v.dcm, tick.ins, DriftOmega(v.loop)).0;
      var s := BeforeAttempt(m, v, tick);
      var velocity := OfferedVelocity(s.wind, dcm.matrix, tick.motion);
      && s.raDeltat > 0.0
      && var b := ScoredDirection(m, s, tick.ins, tick.motion, velocity, gains.drift);
      && var e := GravityReference(m, VelocityDelta(s, tick.motion, velocity),
                                   Mul(gains.drift.gpsGain, RaScale(s.raDeltat)));
      && b.Some? && e.Some?
      && CarriedToward(m, dcm.matrix, NextAttitude(Step(m, v, tick, gains).vehicle, next), b.value, e.value,
                       PullGain(m, dcm.omega, gains.drift), dt)
  {
    hide Libm.Lawful, NormalRows, MatrixStep, BeforeAttempt, Step, Attempted, Selected, OfferedVelocity,
      ScoredDirection, GravityReference, VelocityDelta, CarriedToward, PullGain, RaScale, Mul, Vec.LengthSquared,
      Update, Mat.Rotate, Vec.Times, AsksForReset;
    var dcm := MatrixStep(m, v.dcm, tick.ins, DriftOmega(v.loop)).0;
    var s := BeforeAttempt(m, v, tick);
    var velocity := OfferedVelocity(s.wind, dcm.matrix, tick.motion);
    var after := Step(m, v, tick, gains).vehicle;
    StepFields(m, v, tick, gains);
    DuplicateCallsHarmless(m, v, tick, gains);
    TickPull(m, v, tick, gains);
    NoResetKeepsMatrix(m, v, tick, gains);
    AttemptTurnsToward(m, s, dcm, tick.ins, tick.motion, velocity, gains.drift, dt);
    PullAlone(after.dcm, after.loop.corrector.omegaI, after.loop.corrector.omegaP, after.loop.yaw.omegaYawP, dt,
              next.ins.gyro);
  }

  /** What the yaw cycle of a tick is given. */
  function TickYawInputs(m: Libm, v: Vehicle, tick: Tick, gains: Gains): YawDriftInputs
    requires tick.yaw.Some?
  {
    var dcm := MatrixStep(m, v.dcm, tick.ins, DriftOmega(v.loop)).0;
    var s := Attempt(m, BeforeAttempt(m, v, tick), dcm, tick.ins, tick.motion, gains.drift).0;
    YawInputs(m, s, dcm, tick.yaw.value, HorizontalAcceleration(m, dcm.matrix, tick.ins.accel))
  }

  /** A tick with a yaw sample keeps its yaw cycle, adds its share to the integral, and judges the heading
      by its own attitude and wind. */
  lemma TickYawKept(m: Libm, v: Vehicle, tick: Tick, gains: Gains)
    requires tick.yaw.Some?
    ensures var dcm := MatrixStep(m, v.dcm, tick.ins, DriftOmega(v.loop)).0;
      var s := Attempt(m, BeforeAttempt(m, v, tick), dcm, tick.ins, tick.motion, gains.drift).0;
      var inp := TickYawInputs(m, v, tick, gains);
      var after := Step(m, v, tick, gains).vehicle.loop;
      && TickYaw(m, v, tick, gains) == YawCorrection(m, v.loop.yaw, inp, gains.yaw)
      && after.yaw == TickYaw(m, v, tick, gains).0
      && after.corrector.omegaISum == Vec(s.corrector.omegaISum.x, s.corrector.omegaISum.y,
                                          s.corrector.omegaISum.z + TickYaw(m, v, tick, gains).1.omegaIZ)
      && inp.dcmMatrix == dcm.matrix && inp.ctx.estimatedYawRad == m.ToEuler(dcm.matrix).2
  {
    hide MatrixStep, BeforeAttempt, Attempt, YawCorrection, HorizontalAcceleration, Libm.ToEuler;
    StepFields(m, v, tick, gains);
  }

  /** The yaw cycle judges how hard the vehicle accelerates by the horizontal part of the acceleration its
      own attitude shows, and the wind by the horizontal part of the estimate. */
  lemma TickYawSees(m: Libm, v: Vehicle, tick: Tick, gains: Gains)
    requires m.Lawful() && tick.yaw.Some?
    ensures var inp := TickYawInputs(m, v, tick, gains);
      var felt := inp.dcmMatrix.Mul(tick.ins.accel);
      var wind := Step(m, v, tick, gains).vehicle.loop.wind.wind;
      && 0.0 <= inp.accelEfXyMag && Square(inp.accelEfXyMag) == Square(felt.x) + Square(felt.y)
      && 0.0 <= inp.ctx.windSpeedXy && Square(inp.ctx.windSpeedXy) == Square(wind.x) + Square(wind.y)
  {
    hide MatrixStep, BeforeAttempt, Attempt, YawCorrection, Libm.ToEuler, Libm.LengthXy, Libm.Lawful, Mat.Mul, Square;
    var dcm := MatrixStep(m, v.dcm, tick.ins, DriftOmega(v.loop)).0;
    var s := Attempt(m, BeforeAttempt(m, v, tick), dcm, tick.ins, tick.motion, gains.drift).0;
    Heading.LengthXySpec(m, dcm.matrix.Mul(tick.ins.accel));
    Heading.LengthXySpec(m, s.wind.wind);
  }

  /** The yaw pull arrives: on a next tick on which nothing else turns, the attitude turns by it. */
  lemma YawPullArrives(m: Libm, v: Vehicle, tick: Tick, gains: Gains, next: Tick, dt: real)
    requires tick.yaw.Some? && !AsksForReset(m, v, tick, gains)
    requires OnlyYawPullTurns(Step(m, v, tick, gains).vehicle, next, dt)
    ensures NextAttitude(Step(m, v, tick, gains).vehicle, next)
         == TickYawInputs(m, v, tick, gains).dcmMatrix.Rotate(
              YawCorrection(m, v.loop.yaw, TickYawInputs(m, v, tick, gains), gains.yaw).0.omegaYawP.Times(dt))
  {
    hide MatrixStep, Step, YawCorrection, TickYawInputs, Update, Mat.Rotate, Vec.Times, AsksForReset, TickYaw;
    var after := Step(m, v, tick, gains).vehicle;
    TickYawKept(m, v, tick, gains);
    NoResetKeepsMatrix(m, v, tick, gains);
    PullAlone(after.dcm, after.loop.corrector.omegaI, after.loop.corrector.omegaP, after.loop.yaw.omegaYawP, dt,
              next.ins.gyro);
  }

  /** So after a compass cycle the next tick carries the field toward north, and after a GPS cycle the nose
      toward the heading, on the conditions of `Heading`. */
  lemma YawCorrectionArrives(m: Libm, v: Vehicle, tick: Tick, gains: Gains, next: Tick, dt: real)
    requires m.Angular() && tick.yaw.Some? && !AsksForReset(m, v, tick, gains)
    requires OnlyYawPullTurns(Step(m, v, tick, gains).vehicle, next, dt)
    requires NormalRows(TickYawInputs(m, v, tick, gains).dcmMatrix) && !Calibrating(TickYawInputs(m, v, tick, gains))
    ensures var inp := TickYawInputs(m, v, tick, gains);
      var reference := Reference(m, v.loop.yaw, inp);
      var (now, then_) := (inp.dcmMatrix, NextAttitude(Step(m, v, tick, gains).vehicle, next));
      && (reference.ByCompass? ==>
            var (mag, north) := (inp.compass.value.magBody, inp.compass.value.declinationRad);
            Heading.FieldUsable(now.Mul(mag)) && Heading.BesideBoth(m, now.Mul(mag), then_.Mul(mag), north) ==>
              (Heading.CloserTo(m, now.Mul(mag), then_.Mul(mag), north)
               <==> Mul(now.c.z, Heading.SwingRate(now, mag)) > 0.0))
      && (reference.ByGps? ==>
            var (nose, course) := (Vec(1.0, 0.0, 0.0), Radians(GpsHeading(inp.gps.value)));
            Heading.BesideBoth(m, now.Mul(nose), then_.Mul(nose), course) ==>
              (Heading.CloserTo(m, now.Mul(nose), then_.Mul(nose), course) <==> now.c.z != 0.0))
  {
    hide MatrixStep, Step, YawCorrection, TickYawInputs, NextAttitude, Mat.Rotate, Mat.Mul, Vec.Times, AsksForReset,
      Libm.Angular, NormalRows, Heading.FieldUsable, Heading.BesideBoth, Heading.CloserTo, Heading.SwingRate,
      Reference, Radians, Mul, OnlyYawPullTurns, Calibrating;
    var inp := TickYawInputs(m, v, tick, gains);
    var reference := Reference(m, v.loop.yaw, inp);
    YawPullArrives(m, v, tick, gains, next, dt);
    TickYawKept(m, v, tick, gains);
    PositiveTime(v, tick, gains, m, next, dt);
    Heading.AngularIsLawful(m, 0.0);
    if reference.ByCompass? {
      var (mag, north) := (inp.compass.value.magBody, inp.compass.value.declinationRad);
      if Heading.FieldUsable(inp.dcmMatrix.Mul(mag))
         && Heading.BesideBoth(m, inp.dcmMatrix.Mul(mag),
                               NextAttitude(Step(m, v, tick, gains).vehicle, next).Mul(mag), north) {
        Heading.CompassTurnsTowardIff(m, v.loop.yaw, inp, gains.yaw, dt);
      }
    } else if reference.ByGps? {
      NoHardReset(m, v, tick, gains);
      var course := Radians(GpsHeading(inp.gps.value));
      if Heading.BesideBoth(m, inp.dcmMatrix.Mul(Vec(1.0, 0.0, 0.0)),
                            NextAttitude(Step(m, v, tick, gains).vehicle, next).Mul(Vec(1.0, 0.0, 0.0)), course) {
        Heading.GpsTurnsTowardIff(m, v.loop.yaw, inp, gains.yaw, dt);
      }
    }
  }

  lemma PositiveTime(v: Vehicle, tick: Tick, gains: Gains, m: Libm, next: Tick, dt: real)
    requires OnlyYawPullTurns(Step(m, v, tick, gains).vehicle, next, dt)
    ensures dt > 0.0
  {
    hide Step;
  }

  lemma NoHardReset(m: Libm, v: Vehicle, tick: Tick, gains: Gains)
    requires tick.yaw.Some? && !AsksForReset(m, v, tick, gains) && !Calibrating(TickYawInputs(m, v, tick, gains))
    ensures var reference := Reference(m, v.loop.yaw, TickYawInputs(m, v, tick, gains));
      reference.ByGps? ==> !reference.hardReset
  {
    hide MatrixStep, Step, TickYawInputs, Reference, CompassVerdict, YawPull, YawIntegral, Mul, Vec.Times, TickYaw;
    TickYawKept(m, v, tick, gains);
  }
}
