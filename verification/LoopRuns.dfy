/** Runs of whole ticks: harmless duplicate calls, and time that is consumed exactly once. */
module LoopRuns {
  import opened Vectors
  import opened MathLibrary
  import opened Wrappers
  import opened DcmMatrix
  import opened Attitude
  import opened DcmLoop
  import opened Drift
  import opened WindEstimation
  import opened DriftLoop
  import opened DeadReckoning

  // ---- the calls made twice per tick ------------------------------------

  /** A second wind estimate at the same instant finds the gate closed. */
  lemma EstimateIdempotent(m: Libm, s: WindState, inp: WindEstimateInputs)
    ensures Estimated(m, Estimated(m, s, inp).0, inp).0 == Estimated(m, s, inp).0
  {
    hide TurningSample, StraightSample, Blend, Libm.Length;
  }

  lemma PreparedIdempotent(m: Libm, s: LoopState, matrix: Mat, motion: DriftMotionInputs)
    ensures Prepared(m, Prepared(m, s, matrix, motion), matrix, motion) == Prepared(m, s, matrix, motion)
  {
    hide Estimated, WindInputs;
    if motion.newGpsFix && motion.gpsVelocity.Some? {
      EstimateIdempotent(m, s.wind, WindInputs(matrix, motion));
    }
  }

  /** The tick updates wind and velocity, and `try_correct` does so again; the tick is the same
      as one in which it reuses the first results. */
  lemma DuplicateCallsHarmless(m: Libm, v: Vehicle, tick: Tick, gains: Gains)
    ensures var dcm := MatrixStep(m, v.dcm, tick.ins, DriftOmega(v.loop)).0;
      var before := BeforeAttempt(m, v, tick);
      Attempt(m, before, dcm, tick.ins, tick.motion, gains.drift)
      == AttemptWith(m, before, dcm, tick.ins, tick.motion, OfferedVelocity(before.wind, dcm.matrix, tick.motion),
                     gains.drift)
  {
    hide MatrixStep, Prepared, Attempted, Accumulated, AddedTime, OfferedVelocity, Positioned;
    var dcm := MatrixStep(m, v.dcm, tick.ins, DriftOmega(v.loop)).0;
    var accumulated := v.loop.(raSum := Accumulated(v.loop.raSum, dcm.matrix, tick.ins, tick.loopDt),
                               raDeltat := v.loop.raDeltat + AddedTime(tick.ins, tick.loopDt));
    var prepared := Prepared(m, accumulated, dcm.matrix, tick.motion);
    PreparedIdempotent(m, accumulated, dcm.matrix, tick.motion);
    PreparedIgnoresPosition(m, prepared, BeforeAttempt(m, v, tick).position, dcm.matrix, tick.motion);
  }

  lemma PreparedIgnoresPosition(m: Libm, s: LoopState, p: Position, matrix: Mat, motion: DriftMotionInputs)
    ensures Prepared(m, s.(position := p), matrix, motion) == Prepared(m, s, matrix, motion).(position := p)
  {
    hide WindUpdated;
  }

  /** On the tick that regains GPS lock the velocity change is zero or absent: no step in
      velocity reference is mistaken for an acceleration. */
  lemma RegainedLockSeesNoChange(m: Libm, v: Vehicle, tick: Tick)
    requires !v.loop.haveGpsLock && BeforeAttempt(m, v, tick).haveGpsLock
    ensures var dcm := MatrixStep(m, v.dcm, tick.ins, DriftOmega(v.loop)).0;
      var before := BeforeAttempt(m, v, tick);
      var delta := VelocityDelta(before, tick.motion, OfferedVelocity(before.wind, dcm.matrix, tick.motion));
      delta == None || delta == Some(ZERO)
  {
    hide MatrixStep, WindUpdated, Accumulated, AddedTime;
  }

  /** When a velocity is offered and when its change is used. That a lock or forward flight is asked for
      again before using it is no restriction: a tick that offers a velocity has one of them. */
  lemma VelocityRules(m: Libm, v: Vehicle, tick: Tick)
    ensures var (s, motion) := (BeforeAttempt(m, v, tick), tick.motion);
      var dcm := MatrixStep(m, v.dcm, tick.ins, DriftOmega(v.loop)).0;
      var velocity := OfferedVelocity(s.wind, dcm.matrix, motion);
      && (velocity.Some? <==> if motion.haveGps then motion.newGpsFix && motion.gpsVelocity.Some?
                              else motion.flyForward && motion.airspeedTas > 0.0)
      && (velocity.Some? ==> s.haveGpsLock || motion.flyForward)
      && (VelocityDelta(s, motion, velocity).Some? <==> motion.correctCentrifugal && velocity.Some?)
  {
    hide MatrixStep, WindUpdated, Accumulated, AddedTime;
  }

  /** A change of velocity is used only with a lock or in forward flight. */
  lemma ChangeUsedIff(s: LoopState, motion: DriftMotionInputs, velocity: Vec)
    ensures VelocityDelta(s, motion, Some(velocity)) != None
      <==> motion.correctCentrifugal && (s.haveGpsLock || motion.flyForward)
    ensures VelocityDelta(s, motion, Some(velocity)).Some? ==>
      s.lastVelocity.Plus(VelocityDelta(s, motion, Some(velocity)).value) == velocity
  {
  }

  // ---- runs -------------------------------------------------------------

  /** The vehicle as tick `i` of a run finds it. */
  function VehicleAt(m: Libm, v: Vehicle, ticks: seq<Tick>, gains: Gains, i: nat): Vehicle
    requires i <= |ticks|
  {
    if i == 0 then v else Step(m, VehicleAt(m, v, ticks, gains, i - 1), ticks[i - 1], gains).vehicle
  }

  /** A newly built estimator. */
  const NEW_VEHICLE := Vehicle(DcmState(IDENTITY, ZERO, Finite(0.0), 0), FRESH_LOOP)

  lemma NextVehicle(m: Libm, v: Vehicle, ticks: seq<Tick>, gains: Gains, i: nat)
    requires i < |ticks|
    ensures VehicleAt(m, v, ticks, gains, 0) == v
    ensures VehicleAt(m, v, ticks, gains, i + 1) == Step(m, VehicleAt(m, v, ticks, gains, i), ticks[i], gains).vehicle
  {
    hide Step;
  }

  lemma StepWithoutYaw(m: Libm, v: Vehicle, tick: Tick, gains: Gains)
    requires tick.yaw == None
    ensures var dcm := MatrixStep(m, v.dcm, tick.ins, DriftOmega(v.loop)).0;
      Step(m, v, tick, gains).vehicle
      == Vehicle(dcm, Attempt(m, BeforeAttempt(m, v, tick), dcm, tick.ins, tick.motion, gains.drift).0)
  {
    hide MatrixStep, BeforeAttempt, Attempt;
  }

  lemma LevelStays(m: Libm, v: Vehicle, tick: Tick, gains: Gains)
    requires m.Lawful() && v.dcm.matrix == IDENTITY && tick.ins.deltaAngle == None
    ensures MatrixStep(m, v.dcm, tick.ins, DriftOmega(v.loop)).0.matrix == IDENTITY
    ensures tick.yaw == None ==> Step(m, v, tick, gains).vehicle.dcm.matrix == IDENTITY
  {
    hide BeforeAttempt, Attempt, Libm.Lawful, Normalization, RightHanded;
    IdentityRotation();
    FixedPoints(m, Update(v.dcm, None, tick.ins.gyro, v.loop.corrector.omegaI, v.loop.corrector.omegaP,
                          v.loop.yaw.omegaYawP));
  }

  // ---- accumulated time -------------------------------------------------

  /** Whether the attempt throws its accumulation away for want of a first velocity. */
  predicate Discards(s: LoopState, motion: DriftMotionInputs) {
    !Waits(s, motion) && !s.velocityInitialized
  }

  /** What each way out of `try_correct` does to the accumulators: a correction and a discard
      empty them, every other exit leaves both alone. */
  lemma AttemptAccumulators(m: Libm, s: LoopState, dcm: DcmState, ins: InsReading, motion: DriftMotionInputs,
                            gains: DriftGains)
    ensures var (after, outcome) := Attempt(m, s, dcm, ins, motion, gains);
      && (if outcome == Corrected || Discards(s, motion) then after.raDeltat == 0.0 && after.raSum == CLEARED_SUMS
          else after.raDeltat == s.raDeltat && after.raSum == s.raSum)
      && (outcome == Corrected ==> s.velocityInitialized)
      && (s.velocityInitialized ==> after.velocityInitialized)
      && (after.velocityInitialized && !s.velocityInitialized ==>
            OfferedVelocity(WindUpdated(m, s.wind, dcm.matrix, motion), dcm.matrix, motion).Some?)
  {
    hide WindUpdated, OfferedVelocity, Correction, Selected, CorrectionInputs;
  }

  /** A vehicle with a ledger of seconds: added to the accumulator, spent in corrections, and
      thrown away before the first velocity. */
  datatype Flight = Flight(vehicle: Vehicle, added: real, corrected: real, discarded: real)

  function Fly(m: Libm, f: Flight, tick: Tick, gains: Gains): Flight {
    var before := BeforeAttempt(m, f.vehicle, tick);
    var result := Step(m, f.vehicle, tick, gains);
    Flight(result.vehicle,
           f.added + AddedTime(tick.ins, tick.loopDt),
           f.corrected + if result.outcome == Corrected then before.raDeltat else 0.0,
           f.discarded + if Discards(before, tick.motion) then before.raDeltat else 0.0)
  }

  function FlyAll(m: Libm, f: Flight, ticks: seq<Tick>, gains: Gains): Flight
    decreases |ticks|
  {
    if ticks == [] then f else FlyAll(m, Fly(m, f, ticks[0], gains), ticks[1..], gains)
  }

  /** Every second ever added is in exactly one of three places, and none has been spent before
      a velocity was known. */
  ghost predicate Accounted(f: Flight) {
    && f.added == f.corrected + f.discarded + f.vehicle.loop.raDeltat
    && (!f.vehicle.loop.velocityInitialized ==> f.corrected == 0.0)
  }

  lemma StepFields(m: Libm, v: Vehicle, tick: Tick, gains: Gains)
    ensures var dcm := MatrixStep(m, v.dcm, tick.ins, DriftOmega(v.loop)).0;
      var before := BeforeAttempt(m, v, tick);
      var (after, outcome) := Attempt(m, before, dcm, tick.ins, tick.motion, gains.drift);
      var result := Step(m, v, tick, gains);
      && result.outcome == outcome
      && before.raDeltat == v.loop.raDeltat + AddedTime(tick.ins, tick.loopDt)
      && before.velocityInitialized == v.loop.velocityInitialized
      && before.corrector == v.loop.corrector
      && before.lag == v.loop.lag
      && before.yaw == v.loop.yaw
      && result.vehicle.loop.raDeltat == after.raDeltat
      && result.vehicle.loop.velocityInitialized == after.velocityInitialized
      && result.vehicle.loop.lag == after.lag
      && result.vehicle.loop.raSum == after.raSum
      && after.yaw == before.yaw
  {
    hide MatrixStep, WindUpdated, Accumulated, AddedTime, Correction, Selected, CorrectionInputs, OfferedVelocity,
      Yaw.YawCorrection;
  }

  lemma FlyAccounted(m: Libm, f: Flight, tick: Tick, gains: Gains)
    requires Accounted(f)
    ensures Accounted(Fly(m, f, tick, gains))
    ensures f.vehicle.loop.velocityInitialized ==> Fly(m, f, tick, gains).discarded == f.discarded
  {
    hide MatrixStep, BeforeAttempt, AddedTime, Step, Attempt;
    StepFields(m, f.vehicle, tick, gains);
    var dcm := MatrixStep(m, f.vehicle.dcm, tick.ins, DriftOmega(f.vehicle.loop)).0;
    AttemptAccumulators(m, BeforeAttempt(m, f.vehicle, tick), dcm, tick.ins, tick.motion, gains.drift);
  }

  /** Accumulated time is consumed exactly once: after any run of ticks, the time added equals the
      time of the corrected cycles, plus the time discarded before the first velocity, plus what
      is still pending; and nothing was corrected before a velocity was known. */
  lemma {:induction false} TimeConsumedOnce(m: Libm, f: Flight, ticks: seq<Tick>, gains: Gains)
    requires Accounted(f)
    ensures Accounted(FlyAll(m, f, ticks, gains))
    ensures f.vehicle.loop.velocityInitialized ==> FlyAll(m, f, ticks, gains).discarded == f.discarded
    decreases |ticks|
  {
    hide Fly, Accounted;
    if ticks == [] {
    } else {
      FlyAccounted(m, f, ticks[0], gains);
      FlyKeepsInitialized(m, f, ticks[0], gains);
      TimeConsumedOnce(m, Fly(m, f, ticks[0], gains), ticks[1..], gains);
    }
  }

  lemma FlyKeepsInitialized(m: Libm, f: Flight, tick: Tick, gains: Gains)
    ensures f.vehicle.loop.velocityInitialized ==> Fly(m, f, tick, gains).vehicle.loop.velocityInitialized
  {
    hide MatrixStep, BeforeAttempt, AddedTime, Step, Attempt;
    StepFields(m, f.vehicle, tick, gains);
    var dcm := MatrixStep(m, f.vehicle.dcm, tick.ins, DriftOmega(f.vehicle.loop)).0;
    AttemptAccumulators(m, BeforeAttempt(m, f.vehicle, tick), dcm, tick.ins, tick.motion, gains.drift);
  }
}
