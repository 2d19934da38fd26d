/** What a correction rests on when no accelerometer is usable: the vector of an earlier cycle that
    the delay line still holds. */
module SensorLoss {
  import opened Vectors
  import opened MathLibrary
  import opened Wrappers
  import opened DcmMatrix
  import opened DcmLoop
  import opened MultiAccel
  import opened GpsLag
  import opened Drift
  import opened DriftLoop
  import opened LoopRuns
  import opened SelectionRuns

  // ---- what the line holds ----------------------------------------------

  predicate NoneUsable(ins: InsReading) {
    forall i :: 0 <= i < ins.AccelCount() ==> !ins.AccelUsable(i)
  }

  /** One scan with GPS: without a usable instance the line keeps its vector, and otherwise a
      non-zero vector in the line means that some instance could be scored. */
  lemma {:induction false} HeldIsScored(m: Libm, raSum: seq<Vec>, ins: InsReading, scale: real, buffer: Vec, gaE: Vec,
                                        n: nat)
    requires m.Lawful() && n <= ins.AccelCount() && n <= |raSum|
    ensures var (measured, held) := Measured(raSum, ins.AccelUsable, scale, true, buffer, n);
      && ((forall i :: 0 <= i < n ==> !ins.AccelUsable(i)) ==>
            held == buffer && forall i :: 0 <= i < n ==> measured[i] == None)
      && ((exists i :: 0 <= i < n && ins.AccelUsable(i)) && !IsZeroVec(held) ==>
            exists i :: 0 <= i < n && GravityError(m, measured[i], gaE).Some?)
  {
    hide Libm.Lawful, Libm.Normalized, IsZeroVec, Vec.Times, Vec.Cross;
    if n == 0 {
    } else {
      HeldIsScored(m, raSum, ins, scale, buffer, gaE, n - 1);
      var (seen, before) := Measured(raSum, ins.AccelUsable, scale, true, buffer, n - 1);
      var (measured, held) := Measured(raSum, ins.AccelUsable, scale, true, buffer, n);
      assert forall i :: 0 <= i < n - 1 ==> measured[i] == seen[i];
      if ins.AccelUsable(n - 1) {
        NonZeroNormalizes(m, Delayed(before, held));
        assert !IsZeroVec(held) ==> GravityError(m, measured[n - 1], gaE).Some?;
      }
    }
  }

  /** With GPS corrections on, nothing is selected while a non-zero vector ends up in the line
      exactly when no instance is usable and the line held that vector before. */
  lemma StaleIff(m: Libm, s: LoopState, ins: InsReading, motion: DriftMotionInputs, velocity: Option<Vec>,
                 gains: DriftGains)
    requires m.Lawful() && UsesLag(s, motion)
    ensures var (selection, held) := Selected(m, s, ins, motion, velocity, gains);
      && (NoneUsable(ins) ==> selection == None && held == s.lag)
      && (selection == None && !IsZeroVec(held) ==> NoneUsable(ins))
  {
    hide Libm.Lawful, IsZeroVec, GravityError, LoopReference, VelocityDelta, Mul;
    var scale := LoopScale(s.raDeltat);
    var gaE := LoopReference(m, VelocityDelta(s, motion, velocity), Mul(gains.gpsGain, scale));
    HeldIsScored(m, s.raSum, ins, scale, s.lag, gaE, ins.AccelCount());
    var measured := Measured(s.raSum, ins.AccelUsable, scale, true, s.lag, ins.AccelCount()).0;
    BestIsArgmin(m, measured, gaE, ins.AccelCount());
    Unscored(m, measured, gaE);
  }

  lemma Unscored(m: Libm, measured: seq<Option<Vec>>, gaE: Vec)
    ensures (forall i :: 0 <= i < |measured| ==> measured[i] == None)
        ==> forall i :: 0 <= i < |measured| ==> GravityError(m, measured[i], gaE) == None
  {
  }

  // ---- when a cycle corrects without a sensor ---------------------------

  /** It is not true that every correction rests on a usable accelerometer. An attempt selects none
      and still counts as corrected exactly when no counted instance is usable, time has
      accumulated, GPS is in use, the line holds a non-zero vector from an earlier cycle and the
      reference does not vanish. */
  lemma CorrectsWithoutSensorIff(m: Libm, s: LoopState, dcm: DcmState, ins: InsReading, motion: DriftMotionInputs,
                                 velocity: Option<Vec>, gains: DriftGains)
    requires m.Lawful()
    ensures Selected(m, s, ins, motion, velocity, gains).0 == None
            && Attempted(m, s, dcm, ins, motion, velocity, gains).1 == Corrected
      <==> NoneUsable(ins) && s.raDeltat > 0.0 && s.haveGpsLock && motion.haveGps && !IsZeroVec(s.lag)
           && GravityReference(m, VelocityDelta(s, motion, velocity), Mul(gains.gpsGain, RaScale(s.raDeltat))).Some?
  {
    hide Libm.Lawful, Libm.Normalized, Selected, VelocityDelta, GravityReference, Applied, RaScale, IsZeroVec,
      Vec.Cross, Vec.Dot, Vec.Times, Mul;
    var (selection, held) := Selected(m, s, ins, motion, velocity, gains);
    NonZeroNormalizes(m, held);
    if s.raDeltat > 0.0 {
      ZeroTimes(RaScale(s.raDeltat));
    }
    if UsesLag(s, motion) {
      StaleIff(m, s, ins, motion, velocity, gains);
    }
  }

  lemma ZeroTimes(k: real)
    ensures ZERO.Times(k) == ZERO && IsZeroVec(ZERO)
  {
  }

  /** The corrector after a cycle whose error was discarded: no pull, and only time for the batch. */
  function Starved(m: Libm, c: DriftState, omega: Vec, seconds: real, bestError: real, gains: DriftGains): DriftState {
    Flushed(c.(omegaP := ZERO, errorRp := 0.8 * c.errorRp + 0.2 * bestError,
               omegaISumTime := c.omegaISumTime + if Integrates(m, omega) then seconds else 0.0),
            gains.gyroDriftRate)
  }

  lemma UnhealthyApplied(m: Libm, c: DriftState, errorEf: Vec, bestError: real, inp: DriftInputs, gains: DriftGains)
    requires !inp.insHealthy
    ensures Applied(m, c, errorEf, bestError, inp, gains)
         == Starved(m, c, inp.omega, inp.raDeltat, bestError, gains)
  {
    hide Flushed, PGain, FlooredGain, Libm.Length;
    ZeroTimes(Mul(PGain(m.Length(inp.omega)), FlooredGain(gains.kp, RP_P_MIN)));
    ZeroTimes(8.0);
    ZeroTimes(Mul(KI, inp.raDeltat));
    assert c.omegaISum.Plus(ZERO) == c.omegaISum;
  }

  /** What such a cycle does. It counts as a success: the velocity is remembered, the accumulators
      are emptied. The line is empty afterwards, so it cannot happen twice on one vector. If the
      primary instance is one of those found unusable, the attitude is not pulled and nothing but
      time enters the batch: the stale vector reaches the filtered error only. */
  lemma SensorlessCycle(m: Libm, s: LoopState, dcm: DcmState, ins: InsReading, motion: DriftMotionInputs,
                        velocity: Option<Vec>, gains: DriftGains)
    requires m.Lawful()
    requires Selected(m, s, ins, motion, velocity, gains).0 == None
    requires Attempted(m, s, dcm, ins, motion, velocity, gains).1 == Corrected
    ensures var after := Attempted(m, s, dcm, ins, motion, velocity, gains).0;
      && after.raSum == CLEARED_SUMS && after.raDeltat == 0.0 && after.lag == ZERO
      && after.lastVelocity == (if velocity.Some? then velocity.value else s.lastVelocity)
      && after.activeAccelInstance == s.activeAccelInstance
      && s.raDeltat > 0.0
      && var stale := Direction(m, s.lag);
      && var reference := GravityReference(m, VelocityDelta(s, motion, velocity),
                                           Mul(gains.gpsGain, RaScale(s.raDeltat)));
      && stale.Some? && reference.Some?
      && (ins.primary < ins.AccelCount() ==>
            after.corrector == Starved(m, s.corrector, dcm.omega, s.raDeltat,
                                       ErrorMagnitude(m, stale.value, reference.value), gains))
  {
    hide Libm.Lawful, Libm.Normalized, Selected, VelocityDelta, GravityReference, RaScale, IsZeroVec, Applied,
      Starved, ErrorMagnitude, Vec.Cross, Vec.Dot, Vec.Times, Mul;
    CorrectsWithoutSensorIff(m, s, dcm, ins, motion, velocity, gains);
    StaleIff(m, s, ins, motion, velocity, gains);
    ZeroTimes(RaScale(s.raDeltat));
    NonZeroNormalizes(m, s.lag);
    if ins.primary < ins.AccelCount() {
      var inp := CorrectionInputs(s, dcm, ins, motion, velocity, None);
      var j := Judged(m, inp, gains, s.lag);
      UnhealthyApplied(m, s.corrector, j.errorEf, j.bestError, inp, gains);
    }
  }

  // ---- the same for a whole tick ----------------------------------------

  /** What a caller can see before a tick that will correct without a sensor: a new fix arrives on a
      working lock, no counted accelerometer is usable, seconds are pending, the line is not empty,
      and the fix does not cancel gravity. */
  predicate Starving(m: Libm, s: LoopState, tick: Tick, gains: DriftGains) {
    && tick.motion.haveGps && tick.motion.newGpsFix && (tick.motion.gpsVelocity.Some? || s.haveGpsLock)
    && s.velocityInitialized && s.raDeltat > 0.0 && !IsZeroVec(s.lag) && NoneUsable(tick.ins)
    && GravityReference(m, FixDelta(s, tick.motion), Mul(gains.gpsGain, RaScale(s.raDeltat))).Some?
  }

  /** The velocity change a new fix shows; zero on the fix that regains the lock. */
  function FixDelta(s: LoopState, motion: DriftMotionInputs): Option<Vec> {
    if !motion.correctCentrifugal || motion.gpsVelocity == None then None
    else Some(motion.gpsVelocity.value.Minus(if s.haveGpsLock then s.lastVelocity else motion.gpsVelocity.value))
  }

  lemma NoContributors(ins: InsReading, n: nat)
    requires n <= ins.AccelCount() && NoneUsable(ins)
    ensures Contributors(ins, n) == 0
  {
    if n == 0 {
    } else {
      NoContributors(ins, n - 1);
    }
  }

  lemma NothingAdded(ins: InsReading, loopDt: real)
    requires NoneUsable(ins)
    ensures AddedTime(ins, loopDt) == 0.0
  {
    NoContributors(ins, ins.AccelCount());
  }

  /** The state a tick with a new fix attempts its correction on. */
  lemma FixPrepares(m: Libm, v: Vehicle, tick: Tick)
    requires tick.motion.haveGps && tick.motion.newGpsFix
    ensures var s := BeforeAttempt(m, v, tick);
      var dcm := MatrixStep(m, v.dcm, tick.ins, DriftOmega(v.loop)).0;
      && s.haveGpsLock == (tick.motion.gpsVelocity.Some? || v.loop.haveGpsLock)
      && OfferedVelocity(s.wind, dcm.matrix, tick.motion) == tick.motion.gpsVelocity
      && (s.haveGpsLock ==> VelocityDelta(s, tick.motion, tick.motion.gpsVelocity) == FixDelta(v.loop, tick.motion))
      && s.raDeltat == v.loop.raDeltat + AddedTime(tick.ins, tick.loopDt)
      && s.lag == v.loop.lag && s.velocityInitialized == v.loop.velocityInitialized && s.corrector == v.loop.corrector
  {
    hide MatrixStep, WindUpdated, Accumulated, AddedTime, Positioned;
  }

  /** A tick selects no accelerometer and still corrects exactly when it is starving. */
  lemma TickCorrectsWithoutSensorIff(m: Libm, v: Vehicle, tick: Tick, gains: Gains)
    requires m.Lawful()
    ensures Step(m, v, tick, gains).outcome == Corrected && TickSelection(m, v, tick, gains) == None
      <==> Starving(m, v.loop, tick, gains.drift)
  {
    hide Libm.Lawful, Step, MatrixStep, BeforeAttempt, Attempted, OfferedVelocity, Selected, VelocityDelta, FixDelta,
      GravityReference, IsZeroVec, AddedTime, RaScale, Mul, NoneUsable;
    var dcm := MatrixStep(m, v.dcm, tick.ins, DriftOmega(v.loop)).0;
    var s := BeforeAttempt(m, v, tick);
    var velocity := OfferedVelocity(s.wind, dcm.matrix, tick.motion);
    StepFields(m, v, tick, gains);
    DuplicateCallsHarmless(m, v, tick, gains);
    CorrectsWithoutSensorIff(m, s, dcm, tick.ins, tick.motion, velocity, gains.drift);
    if NoneUsable(tick.ins) {
      NothingAdded(tick.ins, tick.loopDt);
    }
    if tick.motion.haveGps && tick.motion.newGpsFix {
      FixPrepares(m, v, tick);
    }
  }

  /** What a starving tick does, when no yaw sample comes with it and the primary is counted. */
  lemma StarvingTick(m: Libm, v: Vehicle, tick: Tick, gains: Gains)
    requires m.Lawful() && Starving(m, v.loop, tick, gains.drift)
    requires tick.yaw == None && tick.ins.primary < tick.ins.AccelCount()
    ensures var after := Step(m, v, tick, gains).vehicle.loop;
      var omega := MatrixStep(m, v.dcm, tick.ins, DriftOmega(v.loop)).0.omega;
      var stale := Direction(m, v.loop.lag);
      var reference := GravityReference(m, FixDelta(v.loop, tick.motion),
                                        Mul(gains.drift.gpsGain, RaScale(v.loop.raDeltat)));
      && after.raSum == CLEARED_SUMS && after.raDeltat == 0.0 && after.lag == ZERO
      && stale.Some?
      && after.corrector == Starved(m, v.loop.corrector, omega, v.loop.raDeltat,
                                    ErrorMagnitude(m, stale.value, reference.value), gains.drift)
  {
    hide Libm.Lawful, Step, MatrixStep, BeforeAttempt, Attempted, OfferedVelocity, Selected, VelocityDelta, FixDelta,
      GravityReference, IsZeroVec, AddedTime, RaScale, Mul, NoneUsable, Starved, Direction, ErrorMagnitude;
    var dcm := MatrixStep(m, v.dcm, tick.ins, DriftOmega(v.loop)).0;
    var s := BeforeAttempt(m, v, tick);
    StepWithoutYaw(m, v, tick, gains);
    DuplicateCallsHarmless(m, v, tick, gains);
    FixPrepares(m, v, tick);
    NothingAdded(tick.ins, tick.loopDt);
    CorrectsWithoutSensorIff(m, s, dcm, tick.ins, tick.motion, tick.motion.gpsVelocity, gains.drift);
    SensorlessCycle(m, s, dcm, tick.ins, tick.motion, tick.motion.gpsVelocity, gains.drift);
  }

  // ---- such ticks are reachable -----------------------------------------

  /** One registered accelerometer, which reads a unit of gravity along x while it works. */
  function LossReading(working: bool): InsReading {
    InsReading(None, ZERO, ZERO, [AccelReading(working, Some((Vec(GRAVITY_MSS, 0.0, 0.0), 1.0))), NO_ACCEL, NO_ACCEL],
               1, 0, true)
  }

  function LossTick(fix: bool, working: bool): Tick {
    Tick.Tick(LossReading(working), 1.0, None,
         DriftMotionInputs(0, Some(ZERO), fix, true, false, 0.0, 1.0, false, false, None, None))
  }

  /** A fix to initialise on, a fix to correct on, a wait, and a fix on which the accelerometer is lost. */
  const LOSS: seq<Tick> := [LossTick(true, true), LossTick(true, true), LossTick(false, true), LossTick(true, false)]

  /** The first fix only initialises. */
  lemma FirstFix(m: Libm, gains: Gains)
    requires m.Lawful()
    ensures var v := Step(m, NEW_VEHICLE, LOSS[0], gains).vehicle;
      && v.dcm.matrix == IDENTITY && v.loop.velocityInitialized && v.loop.raDeltat == 0.0
      && v.loop.raSum == CLEARED_SUMS
  {
    hide Libm.Lawful, MatrixStep, WindUpdated, Accumulated, AddedTime, Positioned, Attempted, RaScale;
    LevelStays(m, NEW_VEHICLE, LOSS[0], gains);
  }

  lemma WorkingReading(matrix: Mat)
    requires matrix == IDENTITY
    ensures OnlyUsable(LossReading(true), 0) && NoneUsable(LossReading(false))
    ensures AddedTime(LossReading(true), 1.0) == 1.0
    ensures Accumulated(CLEARED_SUMS, matrix, LossReading(true), 1.0)[0] == Vec(GRAVITY_MSS, 0.0, 0.0)
  {
    assert Contributors(LossReading(true), 1) == 1;
  }

  /** The second fix corrects, and fills the line with the unit vector along x. */
  lemma SecondFix(m: Libm, v: Vehicle, gains: Gains)
    requires m.Lawful() && v.dcm.matrix == IDENTITY && v.loop.velocityInitialized && v.loop.raDeltat == 0.0
    requires v.loop.raSum == CLEARED_SUMS
    ensures var next := Step(m, v, LOSS[1], gains).vehicle;
      && next.dcm.matrix == IDENTITY && next.loop.lag == Vec(1.0, 0.0, 0.0)
      && next.loop.velocityInitialized && next.loop.raDeltat >= 0.0
  {
    hide Libm.Lawful, MatrixStep, Step, Attempt, WindUpdated, Accumulated, AddedTime, Positioned, OfferedVelocity;
    LevelStays(m, v, LOSS[1], gains);
    WorkingReading(IDENTITY);
    StepFields(m, v, LOSS[1], gains);
    var dcm := MatrixStep(m, v.dcm, LOSS[1].ins, DriftOmega(v.loop)).0;
    AttemptAccumulators(m, BeforeAttempt(m, v, LOSS[1]), dcm, LOSS[1].ins, LOSS[1].motion, gains.drift);
    assert ScaledSum(m, v, LOSS[1], 0) == Vec(1.0, 0.0, 0.0);
    assert GpsCycle(m, v, LOSS[1], 0);
    GpsCycleDelay(m, v, LOSS[1], gains, 0);
  }

  lemma Waiting(m: Libm, v: Vehicle, gains: Gains)
    requires m.Lawful() && v.dcm.matrix == IDENTITY && v.loop.velocityInitialized && v.loop.raDeltat >= 0.0
    ensures var next := Step(m, v, LOSS[2], gains).vehicle;
      next.loop.lag == v.loop.lag && next.loop.velocityInitialized && next.loop.raDeltat > 0.0
  {
    hide Libm.Lawful, MatrixStep, Step, BeforeAttempt, AddedTime, Prepared, AttemptWith, OfferedVelocity, Vec.Times,
      Accumulated;
    WorkingReading(IDENTITY);
    QuietTick(m, v, LOSS[2], gains);
    StepFields(m, v, LOSS[2], gains);
  }

  /** The length of the error of a vector along x. */
  lemma SidewaysError(m: Libm)
    requires m.Lawful()
    ensures Direction(m, Vec(1.0, 0.0, 0.0)) == Some(Vec(1.0, 0.0, 0.0))
    ensures ErrorMagnitude(m, Vec(1.0, 0.0, 0.0), Vec(0.0, 0.0, -1.0)) == 1.0
  {
    hide Libm.Length, Libm.Lawful, Vec.Cross, Vec.Dot, Vec.LengthSquared, Vec.Over;
    UnitAxes();
    UnscaledAxis();
    SidewaysCross();
    SidewaysDot();
    LengthUnique(m, Vec(1.0, 0.0, 0.0), 1.0);
    LengthUnique(m, Vec(0.0, 1.0, 0.0), 1.0);
  }

  lemma UnitAxes()
    ensures Vec(1.0, 0.0, 0.0).LengthSquared() == 1.0 && Vec(0.0, 1.0, 0.0).LengthSquared() == 1.0
  {
  }

  lemma UnscaledAxis()
    ensures Vec(1.0, 0.0, 0.0).Over(1.0) == Vec(1.0, 0.0, 0.0)
  {
  }

  lemma SidewaysCross()
    ensures Vec(1.0, 0.0, 0.0).Cross(Vec(0.0, 0.0, -1.0)) == Vec(0.0, 1.0, 0.0)
  {
  }

  lemma SidewaysDot()
    ensures Vec(1.0, 0.0, 0.0).Dot(Vec(0.0, 0.0, -1.0)) == 0.0
  {
  }

  /** A run from a newly built estimator that ends in a correction without a sensor. The cycle counts
      as corrected and empties sums, time and line; it leaves no pull, and the stale vector raises
      the filtered error by a full 0.2. */
  lemma StaleVectorRun(m: Libm, gains: Gains)
    requires m.Lawful()
    ensures var before := VehicleAt(m, NEW_VEHICLE, LOSS, gains, 3);
      var last := Step(m, before, LOSS[3], gains);
      && TickSelection(m, before, LOSS[3], gains) == None && last.outcome == Corrected
      && before.loop.lag == Vec(1.0, 0.0, 0.0) && last.vehicle.loop.lag == ZERO
      && last.vehicle.loop.raSum == CLEARED_SUMS && last.vehicle.loop.raDeltat == 0.0
      && last.vehicle.loop.corrector.omegaP == ZERO
      && last.vehicle.loop.corrector.errorRp == 0.8 * before.loop.corrector.errorRp + 0.2
  {
    hide Libm.Lawful, Step, MatrixStep, Flushed, Direction, ErrorMagnitude, RaScale, VehicleAt, TickSelection, Mul,
      Vec.Times, Vec.Minus, Vec.Plus, NoneUsable, Integrates, AddedTime, BeforeAttempt;
    var v1 := VehicleAt(m, NEW_VEHICLE, LOSS, gains, 1);
    var v2 := VehicleAt(m, NEW_VEHICLE, LOSS, gains, 2);
    var v3 := VehicleAt(m, NEW_VEHICLE, LOSS, gains, 3);
    NextVehicle(m, NEW_VEHICLE, LOSS, gains, 0);
    NextVehicle(m, NEW_VEHICLE, LOSS, gains, 1);
    NextVehicle(m, NEW_VEHICLE, LOSS, gains, 2);
    FirstFix(m, gains);
    SecondFix(m, v1, gains);
    Waiting(m, v2, gains);
    WorkingReading(IDENTITY);
    TickCorrectsWithoutSensorIff(m, v3, LOSS[3], gains);
    StarvingTick(m, v3, LOSS[3], gains);
    SidewaysError(m);
    FlushedKeepsPull();
  }

  lemma FlushedKeepsPull()
    ensures forall s: DriftState, rate ::
      Flushed(s, rate).omegaP == s.omegaP && Flushed(s, rate).errorRp == s.errorRp
  {
  }

  // ---- no vector without a selection ------------------------------------

  /** Only a selection puts a non-zero vector in the line. */
  ghost predicate LineFed(s: LoopState) {
    !IsZeroVec(s.lag) ==> s.activeAccelInstance >= 0
  }

  lemma AttemptFed(m: Libm, s: LoopState, dcm: DcmState, ins: InsReading, motion: DriftMotionInputs,
                   velocity: Option<Vec>, gains: DriftGains)
    requires m.Lawful() && LineFed(s)
    ensures LineFed(Attempted(m, s, dcm, ins, motion, velocity, gains).0)
  {
    hide Libm.Lawful, VelocityDelta, GravityReference, LoopReference, Applied, RaScale, IsZeroVec, Vec.Times, Mul,
      Selection, Direction;
    var (selection, held) := Selected(m, s, ins, motion, velocity, gains);
    if UsesLag(s, motion) {
      StaleIff(m, s, ins, motion, velocity, gains);
      if s.raDeltat > 0.0 {
        ZeroTimes(RaScale(s.raDeltat));
      }
    } else {
      MeasuredWithoutGps(s.raSum, ins.AccelUsable, LoopScale(s.raDeltat), s.lag, ins.AccelCount());
    }
  }

  lemma StepFed(m: Libm, v: Vehicle, tick: Tick, gains: Gains)
    requires m.Lawful() && LineFed(v.loop)
    ensures LineFed(Step(m, v, tick, gains).vehicle.loop)
  {
    hide Libm.Lawful, MatrixStep, WindUpdated, Accumulated, AddedTime, Positioned, OfferedVelocity, Attempted,
      LineFed, Yaw.YawCorrection, YawInputs;
    var dcm := MatrixStep(m, v.dcm, tick.ins, DriftOmega(v.loop)).0;
    var s := BeforeAttempt(m, v, tick);
    DuplicateCallsHarmless(m, v, tick, gains);
    SameLine(v.loop, s);
    AttemptFed(m, s, dcm, tick.ins, tick.motion, OfferedVelocity(s.wind, dcm.matrix, tick.motion), gains.drift);
    var after := Attempt(m, s, dcm, tick.ins, tick.motion, gains.drift).0;
    SameLine(s, after);
    SameLine(after, Step(m, v, tick, gains).vehicle.loop);
  }

  lemma SameLine(s: LoopState, t: LoopState)
    ensures s.lag == t.lag && s.activeAccelInstance == t.activeAccelInstance ==> LineFed(s) == LineFed(t)
  {
  }

  /** Over any run from a newly built estimator, a non-zero vector in the line comes from a cycle
      that selected an accelerometer: the vector a starving tick falls back on was measured. */
  lemma {:induction false} HeldVectorWasMeasured(m: Libm, v: Vehicle, ticks: seq<Tick>, gains: Gains, i: nat)
    requires m.Lawful() && v.loop == FRESH_LOOP && i <= |ticks|
    ensures !IsZeroVec(VehicleAt(m, v, ticks, gains, i).loop.lag) ==>
      VehicleAt(m, v, ticks, gains, i).loop.activeAccelInstance >= 0
  {
    hide Libm.Lawful, Step;
    if i == 0 {
    } else {
      HeldVectorWasMeasured(m, v, ticks, gains, i - 1);
      StepFed(m, VehicleAt(m, v, ticks, gains, i - 1), ticks[i - 1], gains);
    }
  }
}
