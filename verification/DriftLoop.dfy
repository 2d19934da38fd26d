/** `DcmDriftLoop`: accumulation, wind, velocity and drift correction composed into one tick. */
module DriftLoop {
  import opened Vectors
  import opened MathLibrary
  import opened Wrappers
  import opened DcmMatrix
  import opened DcmLoop
  import opened MultiAccel
  import opened GpsLag
  import opened Drift
  import opened WindEstimation
  import opened DeadReckoning
  import Yaw = YawDrift

  const DRIFT_CORRECTION_INTERVAL_S := 0.2

  datatype YawUpdateInputs = YawUpdateInputs(
    compass: Option<Yaw.YawCompassSample>, gps: Option<Yaw.YawGpsSample>, ctx: Yaw.YawDriftContext)

  datatype DriftMotionInputs = DriftMotionInputs(
    nowMs: u32, gpsVelocity: Option<Vec>, newGpsFix: bool, haveGps: bool, flyForward: bool,
    airspeedTas: real, eas2tas: real, windEstimationEnabled: bool, correctCentrifugal: bool,
    gpsLatE7: Option<i32>, gpsLngE7: Option<i32>)

  datatype LoopState = LoopState(
    corrector: DriftState, yaw: Yaw.YawState, wind: WindState, raSum: Sums, raDeltat: real,
    activeAccelInstance: int, lastVelocity: Vec, haveGpsLock: bool, velocityInitialized: bool, lag: Vec,
    position: Position)

  /** One earth-frame sum per instance. */
  type Sums = s: seq<Vec> | |s| == INS_MAX_INSTANCES witness [ZERO, ZERO, ZERO]

  const CLEARED_SUMS: Sums := [ZERO, ZERO, ZERO]

  const FRESH_LOOP :=
    LoopState(FRESH_DRIFT, Yaw.FRESH_YAW, CALM_WIND, CLEARED_SUMS, 0.0, -1, ZERO, false, false, ZERO, NO_POSITION)

  // ---- specification: accumulation and velocity -------------------------

  /** Whether instance `i` adds a sample this tick. */
  predicate Contributes(ins: InsReading, i: nat) {
    ins.AccelUsable(i) && ins.accels[i].deltaVelocity.Some? && ins.accels[i].deltaVelocity.value.1 > 0.0
  }

  /** The earth-frame acceleration instance `i` measured. */
  function EarthAcceleration(matrix: Mat, ins: InsReading, i: nat): Vec
    requires Contributes(ins, i)
  {
    var (deltaVelocity, dt) := ins.accels[i].deltaVelocity.value;
    matrix.Mul(deltaVelocity.Over(dt))
  }

  function Contributors(ins: InsReading, n: nat): nat {
    if n == 0 then 0 else Contributors(ins, n - 1) + if Contributes(ins, n - 1) then 1 else 0
  }

  /** The sums after a tick: every contributing instance gains its own acceleration times the interval. */
  function Accumulated(raSum: Sums, matrix: Mat, ins: InsReading, loopDt: real): Sums {
    seq(INS_MAX_INSTANCES, i requires 0 <= i < INS_MAX_INSTANCES =>
      if i < ins.AccelCount() then Grown(raSum[i], matrix, ins, loopDt, i) else raSum[i])
  }

  function Grown(sum: Vec, matrix: Mat, ins: InsReading, loopDt: real, i: nat): Vec {
    if Contributes(ins, i) then sum.Plus(EarthAcceleration(matrix, ins, i).Times(loopDt)) else sum
  }

  /** The interval is added once per contributing instance, not once per tick: see `Centrifugal`. */
  function AddedTime(ins: InsReading, loopDt: real): real {
    Mul(Contributors(ins, ins.AccelCount()) as real, loopDt)
  }

  function WindInputs(matrix: Mat, motion: DriftMotionInputs): WindEstimateInputs
    requires motion.gpsVelocity.Some?
  {
    WindEstimateInputs(
      motion.nowMs, motion.gpsVelocity.value, matrix.ColX(),
      if motion.airspeedTas > 0.0 && motion.eas2tas > 0.0 then Some(motion.airspeedTas / motion.eas2tas) else None,
      motion.eas2tas, motion.windEstimationEnabled)
  }

  function WindUpdated(m: Libm, wind: WindState, matrix: Mat, motion: DriftMotionInputs): WindState {
    if motion.newGpsFix && motion.gpsVelocity.Some? then Estimated(m, wind, WindInputs(matrix, motion)).0 else wind
  }

  /** The velocity this tick offers, `None` when it offers none. */
  function OfferedVelocity(wind: WindState, matrix: Mat, motion: DriftMotionInputs): Option<Vec> {
    if motion.haveGps then
      if motion.newGpsFix then motion.gpsVelocity else None
    else if !motion.flyForward || motion.airspeedTas <= 0.0 then None
    else Some(GroundVelocityNoGps(wind.wind, matrix.ColX(), motion.airspeedTas))
  }

  /** State after `resolve_velocity`. */
  function Resolved(s: LoopState, motion: DriftMotionInputs): LoopState {
    if !motion.haveGps then s.(haveGpsLock := false)
    else if !motion.newGpsFix || motion.gpsVelocity == None then s
    else s.(haveGpsLock := true,
            lastVelocity := if s.haveGpsLock then s.lastVelocity else motion.gpsVelocity.value)
  }

  /** State after `update_wind` and `resolve_velocity`. */
  function Prepared(m: Libm, s: LoopState, matrix: Mat, motion: DriftMotionInputs): LoopState {
    Resolved(s.(wind := WindUpdated(m, s.wind, matrix, motion)), motion)
  }

  /** The position after `update_position`: a new fix starts over, a velocity without one is
      integrated over the seconds accumulated so far. */
  function Positioned(p: Position, motion: DriftMotionInputs, velocity: Option<Vec>, raDeltat: real): Position {
    if motion.haveGps && motion.newGpsFix then
      if motion.gpsLatE7.Some? && motion.gpsLngE7.Some? then
        Position(0.0, 0.0, true, motion.gpsLatE7.value, motion.gpsLngE7.value, motion.nowMs)
      else if motion.gpsVelocity.Some? then Position(0.0, 0.0, true, 0, 0, motion.nowMs)
      else p
    else if velocity.Some? then Integrated(p, velocity.value, raDeltat, motion.haveGps)
    else p
  }

  // ---- specification: the correction attempt ----------------------------

  /** With GPS a correction waits for a new fix, without it for 0.2 accumulated seconds. */
  predicate Waits(s: LoopState, motion: DriftMotionInputs) {
    if motion.haveGps then !motion.newGpsFix else s.raDeltat < DRIFT_CORRECTION_INTERVAL_S
  }

  function VelocityDelta(s: LoopState, motion: DriftMotionInputs, velocity: Option<Vec>): Option<Vec> {
    if motion.correctCentrifugal && (s.haveGpsLock || motion.flyForward) && velocity.Some?
    then Some(velocity.value.Minus(s.lastVelocity)) else None
  }

  function LoopScale(raDeltat: real): real {
    if raDeltat > 0.0 then RaScale(raDeltat) else 0.0
  }

  /** The reference the selection uses: unlike the corrector it goes on when the tilted vector vanishes. */
  function LoopReference(m: Libm, velocityDelta: Option<Vec>, scale: real): Vec {
    var down := Vec(0.0, 0.0, -1.0);
    if velocityDelta == None then down
    else
      var tilted := down.Plus(velocityDelta.value.Times(scale));
      var unit := m.Normalized(tilted);
      if unit == None then tilted else unit.value
  }

  function UsesLag(s: LoopState, motion: DriftMotionInputs): bool {
    s.haveGpsLock && motion.haveGps
  }

  /** The sensor selected this cycle and the delay line afterwards. */
  function Selected(m: Libm, s: LoopState, ins: InsReading, motion: DriftMotionInputs, velocity: Option<Vec>,
                    gains: DriftGains)
    : (Option<MultiAccelSelection>, Vec)
  {
    var scale := LoopScale(s.raDeltat);
    var gaE := LoopReference(m, VelocityDelta(s, motion, velocity), Mul(gains.gpsGain, scale));
    var (measured, held) := Measured(s.raSum, ins.AccelUsable, scale, UsesLag(s, motion), s.lag, ins.AccelCount());
    (Selection(m, measured, gaE), held)
  }

  function PrimarySum(s: LoopState, selection: Option<MultiAccelSelection>): Vec {
    if selection.Some? && selection.value.activeInstance < INS_MAX_INSTANCES
    then s.raSum[selection.value.activeInstance] else ZERO
  }

  function CorrectionInputs(s: LoopState, dcm: DcmState, ins: InsReading, motion: DriftMotionInputs,
                            velocity: Option<Vec>, selection: Option<MultiAccelSelection>): DriftInputs {
    DriftInputs(PrimarySum(s, selection), s.raDeltat, VelocityDelta(s, motion, velocity), dcm.matrix, dcm.omega,
                ins.gyroHealthy && ins.AccelHealthy(), UsesLag(s, motion), selection)
  }

  /** The correction proper, once the gate is passed and a velocity has been initialised. */
  function Attempted(m: Libm, s: LoopState, dcm: DcmState, ins: InsReading, motion: DriftMotionInputs,
                     velocity: Option<Vec>, gains: DriftGains): (LoopState, DriftOutcome)
  {
    var (selection, held) := Selected(m, s, ins, motion, velocity, gains);
    var cycle := Correction(m, s.corrector, CorrectionInputs(s, dcm, ins, motion, velocity, selection), gains, held);
    var active := if selection.Some? then selection.value.activeInstance else s.activeAccelInstance;
    var chosen := s.(activeAccelInstance := active,
                     corrector := cycle.state, lag := cycle.buffer);
    (if cycle.outcome != Corrected then chosen
     else chosen.(lastVelocity := if velocity.Some? then velocity.value else s.lastVelocity,
                  raSum := CLEARED_SUMS, raDeltat := 0.0),
     cycle.outcome)
  }

  /** `try_correct` on a state whose wind and velocity are already up to date. */
  function AttemptWith(m: Libm, s: LoopState, dcm: DcmState, ins: InsReading, motion: DriftMotionInputs,
                       velocity: Option<Vec>, gains: DriftGains): (LoopState, DriftOutcome)
  {
    if Waits(s, motion) then (s, NotEnoughData)
    else if !s.velocityInitialized then
      (s.(lastVelocity := if velocity.Some? then velocity.value else s.lastVelocity,
          velocityInitialized := velocity.Some?, raSum := CLEARED_SUMS, raDeltat := 0.0), NotEnoughData)
    else Attempted(m, s, dcm, ins, motion, velocity, gains)
  }

  /** `try_correct`, which brings wind and velocity up to date itself once it is past the gate. */
  function Attempt(m: Libm, s: LoopState, dcm: DcmState, ins: InsReading, motion: DriftMotionInputs, gains: DriftGains)
    : (LoopState, DriftOutcome)
  {
    if Waits(s, motion) then (s, NotEnoughData)
    else
      var prepared := Prepared(m, s, dcm.matrix, motion);
      AttemptWith(m, prepared, dcm, ins, motion, OfferedVelocity(prepared.wind, dcm.matrix, motion), gains)
  }

  // ---- specification: yaw and the whole tick ----------------------------

  function HorizontalAcceleration(m: Libm, matrix: Mat, accel: Vec): real {
    m.LengthXy(matrix.Mul(accel))
  }

  function YawInputs(m: Libm, s: LoopState, dcm: DcmState, yaw: YawUpdateInputs, accelEfXyMag: real)
    : Yaw.YawDriftInputs
  {
    var (roll, pitch, heading) := m.ToEuler(dcm.matrix);
    Yaw.YawDriftInputs(
      dcm.matrix, dcm.omega, accelEfXyMag, yaw.compass, yaw.gps, roll, pitch,
      yaw.ctx.(estimatedYawRad := heading, windSpeedXy := m.LengthXy(s.wind.wind)))
  }

  /** State and attitude after `correct_yaw`. */
  function YawCorrected(m: Libm, s: LoopState, dcm: DcmState, yaw: YawUpdateInputs, accelEfXyMag: real,
                        yawGains: Yaw.YawDriftGains): (LoopState, DcmState) {
    var (after, result) := Yaw.YawCorrection(m, s.yaw, YawInputs(m, s, dcm, yaw, accelEfXyMag), yawGains);
    var sum := s.corrector.omegaISum;
    (s.(yaw := after, corrector := s.corrector.(omegaISum := sum.(z := sum.z + result.omegaIZ))),
     if result.matrixAction.ResetAttitude?
     then dcm.(matrix := m.FromEuler(result.matrixAction.roll, result.matrixAction.pitch, result.matrixAction.yaw))
     else dcm)
  }

  datatype Tick = Tick(ins: InsReading, loopDt: real, yaw: Option<YawUpdateInputs>, motion: DriftMotionInputs)

  datatype Gains = Gains(drift: DriftGains, yaw: Yaw.YawDriftGains)

  datatype Vehicle = Vehicle(dcm: DcmState, loop: LoopState)

  function DriftOmega(s: LoopState): DcmDriftOmega {
    DcmDriftOmega(s.corrector.omegaI, s.corrector.omegaP, s.yaw.omegaYawP)
  }

  datatype TickResult = TickResult(vehicle: Vehicle, health: MatrixHealth, outcome: DriftOutcome)

  function WithPosition(s: LoopState, matrix: Mat, motion: DriftMotionInputs): LoopState {
    s.(position := Positioned(s.position, motion, OfferedVelocity(s.wind, matrix, motion), s.raDeltat))
  }

  /** The loop state between accumulation and the correction attempt of one tick. */
  function BeforeAttempt(m: Libm, v: Vehicle, tick: Tick): LoopState {
    var dcm := MatrixStep(m, v.dcm, tick.ins, DriftOmega(v.loop)).0;
    var accumulated := v.loop.(raSum := Accumulated(v.loop.raSum, dcm.matrix, tick.ins, tick.loopDt),
                               raDeltat := v.loop.raDeltat + AddedTime(tick.ins, tick.loopDt));
    WithPosition(Prepared(m, accumulated, dcm.matrix, tick.motion), dcm.matrix, tick.motion)
  }

  /** One full tick of the estimator. */
  function Step(m: Libm, v: Vehicle, tick: Tick, gains: Gains): TickResult
  {
    var (dcm, health) := MatrixStep(m, v.dcm, tick.ins, DriftOmega(v.loop));
    var (attempted, outcome) := Attempt(m, BeforeAttempt(m, v, tick), dcm, tick.ins, tick.motion, gains.drift);
    var (loop, attitude) := if tick.yaw == None then (attempted, dcm)
      else YawCorrected(m, attempted, dcm, tick.yaw.value, HorizontalAcceleration(m, dcm.matrix, tick.ins.accel),
                        gains.yaw);
    TickResult(Vehicle(attitude, loop), health, outcome)
  }

  // ---- the stateful form ------------------------------------------------

  class DcmDriftLoop {
    const corrector: DriftCorrector
    const yaw: Yaw.YawDriftCorrector
    const wind: WindEstimator
    const gains: DriftGains
    const yawGains: Yaw.YawDriftGains
    const raSums: MultiAccelAccumulator
    const gpsLag: GpsLagBuffer
    const position: DeadReckoningPosition
    var raDeltat: real
    var activeAccelInstance: int
    var lastVelocity: Vec
    var haveGpsLock: bool
    var driftVelocityInitialized: bool

    predicate Valid() { raSums.raSum.Length == INS_MAX_INSTANCES }

    function State(): LoopState
      requires Valid()
      reads this, corrector, yaw, wind, gpsLag, raSums.raSum, position
    {
      LoopState(corrector.State(), yaw.State(), wind.State(), raSums.raSum[..], raDeltat, activeAccelInstance,
                lastVelocity, haveGpsLock, driftVelocityInitialized, gpsLag.raDelayBuffer, position.State())
    }

    constructor (gains: DriftGains, yawGains: Yaw.YawDriftGains)
      ensures Valid() && State() == FRESH_LOOP
      ensures this.gains == gains && this.yawGains == yawGains
    {
      corrector := new DriftCorrector();
      yaw := new Yaw.YawDriftCorrector();
      wind := new WindEstimator();
      this.gains, this.yawGains := gains, yawGains;
      raSums := new MultiAccelAccumulator();
      gpsLag := new GpsLagBuffer();
      position := new DeadReckoningPosition();
      raDeltat, activeAccelInstance, lastVelocity := 0.0, -1, ZERO;
      haveGpsLock, driftVelocityInitialized := false, false;
    }

    method AccumulateFromIns(matrix: Mat, ins: InsReading, loopDt: real)
      requires Valid()
      modifies this`raDeltat, raSums.raSum
      ensures State() == old(State()).(raSum := Accumulated(old(State()).raSum, matrix, ins, loopDt),
                                       raDeltat := old(raDeltat) + AddedTime(ins, loopDt))
    {
      hide Mat.Mul, Vec.Dot, Vec.Times, Vec.Over;
      var accelCount := ins.AccelCount();
      ghost var before := raSums.raSum[..];
      for i := 0 to accelCount
        invariant raDeltat == old(raDeltat) + Mul(Contributors(ins, i) as real, loopDt)
        invariant forall j :: i <= j < INS_MAX_INSTANCES ==> raSums.raSum[j] == before[j]
        invariant forall j :: 0 <= j < i ==> raSums.raSum[j] == Grown(before[j], matrix, ins, loopDt, j)
      {
        if !ins.AccelUsable(i) {
          continue;
        }
        if ins.accels[i].deltaVelocity == None {
          continue;
        }
        var (deltaVelocity, deltaVelocityDt) := ins.accels[i].deltaVelocity.value;
        if deltaVelocityDt <= 0.0 {
          continue;
        }
        var accelEf := matrix.Mul(deltaVelocity.Over(deltaVelocityDt));
        raSums.raSum[i] := raSums.raSum[i].Plus(accelEf.Times(loopDt));
        raDeltat := raDeltat + loopDt;
      }
      assert raSums.raSum[..] == Accumulated(before, matrix, ins, loopDt);
    }

    method UpdateWind(m: Libm, matrix: Mat, motion: DriftMotionInputs)
      requires Valid()
      modifies wind
      ensures State() == old(State()).(wind := WindUpdated(m, old(State()).wind, matrix, motion))
    {
      hide Estimated;
      if !motion.newGpsFix {
        return;
      }
      if motion.gpsVelocity == None {
        return;
      }
      var airspeedEas := None;
      if motion.airspeedTas > 0.0 && motion.eas2tas > 0.0 {
        airspeedEas := Some(motion.airspeedTas / motion.eas2tas);
      }
      wind.Estimate(m, WindEstimateInputs(motion.nowMs, motion.gpsVelocity.value, matrix.ColX(),
                                          airspeedEas, motion.eas2tas, motion.windEstimationEnabled));
    }

    method ResolveVelocity(matrix: Mat, motion: DriftMotionInputs) returns (velocity: Option<Vec>)
      requires Valid()
      modifies this`lastVelocity, this`haveGpsLock
      ensures State() == Resolved(old(State()), motion)
      ensures velocity == OfferedVelocity(old(State()).wind, matrix, motion)
    {
      if motion.haveGps {
        if !motion.newGpsFix {
          return None;
        }
        if motion.gpsVelocity == None {
          return None;
        }
        if !haveGpsLock {
          lastVelocity := motion.gpsVelocity.value;
        }
        haveGpsLock := true;
        return motion.gpsVelocity;
      }
      haveGpsLock := false;
      if !motion.flyForward || motion.airspeedTas <= 0.0 {
        return None;
      }
      return Some(GroundVelocityNoGps(wind.wind, matrix.ColX(), motion.airspeedTas));
    }

    method UpdatePosition(motion: DriftMotionInputs, velocity: Option<Vec>)
      requires Valid()
      modifies position
      ensures position.State() == Positioned(old(position.State()), motion, velocity, raDeltat)
    {
      if motion.haveGps && motion.newGpsFix {
        if motion.gpsLatE7.Some? && motion.gpsLngE7.Some? {
          position.OnGpsFix(motion.gpsLatE7.value, motion.gpsLngE7.value, motion.nowMs);
        } else if motion.gpsVelocity.Some? {
          position.OnGpsFix(0, 0, motion.nowMs);
        }
      } else if velocity.Some? {
        position.Integrate(velocity.value, raDeltat, motion.haveGps);
      }
    }

    method TryCorrect(m: Libm, dcm: Dcm, ins: InsReading, motion: DriftMotionInputs) returns (outcome: DriftOutcome)
      requires Valid()
      modifies this, corrector, wind, gpsLag, raSums.raSum
      ensures (State(), outcome) == Attempt(m, old(State()), dcm.State(), ins, motion, gains)
    {
      hide Prepared, Attempted, OfferedVelocity;
      if motion.haveGps {
        if !motion.newGpsFix {
          return NotEnoughData;
        }
      } else if raDeltat < DRIFT_CORRECTION_INTERVAL_S {
        return NotEnoughData;
      }
      var velocity := Prepare(m, dcm.matrix, motion);
      if !driftVelocityInitialized {
        if velocity.Some? {
          lastVelocity := velocity.value;
          driftVelocityInitialized := true;
        }
        raSums.Reset();
        assert raSums.raSum[..] == CLEARED_SUMS;
        raDeltat := 0.0;
        return NotEnoughData;
      }
      outcome := SelectAndCorrect(m, dcm, ins, motion, velocity);
    }

    /** The two calls `try_correct` opens with. */
    method Prepare(m: Libm, matrix: Mat, motion: DriftMotionInputs) returns (velocity: Option<Vec>)
      requires Valid()
      modifies this`lastVelocity, this`haveGpsLock, wind
      ensures State() == Prepared(m, old(State()), matrix, motion)
      ensures velocity == OfferedVelocity(State().wind, matrix, motion)
      ensures raDeltat == old(raDeltat)
    {
      hide WindUpdated;
      UpdateWind(m, matrix, motion);
      velocity := ResolveVelocity(matrix, motion);
    }

    /** The selection stage of `try_correct`. */
    method SelectSensor(m: Libm, ins: InsReading, motion: DriftMotionInputs, velocity: Option<Vec>)
      returns (velocityDelta: Option<Vec>, preselected: Option<MultiAccelSelection>)
      requires Valid()
      modifies gpsLag
      ensures velocityDelta == VelocityDelta(old(State()), motion, velocity)
      ensures (preselected, gpsLag.raDelayBuffer) == Selected(m, old(State()), ins, motion, velocity, gains)
      ensures preselected.Some? ==> preselected.value.activeInstance < INS_MAX_INSTANCES
    {
      hide Selection, Measured, Libm.Normalized, Vec.Times, Vec.Plus, Vec.Minus, RaScale, Mul;
      velocityDelta := None;
      if motion.correctCentrifugal && (haveGpsLock || motion.flyForward) {
        if velocity.Some? {
          velocityDelta := Some(velocity.value.Minus(lastVelocity));
        }
      }
      var raScale := if raDeltat > 0.0 then RaScale(raDeltat) else 0.0;
      var gaE := Vec(0.0, 0.0, -1.0);
      if velocityDelta.Some? {
        gaE := gaE.Plus(velocityDelta.value.Times(Mul(gains.gpsGain, raScale)));
        var unit := m.Normalized(gaE);
        if unit.Some? {
          gaE := unit.value;
        }
      }
      preselected := Select(m, raSums.raSum[..], ins.AccelCount(), ins.AccelUsable, gaE, raScale,
                            haveGpsLock && motion.haveGps, gpsLag);
    }

    /** What the corrector is given, with the chosen instance recorded. */
    method GatherInputs(m: Libm, dcm: Dcm, ins: InsReading, motion: DriftMotionInputs, velocity: Option<Vec>)
      returns (inputs: DriftInputs)
      requires Valid()
      modifies this`activeAccelInstance, gpsLag
      ensures var (selection, held) := Selected(m, old(State()), ins, motion, velocity, gains);
        && inputs == CorrectionInputs(old(State()), dcm.State(), ins, motion, velocity, selection)
        && gpsLag.raDelayBuffer == held
        && activeAccelInstance == if selection.Some? then selection.value.activeInstance else old(activeAccelInstance)
    {
      hide Selected, VelocityDelta;
      var velocityDelta, preselected := SelectSensor(m, ins, motion, velocity);
      var primaryRaSum := ZERO;
      if preselected.Some? {
        activeAccelInstance := preselected.value.activeInstance;
        primaryRaSum := raSums.raSum[preselected.value.activeInstance];
      }
      inputs := DriftInputs(primaryRaSum, raDeltat, velocityDelta, dcm.matrix, dcm.omega,
                            ins.gyroHealthy && ins.AccelHealthy(), haveGpsLock && motion.haveGps, preselected);
    }

    /** The rest of `try_correct`: pick an accelerometer, correct, and reset on success. */
    method SelectAndCorrect(m: Libm, dcm: Dcm, ins: InsReading, motion: DriftMotionInputs, velocity: Option<Vec>)
      returns (outcome: DriftOutcome)
      requires Valid()
      modifies this, corrector, gpsLag, raSums.raSum
      ensures (State(), outcome) == Attempted(m, old(State()), dcm.State(), ins, motion, velocity, gains)
    {
      hide Correction, Selected, CorrectionInputs;
      var inputs := GatherInputs(m, dcm, ins, motion, velocity);
      outcome := corrector.Correct(m, inputs, gains, gpsLag);
      if outcome == Corrected {
        Restart(velocity);
      }
    }

    /** After a success: remember the velocity and empty the accumulators. */
    method Restart(velocity: Option<Vec>)
      requires Valid()
      modifies this`lastVelocity, this`raDeltat, raSums.raSum
      ensures lastVelocity == if velocity.Some? then velocity.value else old(lastVelocity)
      ensures raSums.raSum[..] == CLEARED_SUMS && raDeltat == 0.0
    {
      if velocity.Some? {
        lastVelocity := velocity.value;
      }
      raSums.Reset();
      raDeltat := 0.0;
    }

    method CorrectYaw(m: Libm, dcm: Dcm, yawIn: YawUpdateInputs, accelEfXyMag: real)
      requires Valid()
      modifies yaw, corrector, dcm
      ensures (State(), dcm.State()) == YawCorrected(m, old(State()), old(dcm.State()), yawIn, accelEfXyMag, yawGains)
    {
      hide Yaw.YawCorrection, Libm.FromEuler;
      var (roll, pitch, heading) := m.ToEuler(dcm.matrix);
      var ctx := yawIn.ctx.(estimatedYawRad := heading, windSpeedXy := wind.WindSpeedXy(m));
      var inputs := Yaw.YawDriftInputs(dcm.matrix, dcm.omega, accelEfXyMag, yawIn.compass, yawIn.gps, roll, pitch, ctx);
      var result := yaw.DriftCorrectionYaw(m, inputs, yawGains);
      if result.matrixAction.ResetAttitude? {
        dcm.matrix := m.FromEuler(result.matrixAction.roll, result.matrixAction.pitch, result.matrixAction.yaw);
      }
      if result.omegaIZ != 0.0 {
        corrector.AddYawIntegralZ(result.omegaIZ);
      }
    }
  }

  /** One tick, in the order the estimator makes its calls. */
  method DcmStepWithDriftFromInsYaw(m: Libm, dcm: Dcm, drift: DcmDriftLoop, tick: Tick)
    returns (health: MatrixHealth, ghost outcome: DriftOutcome)
    requires drift.Valid()
    modifies dcm, drift, drift.corrector, drift.yaw, drift.wind, drift.gpsLag, drift.raSums.raSum, drift.position
    ensures TickResult(Vehicle(dcm.State(), drift.State()), health, outcome)
         == Step(m, Vehicle(old(dcm.State()), old(drift.State())), tick, Gains(drift.gains, drift.yawGains))
  {
    hide MatrixStep, Accumulated, AddedTime, WindUpdated, Resolved, Attempt, YawCorrected, Positioned,
      OfferedVelocity, Vec.Dot, Mat.Mul, Libm.LengthXy;
    var omega := DcmDriftOmega(drift.corrector.omegaI, drift.corrector.omegaP, drift.yaw.omegaYawP);
    health := DcmMatrixStepFromIns(m, dcm, tick.ins, omega);
    drift.AccumulateFromIns(dcm.matrix, tick.ins, tick.loopDt);
    drift.UpdateWind(m, dcm.matrix, tick.motion);
    var velocity := drift.ResolveVelocity(dcm.matrix, tick.motion);
    drift.UpdatePosition(tick.motion, velocity);
    assert drift.State() == BeforeAttempt(m, Vehicle(old(dcm.State()), old(drift.State())), tick);
    outcome := drift.TryCorrect(m, dcm, tick.ins, tick.motion);
    if tick.yaw.Some? {
      var accelEfXyMag := HorizontalAcceleration(m, dcm.matrix, tick.ins.accel);
      drift.CorrectYaw(m, dcm, tick.yaw.value, accelEfXyMag);
    }
  }
}
