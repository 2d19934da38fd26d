/** Closed-loop safety: attitude, bias estimate, proportional terms and filtered errors stay
    within their bounds together, over any run of full ticks. */
module ClosedLoop {
  import opened Vectors
  import opened MathLibrary
  import opened Wrappers
  import opened DcmMatrix
  import opened DcmLoop
  import opened MultiAccel
  import opened Drift
  import opened DriftBounds
  import opened DriftLoop
  import opened LoopRuns
  import YawRuns

  // ---- the bias estimate against accumulated time -----------------------

  /** The bias estimate is within the specified drift of the corrected seconds that are no
      longer pending in the current batch. */
  ghost predicate BiasAccounted(c: DriftState, rate: real, corrected: real) {
    && WithinDrift(c.omegaI, rate, corrected - c.omegaISumTime)
    && 0.0 <= c.omegaISumTime < BATCH_SECONDS
    && c.omegaISumTime <= corrected
  }

  lemma DriftMonotone(v: Vec, rate: real, seconds: real, more: real)
    requires WithinDrift(v, rate, seconds) && seconds <= more
    ensures WithinDrift(v, rate, more)
  {
    ProductMonotone(seconds, more, Abs(rate));
    assert Mul(Abs(rate), seconds) == Mul(seconds, Abs(rate)) && Mul(Abs(rate), more) == Mul(more, Abs(rate));
  }

  lemma CorrectionBias(m: Libm, c: DriftState, inp: DriftInputs, gains: DriftGains, buffer: Vec, corrected: real)
    requires BiasAccounted(c, gains.gyroDriftRate, corrected)
    ensures var cycle := Correction(m, c, inp, gains, buffer);
      BiasAccounted(cycle.state, gains.gyroDriftRate,
                    corrected + if cycle.outcome == Corrected then inp.raDeltat else 0.0)
  {
    hide Judged, Applied, Flushed, WithinDrift, Integrates;
    var j := Judged(m, inp, gains, buffer);
    if j.outcome == Corrected {
      var rate := gains.gyroDriftRate;
      CorrectedHasTime(m, inp, gains, buffer);
      var batch := PendingBatch(m, c, j.errorEf, j.bestError, inp, gains);
      FlushBounded(batch, rate, corrected - c.omegaISumTime);
      var after := Flushed(batch, rate);
      DriftMonotone(after.omegaI, rate,
                    if batch.omegaISumTime >= BATCH_SECONDS then corrected - c.omegaISumTime + batch.omegaISumTime
                    else corrected - c.omegaISumTime,
                    corrected + inp.raDeltat - after.omegaISumTime);
    }
  }

  lemma AttemptBias(m: Libm, s: LoopState, dcm: DcmState, ins: InsReading, motion: DriftMotionInputs, gains: DriftGains,
                    corrected: real)
    requires BiasAccounted(s.corrector, gains.gyroDriftRate, corrected)
    ensures var (after, outcome) := Attempt(m, s, dcm, ins, motion, gains);
      BiasAccounted(after.corrector, gains.gyroDriftRate, corrected + if outcome == Corrected then s.raDeltat else 0.0)
  {
    hide WindUpdated, OfferedVelocity, Selected, Correction, CorrectionInputs, BiasAccounted;
    if !Waits(s, motion) && s.velocityInitialized {
      var prepared := Prepared(m, s, dcm.matrix, motion);
      var velocity := OfferedVelocity(prepared.wind, dcm.matrix, motion);
      var (selection, held) := Selected(m, prepared, ins, motion, velocity, gains);
      var inp := CorrectionInputs(prepared, dcm, ins, motion, velocity, selection);
      InputFields(prepared, dcm, ins, motion, velocity, selection);
      CorrectionBias(m, s.corrector, inp, gains, held, corrected);
    }
  }

  lemma FlyBias(m: Libm, f: Flight, tick: Tick, gains: Gains)
    requires BiasAccounted(f.vehicle.loop.corrector, gains.drift.gyroDriftRate, f.corrected)
    ensures var next := Fly(m, f, tick, gains);
      BiasAccounted(next.vehicle.loop.corrector, gains.drift.gyroDriftRate, next.corrected)
  {
    hide MatrixStep, BeforeAttempt, Attempt, YawCorrected, BiasAccounted, HorizontalAcceleration;
    var v := f.vehicle;
    var dcm := MatrixStep(m, v.dcm, tick.ins, DriftOmega(v.loop)).0;
    var before := BeforeAttempt(m, v, tick);
    StepFields(m, v, tick, gains);
    AttemptBias(m, before, dcm, tick.ins, tick.motion, gains.drift, f.corrected);
    FlyIsStep(m, f, tick, gains);
    if tick.yaw.Some? {
      YawLeavesCorrector(m, Attempt(m, before, dcm, tick.ins, tick.motion, gains.drift).0, dcm, tick.yaw.value,
                         HorizontalAcceleration(m, dcm.matrix, tick.ins.accel), gains,
                         Fly(m, f, tick, gains).corrected);
    }
  }

  /** Whatever the sensors say: over any run of ticks with non-negative intervals the bias
      estimate stays within the drift rate times all the time ever accumulated. */
  lemma {:induction false} BiasWithinAccumulatedTime(m: Libm, f: Flight, ticks: seq<Tick>, gains: Gains)
    requires BiasAccounted(f.vehicle.loop.corrector, gains.drift.gyroDriftRate, f.corrected) && Forward(f)
    requires forall i :: 0 <= i < |ticks| ==> 0.0 <= ticks[i].loopDt
    ensures var end := FlyAll(m, f, ticks, gains);
      && BiasAccounted(end.vehicle.loop.corrector, gains.drift.gyroDriftRate, end.corrected)
      && WithinDrift(end.vehicle.loop.corrector.omegaI, gains.drift.gyroDriftRate, end.added)
    decreases |ticks|
  {
    hide Fly, WithinDrift;
    if ticks == [] {
      DriftMonotone(f.vehicle.loop.corrector.omegaI, gains.drift.gyroDriftRate,
                    f.corrected - f.vehicle.loop.corrector.omegaISumTime, f.added);
    } else {
      FlyBias(m, f, ticks[0], gains);
      FlyForward(m, f, ticks[0], gains);
      BiasWithinAccumulatedTime(m, Fly(m, f, ticks[0], gains), ticks[1..], gains);
    }
  }

  // ---- the error a loop correction acts on ------------------------------

  /** When a cycle corrects, the selection was made against the same unit reference. */
  lemma SelectionSharesReference(m: Libm, velocityDelta: Option<Vec>, gpsGain: real, raDeltat: real)
    requires m.Lawful() && raDeltat > 0.0
    ensures var scale := Mul(gpsGain, RaScale(raDeltat));
      GravityReference(m, velocityDelta, scale).Some? ==>
        && LoopReference(m, velocityDelta, scale) == GravityReference(m, velocityDelta, scale).value
        && LoopReference(m, velocityDelta, scale).LengthSquared() == 1.0
  {
    hide Libm.Normalized, Vec.Times, Vec.Plus;
    ReferenceIsUnit(m, velocityDelta, Mul(gpsGain, RaScale(raDeltat)));
  }

  /** A cycle that corrects was given no preselected error, or a bounded one. */
  lemma AttemptPreselection(m: Libm, s: LoopState, dcm: DcmState, ins: InsReading, motion: DriftMotionInputs,
                            velocity: Option<Vec>, gains: DriftGains)
    requires m.Lawful()
    ensures var (selection, held) := Selected(m, s, ins, motion, velocity, gains);
      var inp := CorrectionInputs(s, dcm, ins, motion, velocity, selection);
      Judged(m, inp, gains, held).outcome == Corrected ==> PreselectionBounded(inp)
  {
    hide Selection, Measured, Libm.Lawful, Libm.Length, Libm.Normalized, Vec.Times, Vec.LengthSquared, Vec.Dot,
      Vec.Cross, RaScale, Mul;
    if s.raDeltat > 0.0 {
      SelectionSharesReference(m, VelocityDelta(s, motion, velocity), gains.gpsGain, s.raDeltat);
      var gaE := LoopReference(m, VelocityDelta(s, motion, velocity), Mul(gains.gpsGain, LoopScale(s.raDeltat)));
      if gaE.LengthSquared() == 1.0 {
        SelectionBounded(m, Measured(s.raSum, ins.AccelUsable, LoopScale(s.raDeltat), UsesLag(s, motion), s.lag,
                                     ins.AccelCount()).0, gaE);
      }
    }
  }

  // ---- the joint invariant ----------------------------------------------

  /** The roll and pitch pull is at most 1.05 times the limit of the gains. */
  ghost predicate PullBounded(omegaP: Vec, gains: DriftGains) {
    omegaP.LengthSquared() <= Mul(1.0625, Square(PullLimit(gains)))
  }

  /** Every bounded quantity of the estimator within its bound after `corrected` seconds. */
  ghost predicate Safe(v: Vehicle, gains: Gains, gamma: real, corrected: real) {
    && NearRotation(v.dcm.matrix, gamma)
    && BiasAccounted(v.loop.corrector, gains.drift.gyroDriftRate, corrected)
    && PullBounded(v.loop.corrector.omegaP, gains.drift)
    && 0.0 <= v.loop.corrector.errorRp <= 1.0
    && YawRuns.YawBounded(v.loop.yaw, gains.yaw)
  }

  lemma SkewAtMost(r: Mat, gamma: real)
    requires NearRotation(r, gamma) && 0.0 <= gamma <= 0.5
    ensures Abs(r.a.Dot(r.b)) <= 0.0625
  {
    AbsProduct(gamma, gamma, 0.5, 0.5);
    AbsProduct(Square(gamma), Square(gamma), 0.25, 0.25);
  }

  /** The corrector part of the invariant across the attempt. */
  lemma AttemptSafe(m: Libm, s: LoopState, dcm: DcmState, ins: InsReading, motion: DriftMotionInputs, gains: DriftGains,
                    gamma: real, corrected: real)
    requires m.Lawful() && 0.0 <= gamma <= 0.5 && NearRotation(dcm.matrix, gamma)
    requires BiasAccounted(s.corrector, gains.gyroDriftRate, corrected)
    requires PullBounded(s.corrector.omegaP, gains)
    requires 0.0 <= s.corrector.errorRp <= 1.0
    ensures var (after, outcome) := Attempt(m, s, dcm, ins, motion, gains);
      && BiasAccounted(after.corrector, gains.gyroDriftRate,
                       corrected + if outcome == Corrected then s.raDeltat else 0.0)
      && PullBounded(after.corrector.omegaP, gains)
      && 0.0 <= after.corrector.errorRp <= 1.0
      && after.yaw == s.yaw
  {
    hide Libm.Lawful, WindUpdated, OfferedVelocity, Selected, Correction, CorrectionInputs, BiasAccounted,
      PullBounded, NearRotation;
    if !Waits(s, motion) && s.velocityInitialized {
      var prepared := Prepared(m, s, dcm.matrix, motion);
      var velocity := OfferedVelocity(prepared.wind, dcm.matrix, motion);
      var (selection, held) := Selected(m, prepared, ins, motion, velocity, gains);
      var inp := CorrectionInputs(prepared, dcm, ins, motion, velocity, selection);
      CorrectionSafe(m, prepared, dcm, ins, motion, velocity, gains, gamma, corrected);
      InputFields(prepared, dcm, ins, motion, velocity, selection);
    }
  }

  lemma InputFields(s: LoopState, dcm: DcmState, ins: InsReading, motion: DriftMotionInputs,
                    velocity: Option<Vec>, selection: Option<MultiAccelSelection>)
    ensures var inp := CorrectionInputs(s, dcm, ins, motion, velocity, selection);
      inp.raDeltat == s.raDeltat && inp.dcmMatrix == dcm.matrix
  {
  }

  lemma CorrectionSafe(m: Libm, s: LoopState, dcm: DcmState, ins: InsReading, motion: DriftMotionInputs,
                       velocity: Option<Vec>, gains: DriftGains, gamma: real, corrected: real)
    requires m.Lawful() && 0.0 <= gamma <= 0.5 && NearRotation(dcm.matrix, gamma)
    requires BiasAccounted(s.corrector, gains.gyroDriftRate, corrected)
    requires PullBounded(s.corrector.omegaP, gains)
    requires 0.0 <= s.corrector.errorRp <= 1.0
    ensures var (selection, held) := Selected(m, s, ins, motion, velocity, gains);
      var inp := CorrectionInputs(s, dcm, ins, motion, velocity, selection);
      var cycle := Correction(m, s.corrector, inp, gains, held);
      && BiasAccounted(cycle.state, gains.gyroDriftRate,
                       corrected + if cycle.outcome == Corrected then inp.raDeltat else 0.0)
      && PullBounded(cycle.state.omegaP, gains)
      && 0.0 <= cycle.state.errorRp <= 1.0
  {
    hide Libm.Lawful, Selected, Judged, Applied, CorrectionInputs, BiasAccounted, PullLimit, Vec.LengthSquared,
      Vec.Dot, PreselectionBounded;
    var (selection, held) := Selected(m, s, ins, motion, velocity, gains);
    var inp := CorrectionInputs(s, dcm, ins, motion, velocity, selection);
    InputFields(s, dcm, ins, motion, velocity, selection);
    CorrectionBias(m, s.corrector, inp, gains, held, corrected);
    if Correction(m, s.corrector, inp, gains, held).outcome == Corrected {
      AttemptPreselection(m, s, dcm, ins, motion, velocity, gains);
      CorrectedPull(m, s.corrector, inp, gains, held);
      FilteredErrorStep(m, s.corrector, inp, gains, held);
      SkewAtMost(dcm.matrix, gamma);
      SquareNonNegative(PullLimit(gains));
      ProductMonotone(1.0 + Abs(dcm.matrix.a.Dot(dcm.matrix.b)), 1.0625, Square(PullLimit(gains)));
    }
  }

  // ---- one tick ---------------------------------------------------------

  /** What drift correction can add to the turn rate once `seconds` of time have been corrected:
      the bias estimate, the roll and pitch pull and the yaw pull, each at its bound. */
  function CorrectionRate(gains: Gains, seconds: real): real {
    1.75 * Mul(Abs(gains.drift.gyroDriftRate), seconds)
    + 1.05 * PullLimit(gains.drift) + YawRuns.YawPullLimit(gains.yaw)
  }

  /** A tick whose measured turn, plus all that drift correction could add over its interval,
      stays within gamma. */
  ghost predicate WithinBudget(m: Libm, tick: Tick, gains: Gains, gamma: real, seconds: real) {
    tick.ins.deltaAngle.Some? && tick.ins.deltaAngle.value.1 > 0.0 ==>
      m.Length(tick.ins.deltaAngle.value.0) + Mul(CorrectionRate(gains, seconds), tick.ins.deltaAngle.value.1) <= gamma
  }

  lemma SmallLength(m: Libm, v: Vec, bound: real, factor: real, limit: real)
    requires m.Lawful() && 0.0 <= bound && 0.0 <= factor <= Square(limit) && 0.0 <= limit
    requires v.LengthSquared() <= Mul(factor, Square(bound))
    ensures m.Length(v) <= limit * bound
  {
    hide Vec.LengthSquared, Libm.Length, Libm.Lawful;
    LengthSpec(m, v);
    SquareNonNegative(bound);
    ProductMonotone(factor, Square(limit), Square(bound));
    assert Mul(Square(limit), Square(bound)) == Square(limit * bound);
    AbsProduct(limit, bound, limit, bound);
    assert 0.0 <= limit * bound;
    SquareOrder(m.Length(v), limit * bound);
  }

  lemma BiasLength(m: Libm, v: Vec, rate: real, seconds: real)
    requires m.Lawful() && WithinDrift(v, rate, seconds) && 0.0 <= seconds
    ensures m.Length(v) <= 1.75 * Mul(Abs(rate), seconds)
  {
    var limit := Mul(Abs(rate), seconds);
    AbsOfMul(rate, seconds);
    ComponentsBound(v, limit);
    SmallLength(m, v, limit, 3.0, 1.75);
  }

  lemma ComponentsBound(v: Vec, limit: real)
    requires Abs(v.x) <= limit && Abs(v.y) <= limit && Abs(v.z) <= limit
    ensures v.LengthSquared() <= Mul(3.0, Square(limit))
  {
    AbsProduct(v.x, v.x, limit, limit);
    AbsProduct(v.y, v.y, limit, limit);
    AbsProduct(v.z, v.z, limit, limit);
    assert v.LengthSquared() == Mul(v.x, v.x) + Mul(v.y, v.y) + Mul(v.z, v.z);
  }

  lemma VerticalLength(m: Libm, v: Vec)
    requires m.Lawful() && v.x == 0.0 && v.y == 0.0
    ensures m.Length(v) == Abs(v.z)
  {
    assert v.LengthSquared() == Square(Abs(v.z));
    LengthUnique(m, v, Abs(v.z));
  }

  lemma PullLimitPositive(gains: DriftGains)
    ensures PullLimit(gains) > 0.0
  {
  }

  /** The rotation a tick applies is its measured turn plus the corrections over its interval. */
  lemma RotationLength(m: Libm, angle: Vec, dt: real, i: Vec, p: Vec, y: Vec)
    requires m.Lawful() && dt > 0.0
    ensures m.Length(RotationVector(angle, dt, i, p, y))
         <= m.Length(angle) + Mul(m.Length(i) + m.Length(p) + m.Length(y), dt)
  {
    hide Vec.Plus, Vec.Times, Vec.Over, Libm.Length, Libm.Lawful, Vec.LengthSquared;
    var rate := angle.Over(dt);
    TriangleInequality(m, rate, i);
    TriangleInequality(m, rate.Plus(i), p);
    TriangleInequality(m, rate.Plus(i).Plus(p), y);
    var total := rate.Plus(i).Plus(p).Plus(y);
    ScaledLength(m, total, dt);
    OverIsTimes(angle, dt);
    ScaledLength(m, angle, 1.0 / dt);
    ProductMonotone(m.Length(total), m.Length(rate) + (m.Length(i) + m.Length(p) + m.Length(y)), dt);
    RateTimesInterval(m.Length(angle), m.Length(i) + m.Length(p) + m.Length(y), dt);
  }

  lemma RateTimesInterval(l: real, c: real, dt: real)
    requires dt > 0.0
    ensures 1.0 / dt > 0.0
    ensures Mul(Mul(1.0 / dt, l) + c, dt) == l + Mul(c, dt)
  {
    var i := 1.0 / dt;
    assert i * dt == 1.0;
    assert Mul(Mul(i, l) + c, dt) == l * (i * dt) + Mul(c, dt);
  }

  lemma TickTurn(m: Libm, v: Vehicle, tick: Tick, gains: Gains, gamma: real, corrected: real, seconds: real)
    requires m.Lawful() && 0.0 <= gamma && Safe(v, gains, gamma, corrected) && corrected <= seconds
    requires WithinBudget(m, tick, gains, gamma, seconds)
    ensures SampleRotation(tick.ins, DriftOmega(v.loop)).LengthSquared() <= Square(gamma)
  {
    hide NearRotation, Libm.Lawful, Libm.Length, PullLimit, YawRuns.YawPullLimit, Vec.LengthSquared, RotationVector,
      WithinDrift;
    if tick.ins.deltaAngle.Some? && tick.ins.deltaAngle.value.1 > 0.0 {
      var (angle, dt) := tick.ins.deltaAngle.value;
      var drift := DriftOmega(v.loop);
      var rate := gains.drift.gyroDriftRate;
      DriftMonotone(drift.omegaI, rate, corrected - v.loop.corrector.omegaISumTime, seconds);
      BiasLength(m, drift.omegaI, rate, seconds);
      PullLimitPositive(gains.drift);
      SmallLength(m, drift.omegaP, PullLimit(gains.drift), 1.0625, 1.05);
      VerticalLength(m, drift.omegaYawP);
      RotationLength(m, angle, dt, drift.omegaI, drift.omegaP, drift.omegaYawP);
      ProductMonotone(m.Length(drift.omegaI) + m.Length(drift.omegaP) + m.Length(drift.omegaYawP),
                      CorrectionRate(gains, seconds), dt);
      var g := SampleRotation(tick.ins, drift);
      LengthSpec(m, g);
      AbsProduct(m.Length(g), m.Length(g), gamma, gamma);
    } else {
      SquareNonNegative(gamma);
      ZeroTransposed(IDENTITY);
    }
  }

  /** One full tick keeps the joint invariant, and its matrix step is accepted. */
  lemma StepSafe(m: Libm, v: Vehicle, tick: Tick, gains: Gains, gamma: real, corrected: real, seconds: real)
    requires m.Lawful() && 0.0 <= gamma <= 0.5 && Safe(v, gains, gamma, corrected) && corrected <= seconds
    requires WithinBudget(m, tick, gains, gamma, seconds)
    ensures var result := Step(m, v, tick, gains);
      && result.health == Ok
      && Safe(result.vehicle, gains, gamma,
              corrected + if result.outcome == Corrected then BeforeAttempt(m, v, tick).raDeltat else 0.0)
  {
    hide Libm.Lawful, NearRotation, MatrixStep, BeforeAttempt, Attempt, YawCorrected, BiasAccounted, PullBounded,
      YawRuns.YawBounded, WithinBudget, HorizontalAcceleration, Vec.LengthSquared;
    var (dcm, health) := MatrixStep(m, v.dcm, tick.ins, DriftOmega(v.loop));
    TickTurn(m, v, tick, gains, gamma, corrected, seconds);
    AttitudeStepSafe(m, v.dcm, AttitudeEvent.Tick(tick.ins, DriftOmega(v.loop)), gamma);
    StepFields(m, v, tick, gains);
    var before := BeforeAttempt(m, v, tick);
    AttemptSafe(m, before, dcm, tick.ins, tick.motion, gains.drift, gamma, corrected);
    var attempted := Attempt(m, before, dcm, tick.ins, tick.motion, gains.drift).0;
    if tick.yaw.Some? {
      HorizontalNonNegative(m, dcm.matrix, tick.ins.accel);
      YawSafe(m, attempted, dcm, tick.yaw.value, HorizontalAcceleration(m, dcm.matrix, tick.ins.accel), gains, gamma);
      YawLeavesCorrector(m, attempted, dcm, tick.yaw.value, HorizontalAcceleration(m, dcm.matrix, tick.ins.accel),
                         gains,
                         corrected + if Step(m, v, tick, gains).outcome == Corrected then before.raDeltat else 0.0);
    }
  }

  lemma HorizontalNonNegative(m: Libm, matrix: Mat, accel: Vec)
    requires m.Lawful()
    ensures HorizontalAcceleration(m, matrix, accel) >= 0.0
  {
    var ef := matrix.Mul(accel);
    SquareNonNegative(ef.x);
    SquareNonNegative(ef.y);
    SqrtSpec(m, Square(ef.x) + Square(ef.y));
  }

  lemma YawSafe(m: Libm, s: LoopState, dcm: DcmState, yaw: YawUpdateInputs, accelEfXyMag: real, gains: Gains,
                gamma: real)
    requires m.Lawful() && NearRotation(dcm.matrix, gamma) && YawRuns.YawBounded(s.yaw, gains.yaw)
    requires accelEfXyMag >= 0.0
    ensures var (after, attitude) := YawCorrected(m, s, dcm, yaw, accelEfXyMag, gains.yaw);
      NearRotation(attitude.matrix, gamma) && YawRuns.YawBounded(after.yaw, gains.yaw)
  {
    hide Yaw.YawCorrection, YawRuns.YawBounded;
    var inp := YawInputs(m, s, dcm, yaw, accelEfXyMag);
    UnitComponents(dcm.matrix.c);
    YawRuns.YawStepBounded(m, s.yaw, inp, gains.yaw);
    var action := Yaw.YawCorrection(m, s.yaw, inp, gains.yaw).1.matrixAction;
    if action.ResetAttitude? {
      EulerIsRotation(m, action.roll, action.pitch, action.yaw);
      RotationIsNear(m.FromEuler(action.roll, action.pitch, action.yaw), gamma);
    }
  }

  lemma YawLeavesCorrector(m: Libm, s: LoopState, dcm: DcmState, yaw: YawUpdateInputs, accelEfXyMag: real,
                           gains: Gains, corrected: real)
    ensures var after := YawCorrected(m, s, dcm, yaw, accelEfXyMag, gains.yaw).0;
      && after.corrector.omegaP == s.corrector.omegaP
      && after.corrector.errorRp == s.corrector.errorRp
      && (BiasAccounted(s.corrector, gains.drift.gyroDriftRate, corrected) ==>
            BiasAccounted(after.corrector, gains.drift.gyroDriftRate, corrected))
  {
    hide Yaw.YawCorrection, YawInputs;
  }

  // ---- whole runs -------------------------------------------------------

  predicate AllHealthy(m: Libm, f: Flight, ticks: seq<Tick>, gains: Gains)
    decreases |ticks|
  {
    ticks != [] ==>
      Step(m, f.vehicle, ticks[0], gains).health == Ok && AllHealthy(m, Fly(m, f, ticks[0], gains), ticks[1..], gains)
  }

  lemma AddedTimeNonNegative(ins: InsReading, loopDt: real)
    requires 0.0 <= loopDt
    ensures 0.0 <= AddedTime(ins, loopDt)
  {
    var n := Contributors(ins, ins.AccelCount()) as real;
    ProductMonotone(0.0, n, loopDt);
  }

  /** The ledger with nothing owed: time only ever grows. */
  ghost predicate Forward(f: Flight) {
    Accounted(f) && 0.0 <= f.discarded && 0.0 <= f.vehicle.loop.raDeltat
  }

  lemma FlyForward(m: Libm, f: Flight, tick: Tick, gains: Gains)
    requires Forward(f) && 0.0 <= tick.loopDt
    ensures Forward(Fly(m, f, tick, gains)) && f.added <= Fly(m, f, tick, gains).added
  {
    hide MatrixStep, BeforeAttempt, AddedTime, Step, Attempt, Accounted;
    FlyAccounted(m, f, tick, gains);
    AddedTimeNonNegative(tick.ins, tick.loopDt);
    StepFields(m, f.vehicle, tick, gains);
    var dcm := MatrixStep(m, f.vehicle.dcm, tick.ins, DriftOmega(f.vehicle.loop)).0;
    AttemptAccumulators(m, BeforeAttempt(m, f.vehicle, tick), dcm, tick.ins, tick.motion, gains.drift);
  }

  lemma {:induction false} AddedGrows(m: Libm, f: Flight, ticks: seq<Tick>, gains: Gains)
    requires Forward(f) && forall i :: 0 <= i < |ticks| ==> 0.0 <= ticks[i].loopDt
    ensures f.added <= FlyAll(m, f, ticks, gains).added
    decreases |ticks|
  {
    hide Fly, Forward;
    if ticks == [] {
    } else {
      FlyForward(m, f, ticks[0], gains);
      AddedGrows(m, Fly(m, f, ticks[0], gains), ticks[1..], gains);
    }
  }

  /** Closed-loop safety. Take any run of ticks whose intervals are not negative and whose
      measured turns leave room, up to gamma <= 1/2, for the corrections possible in `horizon`
      seconds of accumulation. From a safe start every matrix step is accepted, the attitude stays
      within gamma^4 of orthogonality, the bias estimate stays within the drift rate times the
      corrected time, and both proportional terms and both filtered errors stay in bounds. */
  lemma {:induction false} ClosedLoopSafe(m: Libm, f: Flight, ticks: seq<Tick>, gains: Gains, gamma: real,
                                          horizon: real)
    requires m.Lawful() && 0.0 <= gamma <= 0.5
    requires Safe(f.vehicle, gains, gamma, f.corrected) && Forward(f)
    requires forall i :: 0 <= i < |ticks| ==>
      0.0 <= ticks[i].loopDt && WithinBudget(m, ticks[i], gains, gamma, horizon)
    requires FlyAll(m, f, ticks, gains).added <= horizon
    ensures AllHealthy(m, f, ticks, gains)
    ensures var end := FlyAll(m, f, ticks, gains);
      Safe(end.vehicle, gains, gamma, end.corrected) && end.corrected <= end.added
    decreases |ticks|
  {
    hide Libm.Lawful, Safe, WithinBudget, Fly, Step, BeforeAttempt;
    if ticks == [] {
    } else {
      AddedGrows(m, f, ticks, gains);
      StepSafe(m, f.vehicle, ticks[0], gains, gamma, f.corrected, horizon);
      FlyIsStep(m, f, ticks[0], gains);
      FlyForward(m, f, ticks[0], gains);
      ClosedLoopSafe(m, Fly(m, f, ticks[0], gains), ticks[1..], gains, gamma, horizon);
    }
  }

  lemma FlyIsStep(m: Libm, f: Flight, tick: Tick, gains: Gains)
    ensures var result := Step(m, f.vehicle, tick, gains);
      && Fly(m, f, tick, gains).vehicle == result.vehicle
      && Fly(m, f, tick, gains).corrected
         == f.corrected + if result.outcome == Corrected then BeforeAttempt(m, f.vehicle, tick).raDeltat else 0.0
  {
    hide Step, BeforeAttempt;
  }

  /** A newly built estimator is a safe start. */
  lemma FreshIsSafe(v: Vehicle, gains: Gains, gamma: real)
    requires v.dcm.matrix == IDENTITY && v.loop == FRESH_LOOP
    ensures Safe(v, gains, gamma, 0.0)
    ensures Forward(Flight(v, 0.0, 0.0, 0.0))
  {
    hide Safe, BiasAccounted, YawRuns.YawBounded, RightHanded;
    IdentityRotation();
    FreshBias(gains.drift.gyroDriftRate);
    FreshYawBounded(gains.yaw);
    StillIsSafe(v, gains, gamma, 0.0);
  }

  lemma StillIsSafe(v: Vehicle, gains: Gains, gamma: real, corrected: real)
    requires RightHanded(v.dcm.matrix) && BiasAccounted(v.loop.corrector, gains.drift.gyroDriftRate, corrected)
    requires v.loop.corrector.omegaP == ZERO && v.loop.corrector.errorRp == 0.0
    requires YawRuns.YawBounded(v.loop.yaw, gains.yaw)
    ensures Safe(v, gains, gamma, corrected)
  {
    hide NearRotation, BiasAccounted, PullBounded, YawRuns.YawBounded, RightHanded;
    RotationIsNear(v.dcm.matrix, gamma);
    NoPullBounded(gains.drift);
  }

  lemma NoPullBounded(gains: DriftGains)
    ensures PullBounded(ZERO, gains)
  {
    hide PullLimit, Mul, Square, Vec.LengthSquared;
    SquareNonNegative(PullLimit(gains));
    MulNonNegative(1.0625, Square(PullLimit(gains)));
    ZeroTransposed(IDENTITY);
  }

  lemma FreshBias(rate: real)
    ensures BiasAccounted(FRESH_DRIFT, rate, 0.0)
  {
  }

  lemma FreshYawBounded(gains: Yaw.YawDriftGains)
    ensures YawRuns.YawBounded(Yaw.FRESH_YAW, gains)
  {
  }
}
