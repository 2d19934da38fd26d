/** When the centrifugal correction keeps a turn from being read as an attitude error, and when it
    does not. */
module Centrifugal {
  import opened Vectors
  import opened MathLibrary
  import opened Wrappers
  import opened DcmMatrix
  import opened DcmLoop
  import opened MultiAccel
  import opened Drift
  import opened DriftBounds
  import opened WindEstimation
  import opened DriftLoop
  import opened LoopRuns
  import opened SelectionRuns
  import opened BodyFrame
  import opened ClosedLoop
  import opened Alignment

  // ---- directions -------------------------------------------------------

  /** Exact readings over `t` real seconds in which the velocity changed by `dv`: the change, less what
      gravity would have added. */
  predicate ExactSum(sum: Vec, dv: Vec, t: real) {
    sum == Vec(dv.x, dv.y, dv.z - Mul(GRAVITY_MSS, t))
  }

  /** The correction takes the seconds for what they are, up to the GPS gain; or no horizontal change
      was there to be corrected for. */
  predicate Compensated(dv: Vec, gpsGain: real, t: real, seconds: real) {
    seconds == Mul(gpsGain, t) || (dv.x == 0.0 && dv.y == 0.0)
  }

  lemma TimesZeroIff(v: Vec, k: real)
    requires k != 0.0
    ensures v.Times(k) == ZERO <==> v == ZERO
  {
    hide Vec.Times, Mul;
    TimesParts(v, k);
    MulZeroIff(v.x, k);
    MulZeroIff(v.y, k);
    MulZeroIff(v.z, k);
  }

  lemma MulZeroIff(x: real, k: real)
    requires k != 0.0
    ensures Mul(x, k) == 0.0 <==> x == 0.0
  {
    if x != 0.0 {
      ProductPositive(x, k);
      ProductPositive(x, -k);
      assert Mul(x, -k) == -Mul(x, k);
    }
  }

  lemma NormalizedScale(m: Libm, v: Vec) returns (k: real)
    requires m.Normalized(v).Some?
    ensures k != 0.0 && m.Normalized(v).value == v.Times(k)
  {
    hide Vec.Times, Vec.Over, Libm.Length;
    var length := m.Length(v);
    OverIsTimes(v, length);
    k := 1.0 / length;
    assert k * length == 1.0;
  }

  /** Two directions have no cross product exactly when the vectors they came from have none. */
  lemma DirectionsParallelIff(m: Libm, u: Vec, v: Vec)
    requires m.Normalized(u).Some? && m.Normalized(v).Some?
    ensures m.Normalized(u).value.Cross(m.Normalized(v).value) == ZERO <==> u.Cross(v) == ZERO
  {
    hide Vec.Cross, Vec.Times, Libm.Normalized;
    var j := NormalizedScale(m, u);
    var k := NormalizedScale(m, v);
    ScalingKeepsParallel(u, j, v, k);
  }

  lemma ScalingKeepsParallel(u: Vec, j: real, v: Vec, k: real)
    requires j != 0.0 && k != 0.0
    ensures u.Times(j).Cross(v.Times(k)) == ZERO <==> u.Cross(v) == ZERO
  {
    hide Vec.Cross, Vec.Times;
    CrossScaled(u, j, v, k);
    NonZeroProduct(j, k);
    TimesZeroIff(u.Cross(v), j * k);
  }

  lemma NonZeroProduct(j: real, k: real)
    requires j != 0.0 && k != 0.0
    ensures j * k != 0.0
  {
    MulZeroIff(j, k);
  }

  /** Gravity tilted by a velocity change, before it is made a direction. */
  function TiltedGravity(dv: Vec, scale: real): Vec {
    Vec(0.0, 0.0, -1.0).Plus(dv.Times(scale))
  }

  /** The same in metres per second. */
  lemma TiltScaled(dv: Vec, gpsGain: real, seconds: real)
    requires seconds > 0.0
    ensures var scale := RaScale(seconds);
      && scale != 0.0
      && TiltedGravity(dv, Mul(gpsGain, scale))
         == Vec(Mul(gpsGain, dv.x), Mul(gpsGain, dv.y), Mul(gpsGain, dv.z) - Mul(GRAVITY_MSS, seconds)).Times(scale)
  {
    hide Vec.Times, Mul;
    var scale := RaScale(seconds);
    UnitScale(seconds);
    var q := Vec(Mul(gpsGain, dv.x), Mul(gpsGain, dv.y), Mul(gpsGain, dv.z) - Mul(GRAVITY_MSS, seconds));
    TimesParts(dv, Mul(gpsGain, scale));
    TimesParts(q, scale);
    Regrouped(dv.x, gpsGain, scale);
    Regrouped(dv.y, gpsGain, scale);
    Regrouped(dv.z, gpsGain, scale);
    MulMinus(Mul(gpsGain, dv.z), Mul(GRAVITY_MSS, seconds), scale);
  }

  lemma UnitScale(seconds: real)
    requires seconds > 0.0
    ensures RaScale(seconds) != 0.0 && Mul(Mul(GRAVITY_MSS, seconds), RaScale(seconds)) == 1.0
  {
    var d := Mul(seconds, GRAVITY_MSS);
    MulSymmetric(seconds, GRAVITY_MSS);
    var k := 1.0 / d;
    assert k * d == 1.0;
    MulSymmetric(k, d);
  }

  lemma Regrouped(x: real, j: real, k: real)
    ensures Mul(x, Mul(j, k)) == Mul(Mul(j, x), k)
  {
  }

  lemma MulMinus(x: real, y: real, k: real)
    ensures Mul(x - y, k) == Mul(x, k) - Mul(y, k)
  {
  }

  /** The measured and the expected vector are parallel exactly when the change was compensated. */
  lemma LeansAlike(dv: Vec, gpsGain: real, t: real, seconds: real)
    ensures var measured := Vec(dv.x, dv.y, dv.z - Mul(GRAVITY_MSS, t));
      var expected := Vec(Mul(gpsGain, dv.x), Mul(gpsGain, dv.y), Mul(gpsGain, dv.z) - Mul(GRAVITY_MSS, seconds));
      measured.Cross(expected) == ZERO <==> Compensated(dv, gpsGain, t, seconds)
  {
    hide Vec.Cross, Mul;
    var measured := Vec(dv.x, dv.y, dv.z - Mul(GRAVITY_MSS, t));
    var expected := Vec(Mul(gpsGain, dv.x), Mul(gpsGain, dv.y), Mul(gpsGain, dv.z) - Mul(GRAVITY_MSS, seconds));
    CrossParts(measured, expected);
    Lean(dv.y, dv.z, gpsGain, t, seconds);
    Lean(dv.x, dv.z, gpsGain, t, seconds);
    MulExchange(dv.x, gpsGain, dv.y);
    LeanZeroIff(dv.x, Mul(gpsGain, t), seconds);
    LeanZeroIff(dv.y, Mul(gpsGain, t), seconds);
  }

  lemma Lean(d: real, z: real, k: real, t: real, seconds: real)
    ensures Mul(d, Mul(k, z) - Mul(GRAVITY_MSS, seconds)) - Mul(z - Mul(GRAVITY_MSS, t), Mul(k, d))
         == Mul(d, Mul(GRAVITY_MSS, Mul(k, t) - seconds))
  {
    assert d * (k * z - GRAVITY_MSS * seconds) == d * (k * z) - GRAVITY_MSS * (d * seconds);
    assert (z - GRAVITY_MSS * t) * (k * d) == d * (k * z) - GRAVITY_MSS * (t * (k * d));
    assert d * (GRAVITY_MSS * (k * t - seconds)) == GRAVITY_MSS * (d * (k * t)) - GRAVITY_MSS * (d * seconds);
    assert t * (k * d) == d * (k * t);
  }

  lemma MulExchange(x: real, k: real, y: real)
    ensures Mul(x, Mul(k, y)) == Mul(y, Mul(k, x))
  {
  }

  lemma LeanZeroIff(d: real, kt: real, seconds: real)
    ensures Mul(d, Mul(GRAVITY_MSS, kt - seconds)) == 0.0 <==> d == 0.0 || kt == seconds
  {
    var lean := GRAVITY_MSS * (kt - seconds);
    if kt != seconds {
      assert lean != 0.0;
      MulZeroIff(d, lean);
    }
  }

  // ---- what a cycle reads -----------------------------------------------

  /** The error direction x reference, without the delay line: it vanishes exactly when the change of
      velocity was compensated. */
  lemma ErrorVanishesIff(m: Libm, sum: Vec, dv: Vec, gpsGain: real, t: real, seconds: real)
    requires seconds > 0.0 && ExactSum(sum, dv, t)
    requires m.Normalized(sum.Times(RaScale(seconds))).Some?
    requires GravityReference(m, Some(dv), Mul(gpsGain, RaScale(seconds))).Some?
    ensures m.Normalized(sum.Times(RaScale(seconds))).value
              .Cross(GravityReference(m, Some(dv), Mul(gpsGain, RaScale(seconds))).value) == ZERO
      <==> Compensated(dv, gpsGain, t, seconds)
  {
    hide Vec.Cross, Vec.Times, Vec.Plus, Libm.Normalized, RaScale, Mul, Compensated;
    var scale := RaScale(seconds);
    var tilted := TiltedGravity(dv, Mul(gpsGain, scale));
    var expected := Vec(Mul(gpsGain, dv.x), Mul(gpsGain, dv.y), Mul(gpsGain, dv.z) - Mul(GRAVITY_MSS, seconds));
    DirectionsParallelIff(m, sum.Times(scale), tilted);
    TiltScaled(dv, gpsGain, seconds);
    ScalingKeepsParallel(sum, scale, expected, scale);
    LeansAlike(dv, gpsGain, t, seconds);
  }

  /** A cycle on exact readings over `t` seconds, without the delay line and recomputing its error:
      it reads the vehicle's acceleration as an attitude error exactly unless its seconds are the real
      ones, or the change of velocity was vertical. */
  lemma TurnReadIff(m: Libm, inp: DriftInputs, gains: DriftGains, buffer: Vec, dv: Vec, t: real)
    requires inp.velocityDelta == Some(dv) && ExactSum(inp.raSum, dv, t)
    requires !inp.usingGpsCorrections && inp.preselectedError == None
    requires Judged(m, inp, gains, buffer).outcome == Corrected
    ensures Judged(m, inp, gains, buffer).errorEf == ZERO <==> Compensated(dv, gains.gpsGain, t, inp.raDeltat)
  {
    hide Vec.Cross, Vec.Times, Libm.Normalized, IsZeroVec, GravityReference, RaScale, Mul, Compensated, ErrorMagnitude;
    ErrorVanishesIff(m, inp.raSum, dv, gains.gpsGain, t, inp.raDeltat);
  }

  lemma TransposeZeroIff(r: Mat, v: Vec)
    requires NormalRows(r)
    ensures r.MulTranspose(v) == ZERO <==> v == ZERO
  {
    hide NormalRows, Mat.MulTranspose, Mat.Mul, Mat.Det, Skew, Mul, Square, Vec.Dot, Vec.LengthSquared;
    ZeroTransposed(r);
    if r.MulTranspose(v) == ZERO {
      DetOfSkew(r);
      ThereAndBack(r, v);
      MulOfZero(r);
      MixedZero(Skew(r), v.x, v.y);
    }
  }

  lemma MulOfZero(r: Mat)
    ensures r.Mul(ZERO) == ZERO
  {
  }

  lemma MixedZero(e: real, x: real, y: real)
    requires -1.0 < e < 1.0 && x + Mul(e, y) == 0.0 && Mul(e, x) + y == 0.0
    ensures x == 0.0 && y == 0.0
  {
    UnmixDefined(e);
    var q := e * y;
    assert x == -q;
    assert e * x == -(e * q) && e * q == (e * e) * y;
    assert y * (1.0 - e * e) == y - (e * e) * y;
    MulZeroIff(y, 1.0 - Square(e));
  }

  /** The attempt of a healthy vehicle without GPS, on whichever accelerometer it selected: the pull
      is zero exactly when the change of velocity was compensated. With n contributing accelerometers
      the accumulated seconds are n times the real ones, so a turn is read as an attitude error. */
  lemma TurnPullsIff(m: Libm, s: LoopState, dcm: DcmState, ins: InsReading, motion: DriftMotionInputs,
                     velocity: Option<Vec>, gains: DriftGains, dv: Vec, t: real)
    requires m.Lawful() && NormalRows(dcm.matrix) && ins.gyroHealthy && ins.AccelHealthy()
    requires !UsesLag(s, motion) && VelocityDelta(s, motion, velocity) == Some(dv)
    requires var selection := Selected(m, s, ins, motion, velocity, gains).0;
      selection.Some? && ExactSum(PrimarySum(s, selection), dv, t)
    requires Attempted(m, s, dcm, ins, motion, velocity, gains).1 == Corrected
    ensures Attempted(m, s, dcm, ins, motion, velocity, gains).0.corrector.omegaP == ZERO
      <==> Compensated(dv, gains.gpsGain, t, s.raDeltat)
  {
    hide Libm.Lawful, Libm.Normalized, NormalRows, Selected, Attempted, VelocityDelta, GravityReference,
      LoopReference, ScoredDirection, Applied, ProportionalTerm, PullGain, Mat.MulTranspose, Vec.Cross, Vec.Times,
      RaScale, Mul, Compensated, IsZeroVec;
    CorrectedAttempt(m, s, dcm, ins, motion, velocity, gains);
    var selection := Selected(m, s, ins, motion, velocity, gains).0.value;
    SelectionSharesReference(m, Some(dv), gains.gpsGain, s.raDeltat);
    ScoredError(m, s, ins, motion, velocity, gains);
    ScoredOnSum(m, s, ins, motion, velocity, gains);
    ErrorVanishesIff(m, PrimarySum(s, Some(selection)), dv, gains.gpsGain, t, s.raDeltat);
    PullZeroIff(m, s.corrector, selection.errorEf, selection.bestError,
                CorrectionInputs(s, dcm, ins, motion, velocity, Some(selection)), gains);
  }

  /** Without the delay line the selected instance was scored on its own sum. */
  lemma ScoredOnSum(m: Libm, s: LoopState, ins: InsReading, motion: DriftMotionInputs, velocity: Option<Vec>,
                    gains: DriftGains)
    requires !UsesLag(s, motion) && s.raDeltat > 0.0
    requires Selected(m, s, ins, motion, velocity, gains).0.Some?
    ensures var selection := Selected(m, s, ins, motion, velocity, gains).0;
      var scored := ScoredDirection(m, s, ins, motion, velocity, gains);
      && ins.AccelUsable(selection.value.activeInstance)
      && (scored.Some? ==> scored == m.Normalized(PrimarySum(s, selection).Times(RaScale(s.raDeltat))))
  {
    hide Libm.Normalized, IsZeroVec, Vec.Cross, Vec.Times, Vec.Dot, LoopReference, VelocityDelta, RaScale, Mul;
    var gaE := LoopReference(m, VelocityDelta(s, motion, velocity), Mul(gains.gpsGain, LoopScale(s.raDeltat)));
    var measured := Measured(s.raSum, ins.AccelUsable, LoopScale(s.raDeltat), false, s.lag, ins.AccelCount()).0;
    MeasuredWithoutGps(s.raSum, ins.AccelUsable, LoopScale(s.raDeltat), s.lag, ins.AccelCount());
    BestIsArgmin(m, measured, gaE, ins.AccelCount());
  }

  // ---- with the delay line ----------------------------------------------

  /** Two changes of velocity at the same rate: `was` over `t` real seconds, and `dv` over the seconds the
      corrector takes it to cover, up to the GPS gain. */
  predicate SameRate(was: Vec, t: real, dv: Vec, gpsGain: real, seconds: real) {
    && Mul(seconds, was.x) == Mul(Mul(gpsGain, t), dv.x)
    && Mul(seconds, was.y) == Mul(Mul(gpsGain, t), dv.y)
  }

  lemma LevelLeansAlike(was: Vec, t: real, dv: Vec, gpsGain: real, seconds: real)
    requires was.z == 0.0 && dv.z == 0.0 && seconds > 0.0
    ensures var measured := Vec(was.x, was.y, was.z - Mul(GRAVITY_MSS, t));
      var expected := Vec(Mul(gpsGain, dv.x), Mul(gpsGain, dv.y), Mul(gpsGain, dv.z) - Mul(GRAVITY_MSS, seconds));
      measured.Cross(expected) == ZERO <==> SameRate(was, t, dv, gpsGain, seconds)
  {
    hide Vec.Cross, Mul;
    var measured := Vec(was.x, was.y, was.z - Mul(GRAVITY_MSS, t));
    var expected := Vec(Mul(gpsGain, dv.x), Mul(gpsGain, dv.y), Mul(gpsGain, dv.z) - Mul(GRAVITY_MSS, seconds));
    CrossParts(measured, expected);
    MulSymmetric(gpsGain, 0.0);
    ZeroTimesAny(gpsGain);
    LevelLean(was.x, t, dv.x, gpsGain, seconds);
    LevelLean(was.y, t, dv.y, gpsGain, seconds);
    if SameRate(was, t, dv, gpsGain, seconds) {
      Proportional(was.x, was.y, dv.x, dv.y, gpsGain, t, seconds);
    }
  }

  lemma LevelLean(was: real, t: real, d: real, k: real, seconds: real)
    ensures Mul(was, 0.0 - Mul(GRAVITY_MSS, seconds)) - Mul(0.0 - Mul(GRAVITY_MSS, t), Mul(k, d)) == 0.0
      <==> Mul(seconds, was) == Mul(Mul(k, t), d)
    ensures Mul(0.0 - Mul(GRAVITY_MSS, t), Mul(k, d)) - Mul(was, 0.0 - Mul(GRAVITY_MSS, seconds)) == 0.0
      <==> Mul(seconds, was) == Mul(Mul(k, t), d)
  {
    var p, q := seconds * was, (k * t) * d;
    assert was * (0.0 - GRAVITY_MSS * seconds) == -(GRAVITY_MSS * p);
    assert (0.0 - GRAVITY_MSS * t) * (k * d) == -(GRAVITY_MSS * q);
  }

  lemma Proportional(x: real, y: real, x': real, y': real, k: real, t: real, seconds: real)
    requires seconds > 0.0
    requires Mul(seconds, x) == Mul(Mul(k, t), x') && Mul(seconds, y) == Mul(Mul(k, t), y')
    ensures Mul(x, Mul(k, y')) - Mul(y, Mul(k, x')) == 0.0
  {
    var p, q := Mul(x, Mul(k, y')), Mul(y, Mul(k, x'));
    assert seconds * p == Mul(seconds, x) * (k * y');
    assert seconds * q == Mul(seconds, y) * (k * x');
    assert Mul(Mul(k, t), x') * (k * y') == Mul(Mul(k, t), y') * (k * x');
    SameFactor(p, q, seconds);
  }

  /** A level turn on one accelerometer with GPS: the vector scored is the one the line held, from an
      earlier cycle on exact readings over `t` seconds. The pull is zero exactly when the velocity
      changed at the same rate in both cycles, so the delay is harmless in a steady acceleration and
      not in a turn. */
  lemma LevelTurnPullsIff(m: Libm, s: LoopState, dcm: DcmState, ins: InsReading, motion: DriftMotionInputs,
                          velocity: Option<Vec>, gains: DriftGains, k: nat, was: Vec, t: real, scale: real, dv: Vec)
    requires m.Lawful() && NormalRows(dcm.matrix) && ins.gyroHealthy && ins.AccelHealthy()
    requires OnlyUsable(ins, k) && UsesLag(s, motion) && VelocityDelta(s, motion, velocity) == Some(dv)
    requires was.z == 0.0 && dv.z == 0.0
    requires scale != 0.0 && s.lag == Vec(was.x, was.y, was.z - Mul(GRAVITY_MSS, t)).Times(scale) && !IsZeroVec(s.lag)
    requires !IsZeroVec(s.raSum[k].Times(LoopScale(s.raDeltat)))
    requires Attempted(m, s, dcm, ins, motion, velocity, gains).1 == Corrected
    ensures Attempted(m, s, dcm, ins, motion, velocity, gains).0.corrector.omegaP == ZERO
      <==> SameRate(was, t, dv, gains.gpsGain, s.raDeltat)
  {
    hide Libm.Lawful, Libm.Normalized, NormalRows, Selected, Attempted, VelocityDelta, LoopReference, Applied,
      ProportionalTerm, PullGain, Mat.MulTranspose, Vec.Cross, Vec.Times, Vec.Plus, RaScale, Mul, SameRate,
      IsZeroVec;
    SelectsDelayed(m, s, ins, motion, velocity, gains, k, s.raSum[k].Times(LoopScale(s.raDeltat)));
    CorrectedAttempt(m, s, dcm, ins, motion, velocity, gains);
    var selection := Selected(m, s, ins, motion, velocity, gains).0.value;
    var tiltScale := Mul(gains.gpsGain, RaScale(s.raDeltat));
    SelectionSharesReference(m, Some(dv), gains.gpsGain, s.raDeltat);
    var measured := Vec(was.x, was.y, was.z - Mul(GRAVITY_MSS, t));
    var expected := Vec(Mul(gains.gpsGain, dv.x), Mul(gains.gpsGain, dv.y),
                        Mul(gains.gpsGain, dv.z) - Mul(GRAVITY_MSS, s.raDeltat));
    NonZeroNormalizes(m, s.lag);
    DirectionsParallelIff(m, s.lag, TiltedGravity(dv, tiltScale));
    TiltScaled(dv, gains.gpsGain, s.raDeltat);
    ScalingKeepsParallel(measured, scale, expected, RaScale(s.raDeltat));
    LevelLeansAlike(was, t, dv, gains.gpsGain, s.raDeltat);
    PullZeroIff(m, s.corrector, selection.errorEf, selection.bestError,
                CorrectionInputs(s, dcm, ins, motion, velocity, Some(selection)), gains);
  }

  /** A healthy correction leaves no pull exactly when its error was zero. */
  lemma PullZeroIff(m: Libm, c: DriftState, errorEf: Vec, bestError: real, inp: DriftInputs, gains: DriftGains)
    requires inp.insHealthy && NormalRows(inp.dcmMatrix)
    ensures Applied(m, c, errorEf, bestError, inp, gains).omegaP == ZERO <==> errorEf == ZERO
  {
    hide Applied, ProportionalTerm, PullGain, Mat.MulTranspose, NormalRows, Vec.Times;
    AppliedPull(m, c, errorEf, bestError, inp, gains);
    PullIsGain(m, inp.dcmMatrix.MulTranspose(errorEf), inp.omega, gains);
    PullGainPositive(m, inp.omega, gains);
    TimesZeroIff(inp.dcmMatrix.MulTranspose(errorEf), PullGain(m, inp.omega, gains));
    TransposeZeroIff(inp.dcmMatrix, errorEf);
  }

  // ---- how the seconds come about ---------------------------------------

  /** A tick adds its own interval exactly when it is empty or one accelerometer contributes. */
  lemma AddsOwnIntervalIff(ins: InsReading, loopDt: real)
    ensures AddedTime(ins, loopDt) == loopDt <==> loopDt == 0.0 || Contributors(ins, ins.AccelCount()) == 1
  {
    var n := Contributors(ins, ins.AccelCount());
    assert Mul(n as real, loopDt) - loopDt == Mul(n as real - 1.0, loopDt);
    if loopDt != 0.0 {
      MulZeroIff(n as real - 1.0, loopDt);
    }
  }

  function Elapsed(ticks: seq<Tick>): real {
    if ticks == [] then 0.0 else Elapsed(ticks[..|ticks| - 1]) + ticks[|ticks| - 1].loopDt
  }

  /** While ticks wait with `n` accelerometers contributing, the pending seconds grow `n` times as fast
      as the clock. */
  lemma {:induction false} PendingSeconds(m: Libm, v: Vehicle, ticks: seq<Tick>, gains: Gains, n: nat, k: nat)
    requires k <= |ticks|
    requires forall i :: 0 <= i < k ==>
      && Waits(BeforeAttempt(m, VehicleAt(m, v, ticks, gains, i), ticks[i]), ticks[i].motion)
      && Contributors(ticks[i].ins, ticks[i].ins.AccelCount()) == n
    ensures VehicleAt(m, v, ticks, gains, k).loop.raDeltat == v.loop.raDeltat + Mul(n as real, Elapsed(ticks[..k]))
  {
    hide Step, BeforeAttempt, Waits, MatrixStep, Contributors, Mul;
    if k == 0 {
      MulSymmetric(n as real, 0.0);
      ZeroTimesAny(n as real);
    } else {
      PendingSeconds(m, v, ticks, gains, n, k - 1);
      WaitingTick(m, VehicleAt(m, v, ticks, gains, k - 1), ticks[k - 1], gains);
      assert ticks[..k][..k - 1] == ticks[..k - 1];
      MulAdds(n as real, Elapsed(ticks[..k - 1]), ticks[k - 1].loopDt);
    }
  }

  lemma WaitingTick(m: Libm, v: Vehicle, tick: Tick, gains: Gains)
    requires Waits(BeforeAttempt(m, v, tick), tick.motion)
    ensures Step(m, v, tick, gains).vehicle.loop.raDeltat == v.loop.raDeltat + AddedTime(tick.ins, tick.loopDt)
  {
    hide Step, BeforeAttempt, MatrixStep, AddedTime, Waits, AttemptWith, Prepared;
    StepFields(m, v, tick, gains);
  }

  /** At unit GPS gain, seconds that run `n` times too fast compensate a horizontal change only for
      n = 1. */
  lemma CompensatedOnlyByOne(dv: Vec, t: real, n: nat)
    requires t > 0.0
    ensures Compensated(dv, 1.0, t, Mul(n as real, t)) <==> n == 1 || (dv.x == 0.0 && dv.y == 0.0)
  {
    OneTimes(t);
    if n != 1 {
      assert Mul(n as real, t) - t == Mul(n as real - 1.0, t);
      MulZeroIff(n as real - 1.0, t);
    }
  }

  // ---- a level turn -----------------------------------------------------

  /** A second of level turn at constant speed, its nose swung by the angle whose sine is 3/5; or the
      fix before it. Every working accelerometer reads the turn exactly. */
  function TurnTick(turning: bool, second: bool): Tick {
    var reading := Some((if turning then Vec(2.0, 6.0, -GRAVITY_MSS) else Vec(0.0, 0.0, -GRAVITY_MSS), 1.0));
    Tick.Tick(InsReading(if turning then Some((Vec(0.0, 0.0, 0.75), 1.0)) else None, ZERO, ZERO,
                         [AccelReading(true, reading), AccelReading(second, reading), NO_ACCEL], 2, 0, true),
              1.0, None,
              DriftMotionInputs(0, if turning then None else Some(Vec(10.0, 0.0, 0.0)), !turning, !turning, true,
                                10.0, 1.0, false, true, None, None))
  }

  /** A fix heading north at ten metres a second, then GPS is lost and the vehicle turns. */
  function TurnTicks(second: bool): seq<Tick> { [TurnTick(false, second), TurnTick(true, second)] }

  const TURNED := Mat(Vec(0.8, -0.6, 0.0), Vec(0.6, 0.8, 0.0), Vec(0.0, 0.0, 1.0))

  lemma TurnFix(m: Libm, gains: Gains, second: bool)
    requires m.Lawful()
    ensures var v := Step(m, NEW_VEHICLE, TurnTick(false, second), gains).vehicle;
      && v.dcm.matrix == IDENTITY && v.loop.raDeltat == 0.0 && v.loop.raSum == CLEARED_SUMS
      && v.loop.velocityInitialized && v.loop.lastVelocity == Vec(10.0, 0.0, 0.0) && v.loop.wind.wind == ZERO
      && v.loop.corrector == FRESH_DRIFT && v.loop.yaw == Yaw.FRESH_YAW
  {
    hide Libm.Lawful, MatrixStep, Accumulated, AddedTime, Attempted, RaScale, Vec.Times, Mat.Mul, Positioned;
    LevelStays(m, NEW_VEHICLE, TurnTick(false, second), gains);
  }

  /** The first-order rotation by 3/4 of a radian, renormalised, is an exact 3-4-5 turn. */
  lemma TurnRotates(m: Libm, s: DcmState, drift: DcmDriftOmega, second: bool)
    requires m.Lawful() && s.matrix == IDENTITY && drift == DcmDriftOmega(ZERO, ZERO, ZERO)
    ensures MatrixStep(m, s, TurnTick(true, second).ins, drift).0.matrix == TURNED
  {
    hide Libm.Lawful, Normalization, RotationVector, Mat.Rotate;
    TurnVector();
    RotatedRows();
    TurnNormalizes(m, Update(s, TurnTick(true, second).ins.deltaAngle, ZERO, ZERO, ZERO, ZERO));
  }

  const TURNING := Mat(Vec(1.0, -0.75, 0.0), Vec(0.75, 1.0, 0.0), Vec(0.0, 0.0, 1.0))

  lemma TurnNormalizes(m: Libm, s: DcmState)
    requires m.Lawful() && s.matrix == TURNING
    ensures Normalization(m, s).0.matrix == TURNED
  {
    hide Libm.Lawful, Libm.Length, Tilted, Vec.Times, Vec.LengthSquared, Square, Tallied;
    TiltedRows();
    TiltedLengths();
    ScaledRows();
    LengthUnique(m, Vec(1.0, -0.75, 0.0), 1.25);
    LengthUnique(m, Vec(0.75, 1.0, 0.0), 1.25);
    LengthUnique(m, Vec(0.0, 0.0, 1.5625), 1.5625);
  }

  lemma TurnVector()
    ensures RotationVector(Vec(0.0, 0.0, 0.75), 1.0, ZERO, ZERO, ZERO) == Vec(0.0, 0.0, 0.75)
  {
  }

  lemma RotatedRows()
    ensures IDENTITY.Rotate(Vec(0.0, 0.0, 0.75)) == TURNING
  {
    hide Vec.Cross, Vec.Plus;
    RowTurns(1.0, 0.0, 0.0);
    RowTurns(0.0, 1.0, 0.0);
    RowTurns(0.0, 0.0, 1.0);
  }

  lemma RowTurns(x: real, y: real, z: real)
    ensures Vec(x, y, z).Plus(Vec(x, y, z).Cross(Vec(0.0, 0.0, 0.75))) == Vec(x + 0.75 * y, y - 0.75 * x, z)
  {
  }

  lemma TiltedRows()
    ensures Tilted(TURNING) == Mat(Vec(1.0, -0.75, 0.0), Vec(0.75, 1.0, 0.0), Vec(0.0, 0.0, 1.5625))
  {
    hide Vec.Dot, Vec.Cross, Vec.Times, Vec.Minus;
    TurnDot();
    TurnCross();
    LessNothing(TURNING.a, TURNING.b);
    LessNothing(TURNING.b, TURNING.a);
  }

  lemma LessNothing(u: Vec, v: Vec)
    ensures u.Minus(v.Times(0.0)) == u
  {
  }

  lemma TurnDot()
    ensures Vec(1.0, -0.75, 0.0).Dot(Vec(0.75, 1.0, 0.0)) == 0.0
  {
  }

  lemma TurnCross()
    ensures Vec(1.0, -0.75, 0.0).Cross(Vec(0.75, 1.0, 0.0)) == Vec(0.0, 0.0, 1.5625)
  {
  }

  lemma TiltedLengths()
    ensures Vec(1.0, -0.75, 0.0).LengthSquared() == Square(1.25)
    ensures Vec(0.75, 1.0, 0.0).LengthSquared() == Square(1.25)
    ensures Vec(0.0, 0.0, 1.5625).LengthSquared() == Square(1.5625)
  {
  }

  lemma ScaledRows()
    ensures Vec(1.0, -0.75, 0.0).Times(1.0 / 1.25) == TURNED.a
    ensures Vec(0.75, 1.0, 0.0).Times(1.0 / 1.25) == TURNED.b
    ensures Vec(0.0, 0.0, 1.5625).Times(1.0 / 1.5625) == TURNED.c
  {
  }

  /** The readings of the turning tick in earth frame, and what the vehicle makes of them. */
  lemma TurnReadings(second: bool)
    ensures var ins := TurnTick(true, second).ins;
      var sums := Accumulated(CLEARED_SUMS, TURNED, ins, 1.0);
      && (forall i :: 0 <= i < ins.AccelCount() && ins.AccelUsable(i) ==> sums[i] == Vec(-2.0, 6.0, -GRAVITY_MSS))
      && AddedTime(ins, 1.0) == (if second then 2.0 else 1.0)
      && ins.AccelCount() == 2 && ins.AccelUsable(0) && ins.AccelHealthy()
  {
    hide Mat.Mul, Vec.Over, Vec.Times;
    TurnedReading();
    var ins := TurnTick(true, second).ins;
    assert Contributors(ins, 2) == Contributors(ins, 1) + if Contributes(ins, 1) then 1 else 0;
    assert Contributors(ins, 1) == 1;
  }

  lemma TurnedReading()
    ensures ZERO.Plus(TURNED.Mul(Vec(2.0, 6.0, -GRAVITY_MSS).Over(1.0)).Times(1.0)) == Vec(-2.0, 6.0, -GRAVITY_MSS)
  {
    assert Vec(2.0, 6.0, -GRAVITY_MSS).Over(1.0) == Vec(2.0, 6.0, -GRAVITY_MSS);
    assert TURNED.Mul(Vec(2.0, 6.0, -GRAVITY_MSS)) == Vec(-2.0, 6.0, -GRAVITY_MSS);
  }

  lemma TurnVelocity()
    ensures GroundVelocityNoGps(ZERO, TURNED.ColX(), 10.0) == Vec(8.0, 6.0, 0.0)
    ensures Vec(8.0, 6.0, 0.0).Minus(Vec(10.0, 0.0, 0.0)) == Vec(-2.0, 6.0, 0.0)
  {
    hide Vec.Times;
    TenTimes(0.8, 0.6);
  }

  lemma TenTimes(x: real, y: real)
    ensures Vec(x, y, 0.0).Times(10.0) == Vec(10.0 * x, 10.0 * y, 0.0)
  {
  }

  /** Without the delay line an attempt with a scored instance and a reference corrects. */
  lemma CorrectsOnSum(m: Libm, s: LoopState, dcm: DcmState, ins: InsReading, motion: DriftMotionInputs,
                      velocity: Option<Vec>, gains: DriftGains, i: nat)
    requires m.Lawful() && !UsesLag(s, motion) && s.raDeltat > 0.0
    requires i < ins.AccelCount() && ins.AccelUsable(i) && !IsZeroVec(s.raSum[i].Times(RaScale(s.raDeltat)))
    requires GravityReference(m, VelocityDelta(s, motion, velocity), Mul(gains.gpsGain, RaScale(s.raDeltat))).Some?
    ensures Selected(m, s, ins, motion, velocity, gains).0.Some?
    ensures Attempted(m, s, dcm, ins, motion, velocity, gains).1 == Corrected
  {
    hide Libm.Lawful, Libm.Normalized, IsZeroVec, Vec.Cross, Vec.Times, Vec.Dot, LoopReference, GravityReference,
      VelocityDelta, RaScale, Applied, Mul;
    var gaE := LoopReference(m, VelocityDelta(s, motion, velocity), Mul(gains.gpsGain, LoopScale(s.raDeltat)));
    var measured := Measured(s.raSum, ins.AccelUsable, LoopScale(s.raDeltat), false, s.lag, ins.AccelCount()).0;
    MeasuredWithoutGps(s.raSum, ins.AccelUsable, LoopScale(s.raDeltat), s.lag, ins.AccelCount());
    NonZeroNormalizes(m, s.raSum[i].Times(RaScale(s.raDeltat)));
    BestIsArgmin(m, measured, gaE, ins.AccelCount());
    assert GravityError(m, measured[i], gaE).Some?;
  }

  /** The loop state the turning tick attempts its correction on. */
  lemma TurnAttempt(m: Libm, v: Vehicle, second: bool)
    requires m.Lawful() && v.dcm.matrix == IDENTITY && v.loop.raDeltat == 0.0 && v.loop.raSum == CLEARED_SUMS
    requires v.loop.velocityInitialized && v.loop.lastVelocity == Vec(10.0, 0.0, 0.0) && v.loop.wind.wind == ZERO
    requires v.loop.corrector == FRESH_DRIFT && v.loop.yaw == Yaw.FRESH_YAW
    ensures var tick := TurnTick(true, second);
      var dcm := MatrixStep(m, v.dcm, tick.ins, DriftOmega(v.loop)).0;
      var s := BeforeAttempt(m, v, tick);
      && dcm.matrix == TURNED
      && s.raDeltat == (if second then 2.0 else 1.0) && s.velocityInitialized && !s.haveGpsLock
      && s.raSum == Accumulated(CLEARED_SUMS, TURNED, tick.ins, 1.0)
      && OfferedVelocity(s.wind, dcm.matrix, tick.motion) == Some(Vec(8.0, 6.0, 0.0))
      && VelocityDelta(s, tick.motion, Some(Vec(8.0, 6.0, 0.0))) == Some(Vec(-2.0, 6.0, 0.0))
  {
    hide Libm.Lawful, MatrixStep, Accumulated, AddedTime, Positioned, Vec.Minus, Vec.Times, Mat.ColX, Estimated,
      GroundVelocityNoGps;
    TurnRotates(m, v.dcm, DriftOmega(v.loop), second);
    TurnReadings(second);
    TurnVelocity();
  }

  lemma TurnReference(m: Libm, scale: real)
    requires m.Lawful()
    ensures GravityReference(m, Some(Vec(-2.0, 6.0, 0.0)), scale).Some?
  {
    hide Libm.Normalized, Libm.Lawful;
    NonZeroNormalizes(m, Vec(0.0, 0.0, -1.0).Plus(Vec(-2.0, 6.0, 0.0).Times(scale)));
  }

  lemma TurnSumShows(seconds: real)
    requires seconds == 1.0 || seconds == 2.0
    ensures !IsZeroVec(Vec(-2.0, 6.0, -GRAVITY_MSS).Times(RaScale(seconds)))
  {
    hide RaScale;
    UnitScale(seconds);
    var z := -GRAVITY_MSS * RaScale(seconds);
    assert z * seconds == -1.0;
  }

  lemma TurnExact()
    ensures ExactSum(Vec(-2.0, 6.0, -GRAVITY_MSS), Vec(-2.0, 6.0, 0.0), 1.0)
  {
  }

  /** From a newly built estimator: a fix, then a second of level turn without GPS, every reading exact.
      With one accelerometer the turn leaves no pull. With a second one that reads the same, it does. */
  lemma TurnRun(m: Libm, gains: Gains, second: bool)
    requires m.Lawful() && gains.drift.gpsGain == 1.0
    ensures var v := VehicleAt(m, NEW_VEHICLE, TurnTicks(second), gains, 1);
      var result := Step(m, v, TurnTicks(second)[1], gains);
      result.outcome == Corrected && (result.vehicle.loop.corrector.omegaP == ZERO <==> !second)
  {
    hide Libm.Lawful, MatrixStep, BeforeAttempt, Step, Attempted, Accumulated, AddedTime, Selected, GravityReference,
      VelocityDelta, OfferedVelocity, NormalRows, RaScale, IsZeroVec, Vec.Times, Vec.Dot, Vec.Cross, Mul, VehicleAt,
      RightHanded, Compensated, ExactSum;
    var tick := TurnTick(true, second);
    NextVehicle(m, NEW_VEHICLE, TurnTicks(second), gains, 0);
    var v := VehicleAt(m, NEW_VEHICLE, TurnTicks(second), gains, 1);
    TurnFix(m, gains, second);
    TurnAttempt(m, v, second);
    TurnReadings(second);
    var dcm := MatrixStep(m, v.dcm, tick.ins, DriftOmega(v.loop)).0;
    var s := BeforeAttempt(m, v, tick);
    var velocity := Some(Vec(8.0, 6.0, 0.0));
    TurnReference(m, Mul(1.0, RaScale(s.raDeltat)));
    TurnSumShows(s.raDeltat);
    CorrectsOnSum(m, s, dcm, tick.ins, tick.motion, velocity, gains.drift, 0);
    ScoredOnSum(m, s, tick.ins, tick.motion, velocity, gains.drift);
    TurnExact();
    TurnedIsRotation();
    RotationIsNormal(TURNED);
    StepFields(m, v, tick, gains);
    DuplicateCallsHarmless(m, v, tick, gains);
    TickPull(m, v, tick, gains);
    TurnPullsIff(m, s, dcm, tick.ins, tick.motion, velocity, gains.drift, Vec(-2.0, 6.0, 0.0), 1.0);
    CompensatedOnlyByOne(Vec(-2.0, 6.0, 0.0), 1.0, if second then 2 else 1);
    OneTimes(1.0);
    assert Mul(2.0, 1.0) == 2.0 by { MulSymmetric(2.0, 1.0); OneTimes(2.0); }
  }

  lemma TurnedIsRotation()
    ensures RightHanded(TURNED)
  {
  }
}
