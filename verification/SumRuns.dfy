/** What the earth-frame sums hold after a wait, and what exact readings make of them. */
module SumRuns {
  import opened Vectors
  import opened MathLibrary
  import opened Wrappers
  import opened DcmLoop
  import opened Drift
  import opened DriftLoop
  import opened LoopRuns
  import opened BodyFrame
  import opened Alignment
  import opened Centrifugal

  // ---- one tick ---------------------------------------------------------

  /** What one slot adds to its sum: the velocity change it read, in earth frame, scaled from its own
      interval to the tick's. A slot that is not usable, has no reading or an interval that is not
      positive adds nothing. */
  function Added(matrix: Mat, reading: AccelReading, loopDt: real): Vec {
    if !reading.usable || reading.deltaVelocity == None || reading.deltaVelocity.value.1 <= 0.0 then ZERO
    else matrix.Mul(reading.deltaVelocity.value.0).Times(loopDt / reading.deltaVelocity.value.1)
  }

  /** The attitude a tick reads its accelerometers in. */
  function TickMatrix(m: Libm, v: Vehicle, tick: Tick): Mat {
    MatrixStep(m, v.dcm, tick.ins, DriftOmega(v.loop)).0.matrix
  }

  /** Each registered instance's sum grows by what it adds; the others stay. */
  lemma SumGrows(m: Libm, v: Vehicle, tick: Tick, i: nat)
    requires i < INS_MAX_INSTANCES
    ensures BeforeAttempt(m, v, tick).raSum[i]
         == v.loop.raSum[i].Plus(if i < tick.ins.AccelCount()
                                 then Added(TickMatrix(m, v, tick), tick.ins.accels[i], tick.loopDt) else ZERO)
  {
    hide MatrixStep, WindUpdated, AddedTime, Positioned, OfferedVelocity, Mat.Mul, Vec.Times, Vec.Over;
    var reading := tick.ins.accels[i];
    NothingMore(v.loop.raSum[i]);
    if Contributes(tick.ins, i) {
      ScaledReading(TickMatrix(m, v, tick), reading.deltaVelocity.value.0, reading.deltaVelocity.value.1, tick.loopDt);
    }
  }

  lemma NothingMore(v: Vec)
    ensures v.Plus(ZERO) == v
  {
  }

  lemma ScaledReading(r: Mat, v: Vec, dt: real, loopDt: real)
    requires dt > 0.0
    ensures r.Mul(v.Over(dt)).Times(loopDt) == r.Mul(v).Times(loopDt / dt)
  {
    hide Mat.Mul, Vec.Times, Vec.Over;
    OverIsTimes(v, dt);
    MulTimes(r, v, 1.0 / dt);
    TimesTwice(r.Mul(v), 1.0 / dt, loopDt);
    Ratio(dt, loopDt);
  }

  lemma Ratio(dt: real, loopDt: real)
    requires dt > 0.0
    ensures Mul(1.0 / dt, loopDt) == loopDt / dt
  {
  }

  // ---- over a wait ------------------------------------------------------

  /** Tick `t` of a run waits for its correction. */
  predicate WaitsAt(m: Libm, v: Vehicle, ticks: seq<Tick>, gains: Gains, t: nat)
    requires t < |ticks|
  {
    Waits(BeforeAttempt(m, VehicleAt(m, v, ticks, gains, t), ticks[t]), ticks[t].motion)
  }

  /** The sum of what instance `i` added over the first `k` ticks of a run. */
  function AddedOver(m: Libm, v: Vehicle, ticks: seq<Tick>, gains: Gains, i: nat, k: nat): Vec
    requires k <= |ticks| && i < INS_MAX_INSTANCES
  {
    if k == 0 then ZERO
    else
      var (here, tick) := (VehicleAt(m, v, ticks, gains, k - 1), ticks[k - 1]);
      AddedOver(m, v, ticks, gains, i, k - 1).Plus(
        if i < tick.ins.AccelCount() then Added(TickMatrix(m, here, tick), tick.ins.accels[i], tick.loopDt) else ZERO)
  }

  lemma WaitKeeps(m: Libm, v: Vehicle, tick: Tick, gains: Gains)
    requires Waits(BeforeAttempt(m, v, tick), tick.motion)
    ensures var (s, after) := (BeforeAttempt(m, v, tick), Step(m, v, tick, gains).vehicle.loop);
      after.raSum == s.raSum && after.raDeltat == s.raDeltat && after.velocityInitialized == s.velocityInitialized
  {
    hide Step, BeforeAttempt, MatrixStep, AddedTime, Waits, AttemptWith, Prepared;
    StepFields(m, v, tick, gains);
  }

  /** Over ticks that wait, the sums accumulate: each ends at its start plus everything added. */
  lemma {:induction false} SumsAccumulate(m: Libm, v: Vehicle, ticks: seq<Tick>, gains: Gains, i: nat, k: nat)
    requires k <= |ticks| && i < INS_MAX_INSTANCES
    requires forall t :: 0 <= t < k ==> WaitsAt(m, v, ticks, gains, t)
    ensures VehicleAt(m, v, ticks, gains, k).loop.raSum[i]
         == v.loop.raSum[i].Plus(AddedOver(m, v, ticks, gains, i, k))
  {
    hide Step, BeforeAttempt, Waits, MatrixStep, Added;
    if k == 0 {
      NothingMore(v.loop.raSum[i]);
    } else {
      SumsAccumulate(m, v, ticks, gains, i, k - 1);
      assert WaitsAt(m, v, ticks, gains, k - 1);
      var (here, tick) := (VehicleAt(m, v, ticks, gains, k - 1), ticks[k - 1]);
      WaitKeeps(m, here, tick, gains);
      SumGrows(m, here, tick, i);
      var more := if i < tick.ins.AccelCount() then Added(TickMatrix(m, here, tick), tick.ins.accels[i], tick.loopDt)
          else ZERO;
      PlusRegroups(v.loop.raSum[i], AddedOver(m, v, ticks, gains, i, k - 1), more);
    }
  }

  // ---- exact readings ---------------------------------------------------

  /** Gravity, which an accelerometer does not feel. */
  const GRAVITY := Vec(0.0, 0.0, GRAVITY_MSS)

  /** A slot reads exactly while the velocity goes from `from` to `to` over the tick: at the acceleration
      that takes it there, less gravity, over an interval of its own. */
  ghost predicate ReadsExactly(matrix: Mat, reading: AccelReading, loopDt: real, from: Vec, to: Vec) {
    && reading.usable && reading.deltaVelocity.Some? && reading.deltaVelocity.value.1 > 0.0
    && exists felt: Vec :: FeltOver(matrix, reading.deltaVelocity.value, loopDt, from, to, felt)
  }

  predicate FeltOver(matrix: Mat, reading: (Vec, real), loopDt: real, from: Vec, to: Vec, felt: Vec) {
    && matrix.Mul(reading.0) == felt.Times(reading.1)
    && to == from.Plus(felt.Plus(GRAVITY).Times(loopDt))
  }

  /** An exact slot adds the change of velocity, less what gravity added to it. */
  lemma ExactAdds(matrix: Mat, reading: AccelReading, loopDt: real, from: Vec, to: Vec)
    requires ReadsExactly(matrix, reading, loopDt, from, to)
    ensures Added(matrix, reading, loopDt) == to.Minus(from).Minus(GRAVITY.Times(loopDt))
  {
    hide Mat.Mul, Vec.Times, FeltOver;
    var (change, dt) := reading.deltaVelocity.value;
    var felt :| FeltOver(matrix, (change, dt), loopDt, from, to, felt);
    FeltParts(matrix, change, dt, loopDt, from, to, felt);
    TimesTwice(felt, dt, loopDt / dt);
    OwnInterval(dt, loopDt);
    TimesParts(felt, loopDt);
    TimesParts(GRAVITY, loopDt);
    TimesParts(felt.Plus(GRAVITY), loopDt);
    SumOut(felt.x, GRAVITY.x, loopDt);
    SumOut(felt.y, GRAVITY.y, loopDt);
    SumOut(felt.z, GRAVITY.z, loopDt);
  }

  lemma FeltParts(matrix: Mat, change: Vec, dt: real, loopDt: real, from: Vec, to: Vec, felt: Vec)
    requires FeltOver(matrix, (change, dt), loopDt, from, to, felt)
    ensures matrix.Mul(change) == felt.Times(dt) && to == from.Plus(felt.Plus(GRAVITY).Times(loopDt))
  {
  }

  lemma OwnInterval(dt: real, loopDt: real)
    requires dt > 0.0
    ensures Mul(dt, loopDt / dt) == loopDt
  {
  }

  /** Instance `i` is registered and exact on tick `t` while the velocity goes through `speeds`. */
  ghost predicate ExactAt(m: Libm, v: Vehicle, ticks: seq<Tick>, gains: Gains, i: nat, speeds: seq<Vec>, t: nat)
    requires t < |ticks| && t + 1 < |speeds| && i < INS_MAX_INSTANCES
  {
    && i < ticks[t].ins.AccelCount()
    && ReadsExactly(TickMatrix(m, VehicleAt(m, v, ticks, gains, t), ticks[t]), ticks[t].ins.accels[i], ticks[t].loopDt,
                    speeds[t], speeds[t + 1])
  }

  /** Exact readings telescope: over `k` ticks they add the total change of velocity, less gravity over the
      elapsed time. */
  lemma {:induction false} ExactOver(m: Libm, v: Vehicle, ticks: seq<Tick>, gains: Gains, i: nat, speeds: seq<Vec>,
                                     k: nat)
    requires k <= |ticks| && k < |speeds| && i < INS_MAX_INSTANCES
    requires forall t :: 0 <= t < k ==> ExactAt(m, v, ticks, gains, i, speeds, t)
    ensures ExactSum(AddedOver(m, v, ticks, gains, i, k), speeds[k].Minus(speeds[0]), Elapsed(ticks[..k]))
  {
    hide Step, MatrixStep, Added, ReadsExactly, Vec.Times, Mul;
    if k == 0 {
      MulSymmetric(GRAVITY_MSS, 0.0);
      ZeroTimesAny(GRAVITY_MSS);
    } else {
      ExactOver(m, v, ticks, gains, i, speeds, k - 1);
      assert ExactAt(m, v, ticks, gains, i, speeds, k - 1);
      var (here, tick) := (VehicleAt(m, v, ticks, gains, k - 1), ticks[k - 1]);
      ExactAdds(TickMatrix(m, here, tick), tick.ins.accels[i], tick.loopDt, speeds[k - 1], speeds[k]);
      assert ticks[..k][..k - 1] == ticks[..k - 1];
      TimesParts(GRAVITY, tick.loopDt);
      ZeroTimesAny(tick.loopDt);
      MulAdds(GRAVITY_MSS, Elapsed(ticks[..k - 1]), tick.loopDt);
    }
  }

  /** So an attempt at the end of a wait that started empty finds exact sums. */
  lemma ExactAttempt(m: Libm, v: Vehicle, ticks: seq<Tick>, gains: Gains, i: nat, speeds: seq<Vec>)
    requires ticks != [] && |speeds| == |ticks| + 1 && i < INS_MAX_INSTANCES
    requires v.loop.raSum[i] == ZERO
    requires forall t :: 0 <= t < |ticks| - 1 ==> WaitsAt(m, v, ticks, gains, t)
    requires forall t :: 0 <= t < |ticks| ==> ExactAt(m, v, ticks, gains, i, speeds, t)
    ensures var last := |ticks| - 1;
      ExactSum(BeforeAttempt(m, VehicleAt(m, v, ticks, gains, last), ticks[last]).raSum[i],
               speeds[last + 1].Minus(speeds[0]), Elapsed(ticks))
  {
    hide Step, BeforeAttempt, MatrixStep, Added, ReadsExactly, Vec.Times, Vec.Plus, Vec.Minus, Waits, ExactSum,
      Elapsed, AddedOver, VehicleAt, TickMatrix;
    var last := |ticks| - 1;
    SumsAccumulate(m, v, ticks, gains, i, last);
    assert ExactAt(m, v, ticks, gains, i, speeds, last);
    NextAdded(m, v, ticks, gains, i, last);
    SumGrows(m, VehicleAt(m, v, ticks, gains, last), ticks[last], i);
    ExactOver(m, v, ticks, gains, i, speeds, last + 1);
    assert ticks[..last + 1] == ticks;
    FromNothing(AddedOver(m, v, ticks, gains, i, last));
  }

  lemma NextAdded(m: Libm, v: Vehicle, ticks: seq<Tick>, gains: Gains, i: nat, k: nat)
    requires k < |ticks| && i < INS_MAX_INSTANCES && i < ticks[k].ins.AccelCount()
    ensures AddedOver(m, v, ticks, gains, i, k + 1)
         == AddedOver(m, v, ticks, gains, i, k).Plus(
              Added(TickMatrix(m, VehicleAt(m, v, ticks, gains, k), ticks[k]), ticks[k].ins.accels[i], ticks[k].loopDt))
  {
    hide Added, TickMatrix, VehicleAt, Vec.Plus;
  }

  lemma FromNothing(v: Vec)
    ensures ZERO.Plus(v) == v
  {
  }

  /** A turn flown over a whole wait. A vehicle starts empty at a known velocity; every usable
      accelerometer reads exactly on every tick, and `n` of them contribute; the last tick corrects
      without GPS, by the velocity it then has. Its pull is zero exactly when `n` times the elapsed time
      is the GPS gain times it, or the velocity changed vertically only. */
  lemma WaitPullsIff(m: Libm, v: Vehicle, ticks: seq<Tick>, gains: Gains, speeds: seq<Vec>, n: nat)
    requires m.Lawful() && ticks != [] && |speeds| == |ticks| + 1
    requires v.loop.raSum == CLEARED_SUMS && v.loop.raDeltat == 0.0
    requires var last := |ticks| - 1;
      var (here, tick) := (VehicleAt(m, v, ticks, gains, last), ticks[last]);
      var (dcm, s) := (MatrixStep(m, here.dcm, tick.ins, DriftOmega(here.loop)).0, BeforeAttempt(m, here, tick));
      var velocity := OfferedVelocity(s.wind, dcm.matrix, tick.motion);
      && NormalRows(dcm.matrix) && tick.ins.gyroHealthy && tick.ins.AccelHealthy() && !tick.motion.haveGps
      && Step(m, here, tick, gains).outcome == Corrected
      && Selected(m, s, tick.ins, tick.motion, velocity, gains.drift).0.Some?
      && VelocityDelta(s, tick.motion, velocity) == Some(speeds[last + 1].Minus(speeds[0]))
    requires forall t :: 0 <= t < |ticks| - 1 ==> WaitsAt(m, v, ticks, gains, t)
    requires forall t :: 0 <= t < |ticks| ==> Contributors(ticks[t].ins, ticks[t].ins.AccelCount()) == n
    requires forall t, i :: 0 <= t < |ticks| && 0 <= i < INS_MAX_INSTANCES && ticks[|ticks| - 1].ins.AccelUsable(i) ==>
      ExactAt(m, v, ticks, gains, i, speeds, t)
    ensures var last := |ticks| - 1;
      Step(m, VehicleAt(m, v, ticks, gains, last), ticks[last], gains).vehicle.loop.corrector.omegaP == ZERO
      <==> Compensated(speeds[last + 1].Minus(speeds[0]), gains.drift.gpsGain, Elapsed(ticks),
                       Mul(n as real, Elapsed(ticks)))
  {
    hide Libm.Lawful, Step, BeforeAttempt, MatrixStep, ReadsExactly, Vec.Times, Waits, ExactSum, NormalRows,
      Selected, OfferedVelocity, VelocityDelta, Attempted, Compensated, Mul, ExactAt, Contributors, AddedTime;
    var last := |ticks| - 1;
    var (here, tick) := (VehicleAt(m, v, ticks, gains, last), ticks[last]);
    var (dcm, s) := (MatrixStep(m, here.dcm, tick.ins, DriftOmega(here.loop)).0, BeforeAttempt(m, here, tick));
    var velocity := OfferedVelocity(s.wind, dcm.matrix, tick.motion);
    StepFields(m, here, tick, gains);
    DuplicateCallsHarmless(m, here, tick, gains);
    TickPull(m, here, tick, gains);
    WaitSeconds(m, v, ticks, gains, n);
    NoLock(m, here, tick);
    CorrectedAttempt(m, s, dcm, tick.ins, tick.motion, velocity, gains.drift);
    ScoredOnSum(m, s, tick.ins, tick.motion, velocity, gains.drift);
    var best := Selected(m, s, tick.ins, tick.motion, velocity, gains.drift).0.value.activeInstance;
    assert tick.ins.AccelUsable(best);
    ExactAttempt(m, v, ticks, gains, best, speeds);
    TurnPullsIff(m, s, dcm, tick.ins, tick.motion, velocity, gains.drift, speeds[last + 1].Minus(speeds[0]),
                 Elapsed(ticks));
  }

  lemma NoLock(m: Libm, v: Vehicle, tick: Tick)
    requires !tick.motion.haveGps
    ensures !UsesLag(BeforeAttempt(m, v, tick), tick.motion)
  {
  }

  lemma WaitSeconds(m: Libm, v: Vehicle, ticks: seq<Tick>, gains: Gains, n: nat)
    requires ticks != [] && v.loop.raDeltat == 0.0
    requires forall t :: 0 <= t < |ticks| - 1 ==> WaitsAt(m, v, ticks, gains, t)
    requires forall t :: 0 <= t < |ticks| ==> Contributors(ticks[t].ins, ticks[t].ins.AccelCount()) == n
    ensures var last := |ticks| - 1;
      BeforeAttempt(m, VehicleAt(m, v, ticks, gains, last), ticks[last]).raDeltat == Mul(n as real, Elapsed(ticks))
  {
    hide Step, BeforeAttempt, Waits, MatrixStep, Contributors, Mul;
    var last := |ticks| - 1;
    forall t | 0 <= t < last
      ensures Waits(BeforeAttempt(m, VehicleAt(m, v, ticks, gains, t), ticks[t]), ticks[t].motion)
    {
      assert WaitsAt(m, v, ticks, gains, t);
    }
    PendingSeconds(m, v, ticks, gains, n, last);
    StepFields(m, VehicleAt(m, v, ticks, gains, last), ticks[last], gains);
    MulAdds(n as real, Elapsed(ticks[..last]), ticks[last].loopDt);
  }
}
