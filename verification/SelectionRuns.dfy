/** How the selected accelerometer and the delay line meet the corrector. */
module SelectionRuns {
  import opened Vectors
  import opened MathLibrary
  import opened Wrappers
  import opened DcmMatrix
  import opened DcmLoop
  import opened MultiAccel
  import opened GpsLag
  import opened Drift
  import opened DriftLoop
  import opened LoopRuns

  // ---- without GPS ------------------------------------------------------

  lemma {:induction false} MeasuredWithoutGps(raSum: seq<Vec>, healthy: nat -> bool, scale: real, buffer: Vec, n: nat)
    requires n <= |raSum|
    ensures var (measured, held) := Measured(raSum, healthy, scale, false, buffer, n);
      && held == buffer
      && forall i :: 0 <= i < n ==> measured[i] == if healthy(i) then Some(raSum[i].Times(scale)) else None
  {
    hide Vec.Times;
    if n == 0 {
    } else {
      MeasuredWithoutGps(raSum, healthy, scale, buffer, n - 1);
    }
  }

  /** With GPS corrections off, `select` returns the lowest-numbered healthy instance with a usable
      sum whose gravity error is shortest, and nothing exactly when there is none. */
  lemma SelectsArgmin(m: Libm, raSum: seq<Vec>, healthy: nat -> bool, scale: real, gaE: Vec, buffer: Vec, n: nat)
    requires n <= |raSum|
    ensures var selection := Selection(m, Measured(raSum, healthy, scale, false, buffer, n).0, gaE);
      && (selection == None <==> forall i :: 0 <= i < n ==> !Usable(m, raSum, healthy, scale, i))
      && (selection.Some? ==>
            var best := selection.value.activeInstance;
            && best < n && Usable(m, raSum, healthy, scale, best)
            && selection.value.errorEf == UsableError(m, raSum, healthy, scale, gaE, best)
            && forall i :: 0 <= i < n && Usable(m, raSum, healthy, scale, i) ==>
                 var least := m.Length(UsableError(m, raSum, healthy, scale, gaE, best));
                 var length := m.Length(UsableError(m, raSum, healthy, scale, gaE, i));
                 least <= length && (i < best ==> least < length))
  {
    hide Vec.Times, Vec.Cross, Vec.Dot, Libm.Length, Libm.Normalized, IsZeroVec;
    var measured := Measured(raSum, healthy, scale, false, buffer, n).0;
    MeasuredWithoutGps(raSum, healthy, scale, buffer, n);
    BestIsArgmin(m, measured, gaE, n);
    forall i | 0 <= i < n
      ensures GravityError(m, measured[i], gaE).Some? <==> Usable(m, raSum, healthy, scale, i)
      ensures Usable(m, raSum, healthy, scale, i) ==>
        && GravityError(m, measured[i], gaE).value == UsableError(m, raSum, healthy, scale, gaE, i)
        && ErrorLength(m, measured[i], gaE) == m.Length(UsableError(m, raSum, healthy, scale, gaE, i))
    {
    }
  }

  /** Instance `i` is healthy and its scaled sum points somewhere. */
  predicate Usable(m: Libm, raSum: seq<Vec>, healthy: nat -> bool, scale: real, i: nat)
    requires i < |raSum|
  {
    healthy(i) && Direction(m, raSum[i].Times(scale)).Some?
  }

  function UsableError(m: Libm, raSum: seq<Vec>, healthy: nat -> bool, scale: real, gaE: Vec, i: nat): Vec
    requires i < |raSum| && Usable(m, raSum, healthy, scale, i)
  {
    Direction(m, raSum[i].Times(scale)).value.Cross(gaE)
  }

  /** Without the delay line, an attempt that selects records the lowest-numbered usable instance whose
      gravity error is shortest; one that selects none leaves the record alone. */
  lemma ActiveIsArgmin(m: Libm, s: LoopState, dcm: DcmState, ins: InsReading, motion: DriftMotionInputs,
                       velocity: Option<Vec>, gains: DriftGains)
    requires !UsesLag(s, motion)
    ensures var (active, scale) := (Attempted(m, s, dcm, ins, motion, velocity, gains).0.activeAccelInstance,
                                    LoopScale(s.raDeltat));
      var gaE := LoopReference(m, VelocityDelta(s, motion, velocity), Mul(gains.gpsGain, scale));
      if forall i :: 0 <= i < ins.AccelCount() ==> !Usable(m, s.raSum, ins.AccelUsable, scale, i)
      then active == s.activeAccelInstance
      else
        && 0 <= active < ins.AccelCount() && Usable(m, s.raSum, ins.AccelUsable, scale, active)
        && forall i :: 0 <= i < ins.AccelCount() && Usable(m, s.raSum, ins.AccelUsable, scale, i) ==>
             var least := m.Length(UsableError(m, s.raSum, ins.AccelUsable, scale, gaE, active));
             var length := m.Length(UsableError(m, s.raSum, ins.AccelUsable, scale, gaE, i));
             least <= length && (i < active ==> least < length)
  {
    hide Usable, UsableError, Libm.Length, LoopReference, VelocityDelta, LoopScale, Mul, Selection, Measured,
      Correction, CorrectionInputs;
    var scale := LoopScale(s.raDeltat);
    var gaE := LoopReference(m, VelocityDelta(s, motion, velocity), Mul(gains.gpsGain, scale));
    SelectsArgmin(m, s.raSum, ins.AccelUsable, scale, gaE, s.lag, ins.AccelCount());
  }

  /** With GPS corrections off, handing `correct` the winner's sum together with the error it was
      selected on gives the same outcome, state and delay line as letting it recompute the error. */
  lemma PreselectionAgrees(m: Libm, c: DriftState, inp: DriftInputs, gains: DriftGains, buffer: Vec,
                           raSum: seq<Vec>, healthy: nat -> bool, n: nat, gaE: Vec)
    requires n <= |raSum| && inp.raDeltat > 0.0 && !inp.usingGpsCorrections
    requires var reference := GravityReference(m, inp.velocityDelta, Mul(gains.gpsGain, RaScale(inp.raDeltat)));
      reference.Some? ==> gaE == reference.value
    requires var selection := Selection(m, Measured(raSum, healthy, RaScale(inp.raDeltat), false, buffer, n).0, gaE);
      && selection.Some? && inp.preselectedError == selection
      && inp.raSum == raSum[selection.value.activeInstance]
    ensures Correction(m, c, inp, gains, buffer) == Correction(m, c, inp.(preselectedError := None), gains, buffer)
  {
    hide Vec.Times, Vec.Cross, Vec.Dot, Libm.Length, Libm.Normalized, IsZeroVec, RaScale, GravityReference, Applied,
      Mul;
    var scale := RaScale(inp.raDeltat);
    MeasuredWithoutGps(raSum, healthy, scale, buffer, n);
    BestIsArgmin(m, Measured(raSum, healthy, scale, false, buffer, n).0, gaE, n);
    AppliedIgnoresPreselection(m, c, inp, gains);
  }

  lemma AppliedIgnoresPreselection(m: Libm, c: DriftState, inp: DriftInputs, gains: DriftGains)
    ensures forall errorEf, bestError ::
      Applied(m, c, errorEf, bestError, inp, gains)
      == Applied(m, c, errorEf, bestError, inp.(preselectedError := None), gains)
  {
    hide Flushed, Summed, ProportionalTerm, Mat.MulTranspose;
  }

  // ---- with GPS: one cycle of delay -------------------------------------

  /** Instance `k` is the only usable one. */
  predicate OnlyUsable(ins: InsReading, k: nat) {
    k < ins.AccelCount() && forall i :: 0 <= i < ins.AccelCount() ==> (ins.AccelUsable(i) <==> i == k)
  }

  lemma {:induction false} MeasuredAlone(raSum: seq<Vec>, ins: InsReading, scale: real, buffer: Vec, k: nat, n: nat)
    requires n <= ins.AccelCount() && ins.AccelCount() <= |raSum| && OnlyUsable(ins, k)
    ensures var (measured, held) := Measured(raSum, ins.AccelUsable, scale, true, buffer, n);
      && held == (if k < n then raSum[k].Times(scale) else buffer)
      && forall i :: 0 <= i < n ==>
           measured[i] == if i == k then Some(Delayed(buffer, raSum[k].Times(scale))) else None
  {
    hide Vec.Times, Delayed;
    if n == 0 {
    } else {
      MeasuredAlone(raSum, ins, scale, buffer, k, n - 1);
    }
  }

  /** A tick that runs a GPS-referenced correction attempt on accelerometer `k` alone. */
  ghost predicate GpsCycle(m: Libm, v: Vehicle, tick: Tick, k: nat) {
    var before := BeforeAttempt(m, v, tick);
    && tick.motion.haveGps && tick.motion.newGpsFix && (tick.motion.gpsVelocity.Some? || v.loop.haveGpsLock)
    && v.loop.velocityInitialized && OnlyUsable(tick.ins, k)
    && before.raDeltat > 0.0 && !IsZeroVec(ScaledSum(m, v, tick, k))
  }

  /** The scaled sum of instance `k` that this tick's attempt starts from. */
  function ScaledSum(m: Libm, v: Vehicle, tick: Tick, k: nat): Vec {
    var before := BeforeAttempt(m, v, tick);
    if k < INS_MAX_INSTANCES then before.raSum[k].Times(LoopScale(before.raDeltat)) else ZERO
  }

  /** The selection this tick's attempt makes. */
  function TickSelection(m: Libm, v: Vehicle, tick: Tick, gains: Gains): Option<MultiAccelSelection> {
    var dcm := MatrixStep(m, v.dcm, tick.ins, DriftOmega(v.loop)).0;
    var before := BeforeAttempt(m, v, tick);
    Selected(m, before, tick.ins, tick.motion, OfferedVelocity(before.wind, dcm.matrix, tick.motion), gains.drift).0
  }

  /** The reference this tick's selection is judged against. */
  function TickReference(m: Libm, v: Vehicle, tick: Tick, gains: Gains): Vec {
    var dcm := MatrixStep(m, v.dcm, tick.ins, DriftOmega(v.loop)).0;
    var before := BeforeAttempt(m, v, tick);
    LoopReference(m, VelocityDelta(before, tick.motion, OfferedVelocity(before.wind, dcm.matrix, tick.motion)),
                  Mul(gains.drift.gpsGain, LoopScale(before.raDeltat)))
  }

  /** `select` on one usable instance: it is judged on the delayed vector, and the line then holds
      the current one. */
  lemma SelectsDelayed(m: Libm, s: LoopState, ins: InsReading, motion: DriftMotionInputs, velocity: Option<Vec>,
                       gains: DriftGains, k: nat, x: Vec)
    requires m.Lawful() && OnlyUsable(ins, k) && UsesLag(s, motion)
    requires x == s.raSum[k].Times(LoopScale(s.raDeltat)) && !IsZeroVec(x)
    ensures var (selection, held) := Selected(m, s, ins, motion, velocity, gains);
      var gaE := LoopReference(m, VelocityDelta(s, motion, velocity), Mul(gains.gpsGain, LoopScale(s.raDeltat)));
      var seen := Direction(m, Delayed(s.lag, x));
      && held == x && selection.Some? && selection.value.activeInstance == k
      && seen.Some? && selection.value.errorEf == seen.value.Cross(gaE)
  {
    hide Libm.Lawful, Libm.Normalized, Libm.Length, IsZeroVec, Vec.Times, Vec.Cross, Vec.Dot, LoopReference,
      VelocityDelta, Mul;
    var scale := LoopScale(s.raDeltat);
    var gaE := LoopReference(m, VelocityDelta(s, motion, velocity), Mul(gains.gpsGain, scale));
    MeasuredAlone(s.raSum, ins, scale, s.lag, k, ins.AccelCount());
    var measured := Measured(s.raSum, ins.AccelUsable, scale, true, s.lag, ins.AccelCount()).0;
    NonZeroNormalizes(m, Delayed(s.lag, x));
    BestIsArgmin(m, measured, gaE, ins.AccelCount());
    assert GravityError(m, measured[k], gaE).Some?;
  }

  /** The corrector's own pass through the delay line leaves it holding the same vector. */
  lemma CorrectorKeepsLine(m: Libm, inp: DriftInputs, gains: DriftGains, x: Vec)
    requires inp.usingGpsCorrections && inp.raDeltat > 0.0 && x == inp.raSum.Times(RaScale(inp.raDeltat))
    ensures Judged(m, inp, gains, x).buffer == x
  {
  }

  /** One GPS cycle: the selection is scored on what the line held before, and the line ends
      the cycle holding this cycle's vector, whatever the corrector does with it. */
  lemma GpsCycleDelay(m: Libm, v: Vehicle, tick: Tick, gains: Gains, k: nat)
    requires m.Lawful() && GpsCycle(m, v, tick, k)
    ensures var x := ScaledSum(m, v, tick, k);
      var selection := TickSelection(m, v, tick, gains);
      var seen := Direction(m, Delayed(v.loop.lag, x));
      && Step(m, v, tick, gains).vehicle.loop.lag == x
      && selection.Some? && selection.value.activeInstance == k
      && seen.Some? && selection.value.errorEf == seen.value.Cross(TickReference(m, v, tick, gains))
  {
    hide Libm.Lawful, MatrixStep, BeforeAttempt, Step, Attempted, IsZeroVec, OfferedVelocity, Selected,
      LoopReference, VelocityDelta, Direction, Delayed, LoopScale, RaScale, Vec.Times, Vec.Cross, Mul;
    var dcm := MatrixStep(m, v.dcm, tick.ins, DriftOmega(v.loop)).0;
    var before := BeforeAttempt(m, v, tick);
    var x := ScaledSum(m, v, tick, k);
    var velocity := OfferedVelocity(before.wind, dcm.matrix, tick.motion);
    StepFields(m, v, tick, gains);
    LockedBefore(m, v, tick);
    DuplicateCallsHarmless(m, v, tick, gains);
    SelectsDelayed(m, before, tick.ins, tick.motion, velocity, gains.drift, k, x);
    AttemptedLine(m, before, dcm, tick.ins, tick.motion, velocity, gains.drift, k, x);
  }

  lemma LockedBefore(m: Libm, v: Vehicle, tick: Tick)
    requires tick.motion.haveGps && tick.motion.newGpsFix && (tick.motion.gpsVelocity.Some? || v.loop.haveGpsLock)
    ensures BeforeAttempt(m, v, tick).haveGpsLock
  {
    hide MatrixStep, WindUpdated, Accumulated, AddedTime;
  }

  lemma AttemptedLine(m: Libm, s: LoopState, dcm: DcmState, ins: InsReading, motion: DriftMotionInputs,
                      velocity: Option<Vec>, gains: DriftGains, k: nat, x: Vec)
    requires k < INS_MAX_INSTANCES && UsesLag(s, motion) && s.raDeltat > 0.0
    requires x == s.raSum[k].Times(LoopScale(s.raDeltat))
    requires var (selection, held) := Selected(m, s, ins, motion, velocity, gains);
      held == x && selection.Some? && selection.value.activeInstance == k
    ensures Attempted(m, s, dcm, ins, motion, velocity, gains).0.lag == x
  {
    hide Selected, Judged, Applied, VelocityDelta, Vec.Times, RaScale;
    var (selection, held) := Selected(m, s, ins, motion, velocity, gains);
    CorrectorKeepsLine(m, CorrectionInputs(s, dcm, ins, motion, velocity, selection), gains, x);
  }

  /** A tick that leaves the line alone: it has no GPS, or is still waiting for a fix. */
  predicate Quiet(tick: Tick) {
    !tick.motion.haveGps || !tick.motion.newGpsFix
  }

  lemma QuietTick(m: Libm, v: Vehicle, tick: Tick, gains: Gains)
    requires Quiet(tick)
    ensures Step(m, v, tick, gains).vehicle.loop.lag == v.loop.lag
  {
    hide MatrixStep, BeforeAttempt, Step, WindUpdated, OfferedVelocity, Vec.Times, Selection, Applied,
      GravityReference, Direction;
    var dcm := MatrixStep(m, v.dcm, tick.ins, DriftOmega(v.loop)).0;
    var before := BeforeAttempt(m, v, tick);
    StepFields(m, v, tick, gains);
    MeasuredWithoutGps(before.raSum, tick.ins.AccelUsable, LoopScale(before.raDeltat), before.lag,
                       tick.ins.AccelCount());
  }

  lemma {:induction false} QuietTicks(m: Libm, v: Vehicle, ticks: seq<Tick>, gains: Gains, i: nat, j: nat)
    requires i <= j <= |ticks| && forall t :: i <= t < j ==> Quiet(ticks[t])
    ensures VehicleAt(m, v, ticks, gains, j).loop.lag == VehicleAt(m, v, ticks, gains, i).loop.lag
    decreases j - i
  {
    hide Step;
    if i == j {
    } else {
      QuietTicks(m, v, ticks, gains, i, j - 1);
      QuietTick(m, VehicleAt(m, v, ticks, gains, j - 1), ticks[j - 1], gains);
    }
  }

  /** One cycle of delay: take two GPS cycles of any run, each on one accelerometer with a non-zero
      sum, with any number of ticks between them that wait for a fix or have lost GPS. The later
      cycle is scored on the vector of the earlier one, and leaves its own in the line. */
  lemma OneCycleDelay(m: Libm, v: Vehicle, ticks: seq<Tick>, gains: Gains, i: nat, k: nat, j: nat, l: nat)
    requires m.Lawful() && i < j < |ticks|
    requires GpsCycle(m, VehicleAt(m, v, ticks, gains, i), ticks[i], k)
    requires forall t :: i < t < j ==> Quiet(ticks[t])
    requires GpsCycle(m, VehicleAt(m, v, ticks, gains, j), ticks[j], l)
    ensures var here := VehicleAt(m, v, ticks, gains, j);
      var previous := ScaledSum(m, VehicleAt(m, v, ticks, gains, i), ticks[i], k);
      var selection := TickSelection(m, here, ticks[j], gains);
      && here.loop.lag == previous
      && selection.Some? && selection.value.activeInstance == l
      && Direction(m, previous).Some?
      && selection.value.errorEf == Direction(m, previous).value.Cross(TickReference(m, here, ticks[j], gains))
      && VehicleAt(m, v, ticks, gains, j + 1).loop.lag == ScaledSum(m, here, ticks[j], l)
  {
    hide Libm.Lawful, Step, ScaledSum, TickSelection, TickReference, Direction, Vec.Cross, IsZeroVec, BeforeAttempt;
    GpsCycleDelay(m, VehicleAt(m, v, ticks, gains, i), ticks[i], gains, k);
    QuietTicks(m, v, ticks, gains, i + 1, j);
    GpsCycleDelay(m, VehicleAt(m, v, ticks, gains, j), ticks[j], gains, l);
  }
}
