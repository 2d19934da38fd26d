/** Which way the integral moves the bias estimate: with the pull, cycle by cycle and batch by batch. */
module BiasRuns {
  import opened Vectors
  import opened MathLibrary
  import opened Drift
  import opened DriftBounds
  import opened Alignment

  // ---- one cycle --------------------------------------------------------

  /** The error of a cycle in body frame, none when the sensors are not healthy. */
  function BodyError(m: Libm, inp: DriftInputs, gains: DriftGains, buffer: Vec): Vec {
    if inp.insHealthy then inp.dcmMatrix.MulTranspose(Judged(m, inp, gains, buffer).errorEf) else ZERO
  }

  lemma PullOfCycle(m: Libm, s: DriftState, inp: DriftInputs, gains: DriftGains, buffer: Vec)
    requires Judged(m, inp, gains, buffer).outcome == Corrected
    ensures Correction(m, s, inp, gains, buffer).state.omegaP
         == BodyError(m, inp, gains, buffer).Times(PullGain(m, inp.omega, gains))
  {
    hide Judged, PullGain, Mat.MulTranspose, Vec.Times, ProportionalTerm;
    PullIsGain(m, BodyError(m, inp, gains, buffer), inp.omega, gains);
  }

  /** A correcting cycle below the spin limit that does not close the batch adds to the pending integral
      the pull without its gain, over the seconds of the cycle: both point one way. */
  lemma IntegralFollowsPull(m: Libm, s: DriftState, inp: DriftInputs, gains: DriftGains, buffer: Vec)
    requires Judged(m, inp, gains, buffer).outcome == Corrected
    requires m.Length(inp.omega) < Radians(20.0) && s.omegaISumTime + inp.raDeltat < 5.0
    ensures var after := Correction(m, s, inp, gains, buffer).state;
      && after.omegaISum.Minus(s.omegaISum).Times(PullGain(m, inp.omega, gains))
         == after.omegaP.Times(Mul(0.0087, inp.raDeltat))
      && after.omegaISumTime == s.omegaISumTime + inp.raDeltat && after.omegaI == s.omegaI
  {
    hide Judged, PullGain, Mat.MulTranspose, Vec.Times, ProportionalTerm, Radians, Libm.Length, Mul, BodyError;
    var error := BodyError(m, inp, gains, buffer);
    PullOfCycle(m, s, inp, gains, buffer);
    CycleSum(m, s, inp, gains, buffer);
    Added(s.omegaISum, error.Times(Mul(KI, inp.raDeltat)));
    TimesTwice(error, Mul(KI, inp.raDeltat), PullGain(m, inp.omega, gains));
    TimesTwice(error, PullGain(m, inp.omega, gains), Mul(KI, inp.raDeltat));
    MulSymmetric(Mul(KI, inp.raDeltat), PullGain(m, inp.omega, gains));
  }

  lemma Added(u: Vec, v: Vec)
    ensures u.Plus(v).Minus(u) == v
  {
  }

  /** What a correcting cycle below the spin limit leaves pending, before a batch is closed. */
  function Pending(s: DriftState, error: Vec, seconds: real): (Vec, real) {
    (s.omegaISum.Plus(error.Times(Mul(KI, seconds))), s.omegaISumTime + seconds)
  }

  lemma CycleSum(m: Libm, s: DriftState, inp: DriftInputs, gains: DriftGains, buffer: Vec)
    requires Judged(m, inp, gains, buffer).outcome == Corrected && Integrates(m, inp.omega)
    ensures var after := Correction(m, s, inp, gains, buffer).state;
      var (sum, time) := Pending(s, BodyError(m, inp, gains, buffer), inp.raDeltat);
      && (time < 5.0 ==> after.omegaISum == sum && after.omegaISumTime == time && after.omegaI == s.omegaI)
      && (time >= 5.0 ==>
            && after.omegaISum == ZERO && after.omegaISumTime == 0.0
            && Moved(after.omegaI.x - s.omegaI.x, sum.x, Mul(gains.gyroDriftRate, time))
            && Moved(after.omegaI.y - s.omegaI.y, sum.y, Mul(gains.gyroDriftRate, time))
            && Moved(after.omegaI.z - s.omegaI.z, sum.z, Mul(gains.gyroDriftRate, time)))
  {
    hide Judged, Mat.MulTranspose, Vec.Times, ProportionalTerm, Radians, Libm.Length, Mul;
  }

  /** A component of the bias moved by what was wanted, or by as much of it as the limit allows. */
  predicate Moved(change: real, want: real, limit: real) {
    0.0 <= limit ==>
      change == if want > limit then limit else if want < -limit then -limit else want
  }

  // ---- a batch ----------------------------------------------------------

  /** What one event adds to the pending integral. */
  function Share(m: Libm, ledger: DriftLedger, event: DriftEvent): Vec {
    match event
    case YawIntegral(delta) => Vec(0.0, 0.0, delta)
    case CorrectionCycle(inp, gains) =>
      if Judged(m, inp, gains, ledger.buffer).outcome == Corrected && Integrates(m, inp.omega)
      then BodyError(m, inp, gains, ledger.buffer).Times(Mul(KI, inp.raDeltat)) else ZERO
  }

  function Shares(m: Libm, ledger: DriftLedger, events: seq<DriftEvent>): Vec
    decreases |events|
  {
    if events == [] then ZERO
    else Share(m, ledger, events[0]).Plus(Shares(m, DriftStep(m, ledger, events[0]), events[1..]))
  }

  lemma StepGrows(m: Libm, ledger: DriftLedger, event: DriftEvent)
    ensures ledger.integrated <= DriftStep(m, ledger, event).integrated
  {
    hide Judged, Applied;
    if event.CorrectionCycle? {
      CorrectedHasTime(m, event.inp, event.gains, ledger.buffer);
    }
  }

  lemma {:induction false} RunGrows(m: Libm, ledger: DriftLedger, events: seq<DriftEvent>)
    ensures ledger.integrated <= DriftRun(m, ledger, events).integrated
    decreases |events|
  {
    hide DriftStep;
    if events == [] {
    } else {
      StepGrows(m, ledger, events[0]);
      RunGrows(m, DriftStep(m, ledger, events[0]), events[1..]);
    }
  }

  /** An event that leaves the batch open adds its share and its seconds to it, and leaves the bias alone. */
  lemma OpenStep(m: Libm, ledger: DriftLedger, event: DriftEvent)
    requires var next := DriftStep(m, ledger, event);
      ledger.state.omegaISumTime + (next.integrated - ledger.integrated) < 5.0
    ensures var next := DriftStep(m, ledger, event);
      && next.state.omegaI == ledger.state.omegaI
      && next.state.omegaISum == ledger.state.omegaISum.Plus(Share(m, ledger, event))
      && next.state.omegaISumTime == ledger.state.omegaISumTime + (next.integrated - ledger.integrated)
  {
    hide Judged, BodyError, Vec.Times, Applied, Mul, Libm.Length, Radians;
    if event.CorrectionCycle? && Judged(m, event.inp, event.gains, ledger.buffer).outcome == Corrected {
      if Integrates(m, event.inp.omega) {
        CycleSum(m, ledger.state, event.inp, event.gains, ledger.buffer);
      } else {
        FastCycle(m, ledger.state, event.inp, event.gains, ledger.buffer);
      }
    }
  }

  /** Above the spin limit the integral stands still. */
  lemma FastCycle(m: Libm, s: DriftState, inp: DriftInputs, gains: DriftGains, buffer: Vec)
    requires m.Length(inp.omega) >= Radians(20.0) && s.omegaISumTime < 5.0
    ensures var after := Correction(m, s, inp, gains, buffer).state;
      after.omegaI == s.omegaI && after.omegaISum == s.omegaISum && after.omegaISumTime == s.omegaISumTime
  {
    hide Judged, Mat.MulTranspose, Vec.Times, ProportionalTerm, Radians, Libm.Length, Mul;
  }

  /** Over events that leave the batch open all shares are pending, and the bias is untouched. */
  lemma {:induction false} OpenBatch(m: Libm, ledger: DriftLedger, events: seq<DriftEvent>)
    requires ledger.state.omegaISumTime + (DriftRun(m, ledger, events).integrated - ledger.integrated) < 5.0
    ensures var end := DriftRun(m, ledger, events);
      && end.state.omegaI == ledger.state.omegaI
      && end.state.omegaISum == ledger.state.omegaISum.Plus(Shares(m, ledger, events))
      && end.state.omegaISumTime == ledger.state.omegaISumTime + (end.integrated - ledger.integrated)
    decreases |events|
  {
    hide DriftStep, Share;
    if events == [] {
      assert ledger.state.omegaISum.Plus(ZERO) == ledger.state.omegaISum;
    } else {
      var next := DriftStep(m, ledger, events[0]);
      RunGrows(m, next, events[1..]);
      OpenStep(m, ledger, events[0]);
      OpenBatch(m, next, events[1..]);
      PlusRegroups(ledger.state.omegaISum, Share(m, ledger, events[0]), Shares(m, next, events[1..]));
    }
  }

  /** The cycle that closes a batch moves each component of the bias by the sum of all shares of the batch,
      or by as much of it as the drift rate allows in its seconds. */
  lemma BatchMovesBias(m: Libm, ledger: DriftLedger, events: seq<DriftEvent>, inp: DriftInputs, gains: DriftGains)
    requires ledger.state.omegaISumTime + (DriftRun(m, ledger, events).integrated - ledger.integrated) < 5.0
    requires var open := DriftRun(m, ledger, events);
      && Judged(m, inp, gains, open.buffer).outcome == Corrected && Integrates(m, inp.omega)
      && open.state.omegaISumTime + inp.raDeltat >= 5.0
    ensures var open := DriftRun(m, ledger, events);
      var end := DriftStep(m, open, CorrectionCycle(inp, gains));
      var total := ledger.state.omegaISum.Plus(Shares(m, ledger, events))
                         .Plus(Share(m, open, CorrectionCycle(inp, gains)));
      var seconds := ledger.state.omegaISumTime + (end.integrated - ledger.integrated);
      && end.state.omegaISum == ZERO && end.state.omegaISumTime == 0.0
      && Moved(end.state.omegaI.x - ledger.state.omegaI.x, total.x, Mul(gains.gyroDriftRate, seconds))
      && Moved(end.state.omegaI.y - ledger.state.omegaI.y, total.y, Mul(gains.gyroDriftRate, seconds))
      && Moved(end.state.omegaI.z - ledger.state.omegaI.z, total.z, Mul(gains.gyroDriftRate, seconds))
  {
    hide Judged, BodyError, Vec.Times, Integrates, Applied, Mul, Moved;
    OpenBatch(m, ledger, events);
    var open := DriftRun(m, ledger, events);
    CycleSum(m, open.state, inp, gains, open.buffer);
  }

  // ---- the direction of a batch -----------------------------------------

  /** Every correcting cycle of a run leaves a pull that does not point away from `d`, and no yaw integral
      does either. */
  ghost predicate PullsAlong(m: Libm, ledger: DriftLedger, events: seq<DriftEvent>, d: Vec)
    decreases |events|
  {
    events != [] ==>
      && (match events[0]
          case YawIntegral(delta) => 0.0 <= Vec(0.0, 0.0, delta).Dot(d)
          case CorrectionCycle(inp, gains) =>
            Judged(m, inp, gains, ledger.buffer).outcome == Corrected ==>
              0.0 <= DriftStep(m, ledger, events[0]).state.omegaP.Dot(d))
      && PullsAlong(m, DriftStep(m, ledger, events[0]), events[1..], d)
  }

  lemma ShareAlong(m: Libm, ledger: DriftLedger, inp: DriftInputs, gains: DriftGains, d: Vec)
    requires Judged(m, inp, gains, ledger.buffer).outcome == Corrected ==>
      0.0 <= Correction(m, ledger.state, inp, gains, ledger.buffer).state.omegaP.Dot(d)
    ensures 0.0 <= Share(m, ledger, CorrectionCycle(inp, gains)).Dot(d)
  {
    hide Judged, BodyError, Vec.Times, Vec.Dot, Integrates, Applied, Mul, PullGain;
    if Judged(m, inp, gains, ledger.buffer).outcome == Corrected && Integrates(m, inp.omega) {
      var error, gain := BodyError(m, inp, gains, ledger.buffer), PullGain(m, inp.omega, gains);
      PullOfCycle(m, ledger.state, inp, gains, ledger.buffer);
      PullGainPositive(m, inp.omega, gains);
      CorrectedHasTime(m, inp, gains, ledger.buffer);
      DotSymmetric(error.Times(gain), d);
      DotTimes(d, error, gain);
      DotSymmetric(error.Times(Mul(KI, inp.raDeltat)), d);
      DotTimes(d, error, Mul(KI, inp.raDeltat));
      ProductPositive(KI, inp.raDeltat);
      FactorSign(gain, d.Dot(error));
      MulNonNegative(Mul(KI, inp.raDeltat), d.Dot(error));
    } else {
      ZeroDot(d);
    }
  }

  lemma ZeroDot(d: Vec)
    ensures ZERO.Dot(d) == 0.0
  {
  }

  lemma FactorSign(k: real, x: real)
    requires k > 0.0 && 0.0 <= Mul(k, x)
    ensures 0.0 <= x
  {
    if x != 0.0 {
      ProductPositive(k, x);
    }
  }

  /** If every pull points along `d`, so does the sum of the shares: with `d` along an axis, this is the
      sign of what `BatchMovesBias` moves that component by. */
  lemma {:induction false} SharesAlong(m: Libm, ledger: DriftLedger, events: seq<DriftEvent>, d: Vec)
    requires PullsAlong(m, ledger, events, d)
    ensures 0.0 <= Shares(m, ledger, events).Dot(d)
    decreases |events|
  {
    hide DriftStep, Share, Vec.Dot, Judged;
    if events == [] {
      ZeroDot(d);
    } else {
      var next := DriftStep(m, ledger, events[0]);
      SharesAlong(m, next, events[1..], d);
      FirstShareAlong(m, ledger, events[0], d);
      DotDistributes(Share(m, ledger, events[0]), Shares(m, next, events[1..]), d);
    }
  }

  lemma FirstShareAlong(m: Libm, ledger: DriftLedger, event: DriftEvent, d: Vec)
    requires match event
      case YawIntegral(delta) => 0.0 <= Vec(0.0, 0.0, delta).Dot(d)
      case CorrectionCycle(inp, gains) =>
        Judged(m, inp, gains, ledger.buffer).outcome == Corrected ==>
          0.0 <= DriftStep(m, ledger, event).state.omegaP.Dot(d)
    ensures 0.0 <= Share(m, ledger, event).Dot(d)
  {
    hide Judged, Applied, Vec.Dot, BodyError, Integrates;
    if event.CorrectionCycle? {
      ShareAlong(m, ledger, event.inp, event.gains, d);
    }
  }
}
