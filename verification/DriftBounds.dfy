/** Whole-run properties of drift correction: how far the bias estimate, the proportional
    term and the filtered error can go. */
module DriftBounds {
  import opened Vectors
  import opened MathLibrary
  import opened Wrappers
  import opened Attitude
  import opened MultiAccel
  import opened GpsLag
  import opened Drift

  // ---- the bias estimate ------------------------------------------------

  datatype DriftEvent =
    | CorrectionCycle(inp: DriftInputs, gains: DriftGains)
    | YawIntegral(delta: real)

  /** A corrector with its delay line and a ledger of seconds: those integrated into batches
      so far, and those of batches already moved into the bias estimate. */
  datatype DriftLedger = DriftLedger(state: DriftState, buffer: Vec, integrated: real, flushed: real)

  function DriftStep(m: Libm, ledger: DriftLedger, event: DriftEvent): DriftLedger {
    match event
    case YawIntegral(delta) =>
      ledger.(state := ledger.state.(omegaISum := ledger.state.omegaISum.(z := ledger.state.omegaISum.z + delta)))
    case CorrectionCycle(inp, gains) =>
      var cycle := Correction(m, ledger.state, inp, gains, ledger.buffer);
      if cycle.outcome != Corrected then DriftLedger(cycle.state, cycle.buffer, ledger.integrated, ledger.flushed)
      else
        var added := if Integrates(m, inp.omega) then inp.raDeltat else 0.0;
        var batch := ledger.state.omegaISumTime + added;
        DriftLedger(cycle.state, cycle.buffer, ledger.integrated + added,
                    if batch >= BATCH_SECONDS then ledger.flushed + batch else ledger.flushed)
  }

  function DriftRun(m: Libm, ledger: DriftLedger, events: seq<DriftEvent>): DriftLedger
    decreases |events|
  {
    if events == [] then ledger else DriftRun(m, DriftStep(m, ledger, events[0]), events[1..])
  }

  predicate HasRate(event: DriftEvent, rate: real) {
    event.CorrectionCycle? ==> event.gains.gyroDriftRate == rate
  }

  /** Every component of the estimate is within the specified drift of the seconds flushed. */
  predicate WithinDrift(v: Vec, rate: real, seconds: real) {
    var limit := Mul(Abs(rate), seconds);
    Abs(v.x) <= limit && Abs(v.y) <= limit && Abs(v.z) <= limit
  }

  ghost predicate Balanced(ledger: DriftLedger, rate: real) {
    && WithinDrift(ledger.state.omegaI, rate, ledger.flushed)
    && 0.0 <= ledger.flushed
    && ledger.flushed + ledger.state.omegaISumTime == ledger.integrated
    && 0.0 <= ledger.state.omegaISumTime < BATCH_SECONDS
  }

  /** Clamping to plus or minus a limit bounds the magnitude, whatever the limit's sign. */
  lemma ClampBound(x: real, limit: real)
    ensures Abs(ConstrainValue(x, -limit, limit)) <= Abs(limit)
  {
  }

  lemma DriftAdds(rate: real, flushed: real, batch: real)
    requires 0.0 <= batch
    ensures Mul(Abs(rate), flushed) + Abs(Mul(rate, batch)) == Mul(Abs(rate), flushed + batch)
  {
    AbsOfMul(rate, batch);
  }

  lemma FlushBounded(s: DriftState, rate: real, flushed: real)
    requires WithinDrift(s.omegaI, rate, flushed) && 0.0 <= s.omegaISumTime
    ensures WithinDrift(Flushed(s, rate).omegaI, rate,
                        if s.omegaISumTime >= BATCH_SECONDS then flushed + s.omegaISumTime else flushed)
    ensures Flushed(s, rate).omegaISumTime == if s.omegaISumTime >= BATCH_SECONDS then 0.0 else s.omegaISumTime
  {
    var limit := Mul(rate, s.omegaISumTime);
    DriftAdds(rate, flushed, s.omegaISumTime);
    ClampBound(s.omegaISum.x, limit);
    ClampBound(s.omegaISum.y, limit);
    ClampBound(s.omegaISum.z, limit);
  }

  /** A correction ends by flushing a batch that still holds the old bias estimate. */
  lemma PendingBatch(m: Libm, s: DriftState, errorEf: Vec, bestError: real, inp: DriftInputs, gains: DriftGains)
    returns (batch: DriftState)
    ensures Applied(m, s, errorEf, bestError, inp, gains) == Flushed(batch, gains.gyroDriftRate)
    ensures batch.omegaI == s.omegaI
    ensures batch.omegaISumTime == s.omegaISumTime + if Integrates(m, inp.omega) then inp.raDeltat else 0.0
  {
    hide Flushed, ProportionalTerm, Vec.Times, Mat.MulTranspose;
    var error := if inp.insHealthy then inp.dcmMatrix.MulTranspose(errorEf) else ZERO;
    var pulled := s.(errorRp := 0.8 * s.errorRp + 0.2 * bestError,
                     omegaP := ProportionalTerm(m, error, inp.omega, gains));
    batch := Summed(pulled, m.Length(inp.omega), error, inp.raDeltat);
  }

  lemma CorrectedHasTime(m: Libm, inp: DriftInputs, gains: DriftGains, buffer: Vec)
    ensures Judged(m, inp, gains, buffer).outcome == Corrected ==> inp.raDeltat > 0.0
  {
  }

  lemma StepBalanced(m: Libm, ledger: DriftLedger, event: DriftEvent, rate: real)
    requires Balanced(ledger, rate) && HasRate(event, rate)
    ensures Balanced(DriftStep(m, ledger, event), rate)
  {
    hide Judged, Applied, Flushed, Integrates, WithinDrift;
    if event.CorrectionCycle? {
      var j := Judged(m, event.inp, event.gains, ledger.buffer);
      if j.outcome == Corrected {
        CorrectedHasTime(m, event.inp, event.gains, ledger.buffer);
        var batch := PendingBatch(m, ledger.state, j.errorEf, j.bestError, event.inp, event.gains);
        FlushBounded(batch, rate, ledger.flushed);
      }
    }
  }

  /** Over any interleaving of correction cycles and yaw integrals with one drift rate: every
      integrated second is either flushed or still pending, a pending batch is always shorter than
      five seconds, and no component of the bias estimate exceeds the drift rate times the seconds
      flushed. */
  lemma {:induction false} BiasBound(m: Libm, ledger: DriftLedger, events: seq<DriftEvent>, rate: real)
    requires Balanced(ledger, rate)
    requires forall i :: 0 <= i < |events| ==> HasRate(events[i], rate)
    ensures Balanced(DriftRun(m, ledger, events), rate)
    decreases |events|
  {
    if events == [] {
    } else {
      StepBalanced(m, ledger, events[0], rate);
      BiasBound(m, DriftStep(m, ledger, events[0]), events[1..], rate);
    }
  }

  lemma FreshIsBalanced(rate: real, buffer: Vec)
    ensures Balanced(DriftLedger(FRESH_DRIFT, buffer, 0.0, 0.0), rate)
  {
  }

  /** The same from a fresh corrector, spelled out. */
  lemma FreshBiasBound(m: Libm, buffer: Vec, events: seq<DriftEvent>, rate: real)
    requires forall i :: 0 <= i < |events| ==> HasRate(events[i], rate)
    ensures var end := DriftRun(m, DriftLedger(FRESH_DRIFT, buffer, 0.0, 0.0), events);
      && end.flushed + end.state.omegaISumTime == end.integrated
      && 0.0 <= end.state.omegaISumTime < BATCH_SECONDS
      && WithinDrift(end.state.omegaI, rate, end.flushed)
  {
    hide WithinDrift, DriftRun;
    FreshIsBalanced(rate, buffer);
    BiasBound(m, DriftLedger(FRESH_DRIFT, buffer, 0.0, 0.0), events, rate);
  }

  // ---- the proportional term and the filtered error ---------------------

  lemma PGainRange(spinRate: real)
    ensures 1.0 <= PGain(spinRate) <= 10.0
  {
    var low := Radians(50.0);
    if low <= spinRate <= Radians(500.0) {
      var k := spinRate / low;
      assert k * low == spinRate;
    }
  }

  /** Its whole shape: one up to fifty degrees a second, ten from five hundred on, in proportion to the
      spin in between, and never falling. */
  lemma PGainShape(spinRate: real, faster: real)
    requires spinRate <= faster
    ensures PGain(spinRate) <= PGain(faster)
    ensures spinRate <= Radians(50.0) ==> PGain(spinRate) == 1.0
    ensures spinRate >= Radians(500.0) ==> PGain(spinRate) == 10.0
    ensures Radians(50.0) <= spinRate <= Radians(500.0) ==> Mul(PGain(spinRate), Radians(50.0)) == spinRate
  {
    PGainRange(spinRate);
    PGainRange(faster);
    var low := Radians(50.0);
    assert Radians(500.0) == 10.0 * low;
    if low <= spinRate <= 10.0 * low {
      QuotientOf(spinRate, low);
      if faster <= 10.0 * low {
        QuotientOf(faster, low);
        ProportionOrder(spinRate / low, faster / low, low);
      }
    }
  }

  lemma ProportionOrder(p: real, q: real, low: real)
    requires low > 0.0 && Mul(p, low) <= Mul(q, low)
    ensures p <= q
  {
    assert Mul(p - q, low) == Mul(p, low) - Mul(q, low);
    if q < p {
      ProductPositive(p - q, low);
    }
  }

  /** What the pull is for an error, in plain numbers: the gain below fifty degrees a second, ten times it
      from five hundred on, and never with less gain than the floor. */
  lemma PullResponse(m: Libm, error: Vec, omega: Vec, gains: DriftGains)
    requires !gains.fastGains
    ensures var (pull, spin) := (ProportionalTerm(m, error, omega, gains), m.Length(omega));
      && (spin <= Radians(50.0) && gains.kp >= 0.05 ==> pull == error.Times(gains.kp))
      && (spin >= Radians(500.0) && gains.kp >= 0.05 ==> pull == error.Times(Mul(10.0, gains.kp)))
      && (spin <= Radians(50.0) && gains.kp < 0.05 ==> pull == error.Times(0.05))
  {
    hide PGain, Vec.Times, Libm.Length, Radians;
    PGainShape(m.Length(omega), m.Length(omega));
    OneTimes(gains.kp);
    OneTimes(0.05);
  }

  /** Fast gains pull eight times as hard, and nothing else changes. */
  lemma FastGainsEightfold(m: Libm, error: Vec, omega: Vec, gains: DriftGains)
    ensures ProportionalTerm(m, error, omega, gains.(fastGains := true))
         == ProportionalTerm(m, error, omega, gains.(fastGains := false)).Times(8.0)
  {
  }

  /** The largest gain a cycle can apply: ten times the floored gain, eightfold while converging. */
  function PullLimit(gains: DriftGains): real {
    Mul(if gains.fastGains then 80.0 else 10.0, FlooredGain(gains.kp, RP_P_MIN))
  }

  /** Rotating into body frame by rows that are unit, with the third perpendicular and skew `e`
      between the first two, lengthens a vector by at most the factor sqrt(1 + |e|). */
  lemma TransposeLength(r: Mat, v: Vec)
    requires UnitPair(r) && r.c.LengthSquared() == 1.0 && r.a.Dot(r.c) == 0.0 && r.b.Dot(r.c) == 0.0
    ensures r.MulTranspose(v).LengthSquared() <= Mul(1.0 + Abs(r.a.Dot(r.b)), v.LengthSquared())
  {
    var p, q, s := r.a.Times(v.x), r.b.Times(v.y), r.c.Times(v.z);
    assert r.MulTranspose(v) == p.Plus(q).Plus(s);
    SumLengthSquared(p.Plus(q), s);
    SumLengthSquared(p, q);
    DotDistributes(p, q, s);
    ScaledDot(r.a, v.x, r.a, v.x);
    ScaledDot(r.b, v.y, r.b, v.y);
    ScaledDot(r.c, v.z, r.c, v.z);
    ScaledDot(r.a, v.x, r.b, v.y);
    ScaledDot(r.a, v.x, r.c, v.z);
    ScaledDot(r.b, v.y, r.c, v.z);
    SkewedSum(r.a.Dot(r.b), v.x, v.y, v.z);
  }

  lemma ScaledDot(u: Vec, j: real, v: Vec, k: real)
    ensures u.Times(j).Dot(v.Times(k)) == Mul(u.Dot(v), Mul(j, k))
  {
    DotScaled(u, j, v, k);
  }

  lemma SkewedSum(e: real, x: real, y: real, z: real)
    ensures Mul(x, x) + Mul(y, y) + Mul(z, z) + 2.0 * Mul(e, Mul(x, y))
         <= Mul(1.0 + Abs(e), Vec(x, y, z).LengthSquared())
  {
    var l := Vec(x, y, z).LengthSquared();
    assert l == Square(x) + Square(y) + Square(z);
    SquareNonNegative(x - y);
    SquareNonNegative(x + y);
    SquareNonNegative(z);
    assert Abs(2.0 * Mul(x, y)) <= l;
    AbsProduct(e, 2.0 * Mul(x, y), Abs(e), l);
    assert Mul(1.0 + Abs(e), l) == l + Mul(Abs(e), l);
    assert Mul(e, 2.0 * Mul(x, y)) == 2.0 * Mul(e, Mul(x, y));
  }

  /** The proportional term a cycle leaves behind, from an earth-frame error at most one long. */
  lemma ProportionalBound(m: Libm, r: Mat, errorEf: Vec, omega: Vec, gains: DriftGains)
    requires UnitPair(r) && r.c.LengthSquared() == 1.0 && r.a.Dot(r.c) == 0.0 && r.b.Dot(r.c) == 0.0
    requires errorEf.LengthSquared() <= 1.0
    ensures ProportionalTerm(m, r.MulTranspose(errorEf), omega, gains).LengthSquared()
         <= Mul(1.0 + Abs(r.a.Dot(r.b)), Square(PullLimit(gains)))
  {
    hide Mat.MulTranspose, Vec.Times, Vec.LengthSquared, Vec.Dot, PGain, Libm.Length;
    var error, e := r.MulTranspose(errorEf), Abs(r.a.Dot(r.b));
    var k := FlooredGain(gains.kp, RP_P_MIN);
    var gain := Mul(PGain(m.Length(omega)), k);
    TransposeLength(r, errorEf);
    ProductMonotone(errorEf.LengthSquared(), 1.0, 1.0 + e);
    assert Mul(errorEf.LengthSquared(), 1.0 + e) == Mul(1.0 + e, errorEf.LengthSquared());
    LengthSquaredNonNegative(error);
    PGainRange(m.Length(omega));
    AbsProduct(PGain(m.Length(omega)), k, 10.0, k);
    TimesLengthSquared(error, gain);
    TimesLengthSquared(error.Times(gain), 8.0);
    var total := if gains.fastGains then Mul(gain, 8.0) else gain;
    assert Mul(Mul(error.LengthSquared(), Square(gain)), Square(8.0))
        == Mul(error.LengthSquared(), Square(Mul(gain, 8.0)));
    AbsProduct(total, total, PullLimit(gains), PullLimit(gains));
    AbsProduct(error.LengthSquared(), Square(total), 1.0 + e, Square(PullLimit(gains)));
  }

  lemma TimesLengthSquared(v: Vec, k: real)
    ensures v.Times(k).LengthSquared() == Mul(v.LengthSquared(), Square(k))
  {
    DotScaled(v, k, v, k);
  }

  predicate PreselectionBounded(inp: DriftInputs) {
    inp.preselectedError.Some? ==>
      && inp.preselectedError.value.errorEf.LengthSquared() <= 1.0
      && 0.0 <= inp.preselectedError.value.bestError <= 1.0
  }

  lemma ReferenceIsUnit(m: Libm, velocityDelta: Option<Vec>, scale: real)
    requires m.Lawful()
    ensures var gaE := GravityReference(m, velocityDelta, scale);
      gaE.Some? ==> gaE.value.LengthSquared() == 1.0
  {
    if velocityDelta.Some? {
      NormalizedIsUnit(m, Vec(0.0, 0.0, -1.0).Plus(velocityDelta.value.Times(scale)));
    }
  }

  /** The error a cycle acts on is at most one long, whether it was recomputed or preselected. */
  lemma JudgedErrorBounded(m: Libm, inp: DriftInputs, gains: DriftGains, buffer: Vec)
    requires m.Lawful() && PreselectionBounded(inp)
    ensures var j := Judged(m, inp, gains, buffer);
      j.outcome == Corrected ==> j.errorEf.LengthSquared() <= 1.0 && 0.0 <= j.bestError <= 1.0
  {
    hide Vec.Dot, Vec.Cross, Vec.Times, Libm.Length, Libm.Normalized, Libm.Lawful;
    if inp.raDeltat > 0.0 {
      var scale := RaScale(inp.raDeltat);
      var gaE := GravityReference(m, inp.velocityDelta, Mul(gains.gpsGain, scale));
      var scaled := inp.raSum.Times(scale);
      var measured := if inp.usingGpsCorrections then Delayed(buffer, scaled) else scaled;
      ReferenceIsUnit(m, inp.velocityDelta, Mul(gains.gpsGain, scale));
      NormalizedIsUnit(m, measured);
      if gaE.Some? && Direction(m, measured).Some? {
        UnitErrorBounded(m, Direction(m, measured).value, gaE.value);
      }
    }
  }

  /** One corrected cycle bounds the proportional term by the gains and the skew of the attitude. */
  lemma CorrectedPull(m: Libm, s: DriftState, inp: DriftInputs, gains: DriftGains, buffer: Vec)
    requires m.Lawful() && PreselectionBounded(inp)
    requires var r := inp.dcmMatrix;
      UnitPair(r) && r.c.LengthSquared() == 1.0 && r.a.Dot(r.c) == 0.0 && r.b.Dot(r.c) == 0.0
    requires Correction(m, s, inp, gains, buffer).outcome == Corrected
    ensures Correction(m, s, inp, gains, buffer).state.omegaP.LengthSquared()
         <= Mul(1.0 + Abs(inp.dcmMatrix.a.Dot(inp.dcmMatrix.b)), Square(PullLimit(gains)))
  {
    hide Judged, Mat.MulTranspose, Vec.Times, Vec.LengthSquared, Vec.Dot, ProportionalTerm;
    var j := Judged(m, inp, gains, buffer);
    JudgedErrorBounded(m, inp, gains, buffer);
    ZeroTransposed(inp.dcmMatrix);
    var errorEf := if inp.insHealthy then j.errorEf else ZERO;
    ProportionalBound(m, inp.dcmMatrix, errorEf, inp.omega, gains);
  }

  lemma ZeroTransposed(r: Mat)
    ensures r.MulTranspose(ZERO) == ZERO && ZERO.LengthSquared() == 0.0
  {
  }

  lemma FilteredErrorStep(m: Libm, s: DriftState, inp: DriftInputs, gains: DriftGains, buffer: Vec)
    requires m.Lawful() && PreselectionBounded(inp) && 0.0 <= s.errorRp <= 1.0
    ensures 0.0 <= Correction(m, s, inp, gains, buffer).state.errorRp <= 1.0
  {
    hide Judged, Mat.MulTranspose, Vec.Times, ProportionalTerm;
    JudgedErrorBounded(m, inp, gains, buffer);
  }

  /** The filtered error follows: each correction leaves four fifths of its distance to the error just
      judged. */
  lemma FilterFollows(m: Libm, s: DriftState, inp: DriftInputs, gains: DriftGains, buffer: Vec)
    requires Judged(m, inp, gains, buffer).outcome == Corrected
    ensures var (after, judged) := (Correction(m, s, inp, gains, buffer).state,
                                    Judged(m, inp, gains, buffer).bestError);
      5.0 * (after.errorRp - judged) == 4.0 * (s.errorRp - judged)
  {
    hide Judged, Mat.MulTranspose, Vec.Times, ProportionalTerm;
  }

  /** A vehicle with unhealthy gyros or accelerometer is not pulled, and its batch gains time only. */
  lemma UnhealthyNoPull(m: Libm, s: DriftState, inp: DriftInputs, gains: DriftGains, buffer: Vec)
    requires !inp.insHealthy && Judged(m, inp, gains, buffer).outcome == Corrected
    ensures Correction(m, s, inp, gains, buffer).state.omegaP == ZERO
    ensures s.omegaISumTime + inp.raDeltat < BATCH_SECONDS ==>
      Correction(m, s, inp, gains, buffer).state.omegaISum == s.omegaISum
  {
    hide Judged, PGain, FlooredGain, Libm.Length;
    CorrectedHasTime(m, inp, gains, buffer);
  }

  /** The filtered error stays in [0, 1] over every run. */
  lemma {:induction false} FilteredErrorBounded(m: Libm, ledger: DriftLedger, events: seq<DriftEvent>)
    requires m.Lawful() && 0.0 <= ledger.state.errorRp <= 1.0
    requires forall i :: 0 <= i < |events| && events[i].CorrectionCycle? ==> PreselectionBounded(events[i].inp)
    ensures 0.0 <= DriftRun(m, ledger, events).state.errorRp <= 1.0
    decreases |events|
  {
    hide Correction, Libm.Lawful;
    if events == [] {
    } else {
      if events[0].CorrectionCycle? {
        FilteredErrorStep(m, ledger.state, events[0].inp, events[0].gains, ledger.buffer);
      }
      FilteredErrorBounded(m, DriftStep(m, ledger, events[0]), events[1..]);
    }
  }
}
