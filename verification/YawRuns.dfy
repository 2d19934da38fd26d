/** Whole-run properties of yaw correction: bounds, decay, compass hysteresis and hard resets. */
module YawRuns {
  import opened Vectors
  import opened MathLibrary
  import opened Wrappers
  import opened WindEstimation
  import opened YawDrift
  import DriftBounds
  import opened Angles

  function YawRun(m: Libm, s: YawState, inputs: seq<YawDriftInputs>, gains: YawDriftGains)
    : (run: seq<(YawState, YawDriftResult)>)
    ensures |run| == |inputs|
    decreases |inputs|
  {
    if inputs == [] then []
    else
      var first := YawCorrection(m, s, inputs[0], gains);
      [first] + YawRun(m, first.0, inputs[1..], gains)
  }

  // ---- bounds -----------------------------------------------------------

  lemma PlanarUnit(p: real, q: real, s: real, c: real)
    requires Square(p) + Square(q) == 1.0 && Square(s) + Square(c) == 1.0
    ensures Abs(Mul(p, s) - Mul(q, c)) <= 1.0
  {
    assert Square(p * s - q * c) + Square(p * c + q * s) == Mul(Square(p) + Square(q), Square(s) + Square(c));
    SquareNonNegative(p * c + q * s);
    SquareOrder(p * s - q * c, 1.0);
  }

  lemma ScaledPair(x: real, y: real, l: real)
    requires l > 0.0 && Square(l) == Square(x) + Square(y)
    ensures Square(x / l) + Square(y / l) == 1.0
  {
    var p, q := x / l, y / l;
    assert p * l == x && q * l == y;
    assert Square(p * l) + Square(q * l) == Mul(Square(p) + Square(q), Square(l));
    var k := Square(p) + Square(q);
    ProductPositive(l, l);
    assert Mul(k, Square(l)) == Square(l);
    CancelFactor(k, Square(l));
  }

  lemma CancelFactor(k: real, s: real)
    requires s != 0.0 && Mul(k, s) == s
    ensures k == 1.0
  {
    assert (k - 1.0) * s == 0.0;
  }

  lemma CompassErrorBounded(m: Libm, r: Mat, magBody: Vec, declinationRad: real)
    requires m.Lawful()
    ensures Abs(YawErrorCompass(m, r, magBody, declinationRad)) <= 1.0
  {
    hide Vec.Dot, Square, Mul;
    var x, y := r.a.Dot(magBody), r.b.Dot(magBody);
    var l := m.SafeSqrt(Square(x) + Square(y));
    SquareNonNegative(x);
    SquareNonNegative(y);
    SqrtSpec(m, Square(x) + Square(y));
    if !IsZero(l) {
      ScaledPair(x, y, l);
      assert m.CircleLaw(declinationRad);
      PlanarUnit(x / l, y / l, m.sin(declinationRad), m.cos(declinationRad));
    }
  }

  lemma SineBounded(m: Libm, x: real)
    requires m.Lawful()
    ensures Abs(m.sin(x)) <= 1.0
  {
    assert m.CircleLaw(x);
    SquareNonNegative(m.cos(x));
    SquareOrder(m.sin(x), 1.0);
  }

  lemma ReferenceErrorBounded(m: Libm, s: YawState, inp: YawDriftInputs)
    requires m.Lawful()
    ensures Reference(m, s, inp) != NoReference ==> Abs(Reference(m, s, inp).error) <= 1.0
  {
    hide YawErrorCompass, WrapHalf;
    var reference := Reference(m, s, inp);
    if reference.ByCompass? {
      CompassErrorBounded(m, inp.dcmMatrix, inp.compass.value.magBody, inp.compass.value.declinationRad);
    } else if reference.ByGps? {
      SineBounded(m, WrapHalf(Radians(GpsHeading(inp.gps.value)) - inp.ctx.estimatedYawRad, PI));
    }
  }

  /** The largest yaw pull: nine times the floored gain, seventy-two times while converging. */
  function YawPullLimit(gains: YawDriftGains): real {
    Mul(if gains.fastGains then 72.0 else 9.0, Drift.FlooredGain(gains.kpYaw, YAW_P_MIN))
  }

  lemma YawPullBounded(m: Libm, errorZ: real, inp: YawDriftInputs, gains: YawDriftGains)
    requires Abs(errorZ) <= 1.0 && inp.accelEfXyMag >= 0.0
    ensures Abs(YawPull(m, errorZ, inp, gains)) <= YawPullLimit(gains)
  {
    hide Libm.Length, Drift.PGain, Radians;
    var p := Drift.PGain(m.Length(inp.omega));
    var k := Drift.FlooredGain(gains.kpYaw, YAW_P_MIN);
    var g := YawGain(inp.accelEfXyMag);
    DriftBounds.PGainRange(m.Length(inp.omega));
    assert 0.1 <= g <= 0.9;
    AbsProduct(errorZ, p, 1.0, 10.0);
    AbsProduct(Mul(errorZ, p), k, 10.0, k);
    AbsProduct(Mul(Mul(errorZ, p), k), g, Mul(10.0, k), 0.9);
    assert Mul(Mul(10.0, k), 0.9) == Mul(9.0, k) && Mul(72.0, k) == 8.0 * Mul(9.0, k);
  }

  ghost predicate YawBounded(s: YawState, gains: YawDriftGains) {
    && s.omegaYawP.x == 0.0 && s.omegaYawP.y == 0.0 && Abs(s.omegaYawP.z) <= YawPullLimit(gains)
    && 0.0 <= s.errorYaw <= 1.0
  }

  predicate SaneInputs(inp: YawDriftInputs) {
    Abs(inp.dcmMatrix.c.z) <= 1.0 && inp.accelEfXyMag >= 0.0
  }

  lemma YawStepBounded(m: Libm, s: YawState, inp: YawDriftInputs, gains: YawDriftGains)
    requires m.Lawful() && YawBounded(s, gains) && SaneInputs(inp)
    ensures YawBounded(YawCorrection(m, s, inp, gains).0, gains)
  {
    hide Libm.Lawful, YawPull, YawPullLimit, YawIntegral, CompassVerdict, Reference;
    var reference := Reference(m, s, inp);
    if reference != NoReference {
      ReferenceErrorBounded(m, s, inp);
      AbsProduct(inp.dcmMatrix.c.z, reference.error, 1.0, 1.0);
      YawPullBounded(m, Mul(inp.dcmMatrix.c.z, reference.error), inp, gains);
    } else {
      Decay(s.omegaYawP.z);
    }
  }

  lemma Decay(z: real)
    ensures Abs(z * YAW_P_DECAY) <= Abs(z)
  {
  }

  /** Over any run with a unit third row and non-negative acceleration magnitudes, the yaw term
      stays vertical and within its limit and the filtered error stays in [0, 1]. */
  lemma {:induction false} YawTermBounded(m: Libm, s: YawState, inputs: seq<YawDriftInputs>, gains: YawDriftGains)
    requires m.Lawful() && YawBounded(s, gains)
    requires forall i :: 0 <= i < |inputs| ==> SaneInputs(inputs[i])
    ensures forall i :: 0 <= i < |inputs| ==> YawBounded(YawRun(m, s, inputs, gains)[i].0, gains)
    decreases |inputs|
  {
    hide YawCorrection, YawBounded, SaneInputs, Libm.Lawful;
    if inputs == [] {
    } else {
      YawStepBounded(m, s, inputs[0], gains);
      YawTermBounded(m, YawCorrection(m, s, inputs[0], gains).0, inputs[1..], gains);
    }
  }

  /** What the yaw pull is for a vertical error, in plain numbers: nine tenths of the gain in straight
      flight at a slow spin, a ninth of that under hard acceleration, ten times it at a fast spin, and
      eight times it with fast gains. */
  lemma YawPullResponse(m: Libm, errorZ: real, inp: YawDriftInputs, gains: YawDriftGains)
    requires gains.kpYaw >= 0.05
    ensures var (pull, spin) := (YawPull(m, errorZ, inp, gains), m.Length(inp.omega));
      var plain := Mul(errorZ, gains.kpYaw);
      && (!gains.fastGains && spin <= Radians(50.0) && inp.accelEfXyMag == 0.0 ==> pull == 0.9 * plain)
      && (!gains.fastGains && spin <= Radians(50.0) && inp.accelEfXyMag >= 4.0 ==> pull == 0.1 * plain)
      && (!gains.fastGains && spin >= Radians(500.0) && inp.accelEfXyMag == 0.0 ==> pull == 9.0 * plain)
      && (gains.fastGains ==> pull == 8.0 * YawPull(m, errorZ, inp, gains.(fastGains := false)))
  {
    hide Drift.PGain, Libm.Length, Radians, YawGain;
    DriftBounds.PGainShape(m.Length(inp.omega), m.Length(inp.omega));
    YawGainShape(inp.accelEfXyMag, inp.accelEfXyMag);
    ResponseScalar(errorZ, gains.kpYaw);
  }

  lemma ResponseScalar(e: real, k: real)
    ensures Mul(Mul(Mul(e, 1.0), k), 0.9) == 0.9 * Mul(e, k) && Mul(Mul(Mul(e, 1.0), k), 0.1) == 0.1 * Mul(e, k)
    ensures Mul(Mul(Mul(e, 10.0), k), 0.9) == 9.0 * Mul(e, k)
  {
    assert (e * 10.0) * k == 10.0 * (e * k);
  }

  /** The filtered yaw error follows the reference as the roll and pitch filter does. */
  lemma YawFilterFollows(m: Libm, s: YawState, inp: YawDriftInputs, gains: YawDriftGains)
    requires YawCorrection(m, s, inp, gains).1.outcome == Corrected
    ensures var judged := Abs(Reference(m, s, inp).error);
      5.0 * (YawCorrection(m, s, inp, gains).0.errorYaw - judged) == 4.0 * (s.errorYaw - judged)
  {
    hide YawPull, YawIntegral, Reference, CompassVerdict, Mul;
  }

  /** The observability gain: nine tenths in straight flight, falling with horizontal acceleration to one
      tenth at four metres a second squared, and staying there. */
  lemma YawGainShape(accel: real, harder: real)
    requires accel <= harder
    ensures YawGain(accel) >= YawGain(harder) >= 0.1
    ensures YawGain(0.0) == 0.9 && (accel >= 4.0 ==> YawGain(accel) == 0.1)
    ensures accel <= 4.0 ==> YawGain(accel) - YawGain(4.0) == 0.2 * (4.0 - accel)
  {
  }

  // ---- decay and skipping -----------------------------------------------

  /** A run of cycles that find no reference scales the yaw term by exactly 0.97 each, and
      skipped cycles between them change nothing at all. */
  lemma {:induction false} DecayRun(m: Libm, s: YawState, inputs: seq<YawDriftInputs>, gains: YawDriftGains,
                                    decays: nat)
    requires forall i :: 0 <= i < |inputs| ==> YawRun(m, s, inputs, gains)[i].1.outcome != Corrected
    requires decays == CountDecays(YawRun(m, s, inputs, gains))
    ensures var last := if inputs == [] then s else YawRun(m, s, inputs, gains)[|inputs| - 1].0;
      && last.omegaYawP == s.omegaYawP.Times(Pow(YAW_P_DECAY, decays))
      && (decays == 0 ==> last == s)
      && last.errorYaw == s.errorYaw && last.haveInitialYaw == s.haveInitialYaw
    decreases |inputs|
  {
    hide Vec.Times, CompassVerdict, Reference, YawPull, YawIntegral;
    if inputs == [] {
      TimesOne(s.omegaYawP);
    } else {
      var run := YawRun(m, s, inputs, gains);
      var (next, result) := YawCorrection(m, s, inputs[0], gains);
      assert run[0] == (next, result) && run[1..] == YawRun(m, next, inputs[1..], gains);
      assert forall i :: 0 <= i < |inputs| - 1 ==> run[1..][i] == run[i + 1];
      var rest := if result.outcome == Decayed then decays - 1 else decays;
      DecayRun(m, next, inputs[1..], gains, rest);
      TimesTwice(s.omegaYawP, YAW_P_DECAY, Pow(YAW_P_DECAY, rest));
    }
  }

  function CountDecays(run: seq<(YawState, YawDriftResult)>): nat {
    if run == [] then 0 else CountDecays(run[1..]) + if run[0].1.outcome == Decayed then 1 else 0
  }

  /** Heading and course agree exactly when they are within 45 degrees on the circle, or the wind is at
      least four fifths of the ground speed. */
  lemma HeadingAgreesIff(ctx: YawDriftContext, gps: YawGpsSample)
    ensures HeadingAgrees(ctx, gps)
      <==> 5.0 * ctx.windSpeedXy >= 4.0 * gps.groundSpeed
           || exists k: int :: CourseOff(ctx, gps, k) <= 45.0
  {
    hide WrapHalf;
    var off := Degrees(ctx.estimatedYawRad) - gps.groundCourseDeg;
    var k := WrapHalfSpec(off, 180.0);
    assert CourseOff(ctx, gps, k) == Abs(WrapHalf(off, 180.0));
    forall j: int | CourseOff(ctx, gps, j) <= 45.0
      ensures j == k
    {
      assert CourseOff(ctx, gps, j) == Abs(WrapHalf(off, 180.0) + 360.0 * (j - k) as real);
    }
  }

  /** How far heading and course are apart, `k` whole turns added. */
  function CourseOff(ctx: YawDriftContext, gps: YawGpsSample, k: int): real {
    Abs(Degrees(ctx.estimatedYawRad) - gps.groundCourseDeg + 360.0 * k as real)
  }

  // ---- compass hysteresis -----------------------------------------------

  datatype HeadingCheck = HeadingCheck(ctx: YawDriftContext, gps: Option<YawGpsSample>)

  predicate Agreement(check: HeadingCheck) {
    ComparesHeading(check.ctx, check.gps) && HeadingAgrees(check.ctx, check.gps.value)
  }

  predicate Disagreement(check: HeadingCheck) {
    ComparesHeading(check.ctx, check.gps) && !HeadingAgrees(check.ctx, check.gps.value)
  }

  /** The stored time of agreement after a run of checks, starting from `last`. */
  function AfterChecks(last: u32, checks: seq<HeadingCheck>): u32
    decreases |checks|
  {
    if checks == [] then last
    else AfterChecks(CompassVerdict(last, checks[0].ctx, checks[0].gps).1, checks[1..])
  }

  predicate Chronological(checks: seq<HeadingCheck>) {
    forall i, j :: 0 <= i < j < |checks| ==> checks[i].ctx.nowMs <= checks[j].ctx.nowMs
  }

  /** The stored time is the latest of the starting time and every agreement since. */
  lemma {:induction false} StoredAgreement(last: u32, checks: seq<HeadingCheck>, now: u32)
    requires Chronological(checks)
    requires forall i :: 0 <= i < |checks| ==> last <= checks[i].ctx.nowMs <= now
    ensures SaturatingSub(now, AfterChecks(last, checks)) > STALE_HEADING_MS
      <==> SaturatingSub(now, last) > STALE_HEADING_MS
           && forall i :: 0 <= i < |checks| && Agreement(checks[i]) ==> now - checks[i].ctx.nowMs > STALE_HEADING_MS
    decreases |checks|
  {
    hide HeadingAgrees;
    if checks == [] {
    } else {
      var rest := checks[1..];
      assert forall i :: 0 <= i < |rest| ==> rest[i] == checks[i + 1];
      var next := CompassVerdict(last, checks[0].ctx, checks[0].gps).1;
      StoredAgreement(next, rest, now);
      assert forall i :: 1 <= i < |checks| ==> checks[i] == rest[i - 1];
    }
  }

  /** Compass hysteresis, from a fresh corrector on a clock that does not run backwards: an
      enabled compass is refused exactly when this check disagrees, more than two seconds have
      passed since start-up, and every earlier agreement is more than two seconds old. So an
      agreeing check restores the compass at once. */
  lemma CompassRefusedIff(checks: seq<HeadingCheck>, check: HeadingCheck)
    requires Chronological(checks + [check]) && check.ctx.compassUseForYaw
    ensures !CompassVerdict(AfterChecks(0, checks), check.ctx, check.gps).0
      <==> Disagreement(check) && check.ctx.nowMs > STALE_HEADING_MS
           && forall i :: 0 <= i < |checks| && Agreement(checks[i]) ==>
                check.ctx.nowMs - checks[i].ctx.nowMs > STALE_HEADING_MS
  {
    hide HeadingAgrees;
    var all := checks + [check];
    assert all[|checks|] == check;
    assert forall i :: 0 <= i < |checks| ==> checks[i] == all[i];
    StoredAgreement(0, checks, check.ctx.nowMs);
  }

  // ---- which reference --------------------------------------------------

  /** A usable compass always comes first; a GPS course needs three metres a second unless the receiver
      measures yaw itself; a fix is corrected by at most once. A compass reference covers the interval of
      its sample, a GPS reference the time since the last fix that was used, in seconds. */
  lemma ReferenceRules(m: Libm, s: YawState, inp: YawDriftInputs, gains: YawDriftGains, next: YawDriftInputs)
    ensures CompassVerdict(s.lastConsistentHeadingMs, inp.ctx, inp.gps).0 ==> !Reference(m, s, inp).ByGps?
    ensures Reference(m, s, inp).ByGps? ==>
      inp.gps.value.gpsYawDeg.Some? || inp.gps.value.groundSpeed >= 3.0
    ensures YawCorrection(m, s, inp, gains).1.outcome == Corrected && inp.gps.Some? && next.gps.Some?
            && next.gps.value.lastFixTimeMs == inp.gps.value.lastFixTimeMs ==>
      !Reference(m, YawCorrection(m, s, inp, gains).0, next).ByGps?
    ensures Reference(m, s, inp).ByCompass? ==>
      Some(Reference(m, s, inp).deltat) == inp.compass.value.updateIntervalS
    ensures Reference(m, s, inp).ByGps? && s.gpsLastUpdateMs <= inp.gps.value.lastFixTimeMs ==>
      1000.0 * Reference(m, s, inp).deltat == (inp.gps.value.lastFixTimeMs - s.gpsLastUpdateMs) as real
  {
    hide CompassVerdict, YawErrorCompass, YawErrorGps, YawPull, YawIntegral, HardReset, Vec.Times, Mul;
  }

  // ---- hard resets ------------------------------------------------------

  /** The state a run is in when it reaches cycle `i`. */
  function StateBefore(m: Libm, s: YawState, inputs: seq<YawDriftInputs>, gains: YawDriftGains, i: nat): YawState
    requires i < |inputs|
  {
    if i == 0 then s else YawRun(m, s, inputs, gains)[i - 1].0
  }

  /** Cycle `i` corrects against GPS. */
  predicate CorrectsByGps(m: Libm, s: YawState, inputs: seq<YawDriftInputs>, gains: YawDriftGains, i: nat)
    requires i < |inputs|
  {
    !Calibrating(inputs[i]) && Reference(m, StateBefore(m, s, inputs, gains, i), inputs[i]).ByGps?
  }

  lemma {:induction false} RunUnfolds(m: Libm, s: YawState, inputs: seq<YawDriftInputs>, gains: YawDriftGains, i: nat)
    requires i < |inputs|
    ensures YawRun(m, s, inputs, gains)[i]
         == YawCorrection(m, StateBefore(m, s, inputs, gains, i), inputs[i], gains)
    decreases |inputs|
  {
    hide YawCorrection;
    if i == 0 {
    } else {
      var next := YawCorrection(m, s, inputs[0], gains).0;
      RunUnfolds(m, next, inputs[1..], gains, i - 1);
      assert inputs[1..][i - 1] == inputs[i];
    }
  }

  /** A yaw reference has been applied exactly when an earlier cycle corrected by GPS. */
  lemma {:induction false} InitialYawIff(m: Libm, s: YawState, inputs: seq<YawDriftInputs>, gains: YawDriftGains,
                                         i: nat)
    requires i < |inputs|
    ensures StateBefore(m, s, inputs, gains, i).haveInitialYaw
      <==> s.haveInitialYaw || exists j: nat :: j < i && CorrectsByGps(m, s, inputs, gains, j)
  {
    hide CompassVerdict, YawErrorGps, YawErrorCompass, YawPull, YawIntegral, Vec.Times, Mul;
    if i == 0 {
    } else {
      InitialYawIff(m, s, inputs, gains, i - 1);
      RunUnfolds(m, s, inputs, gains, i - 1);
      var before := StateBefore(m, s, inputs, gains, i - 1);
      assert StateBefore(m, s, inputs, gains, i) == YawCorrection(m, before, inputs[i - 1], gains).0;
      if CorrectsByGps(m, s, inputs, gains, i - 1) {
        assert StateBefore(m, s, inputs, gains, i).haveInitialYaw;
      }
    }
  }

  /** When cycle `i` of a run from a fresh corrector asks for a hard reset: it corrects by GPS, and
      it is the first to do so, or follows a gap of more than twenty seconds, or finds a large
      error. A cycle that asks for one leaves no yaw term and adds nothing to the integral. */
  lemma HardResets(m: Libm, inputs: seq<YawDriftInputs>, gains: YawDriftGains, i: nat)
    requires i < |inputs|
    ensures var before := StateBefore(m, FRESH_YAW, inputs, gains, i);
      var (after, result) := YawRun(m, FRESH_YAW, inputs, gains)[i];
      && (result.matrixAction.ResetAttitude? <==>
            && CorrectsByGps(m, FRESH_YAW, inputs, gains, i)
            && var gps := inputs[i].gps.value;
               var gap := SaturatingSub(gps.lastFixTimeMs, before.gpsLastUpdateMs);
               var error := Abs(YawErrorGps(m, GpsHeading(gps), inputs[i].ctx.estimatedYawRad).1);
               || (forall j: nat :: j < i ==> !CorrectsByGps(m, FRESH_YAW, inputs, gains, j))
               || gap > 20000
               || (gps.gpsYawDeg.Some? && error >= 0.35)
               || (gps.groundSpeed >= 9.0 && error >= 1.047))
      && (result.matrixAction.ResetAttitude? ==>
            && after.omegaYawP == ZERO && result.omegaIZ == 0.0
            && result.matrixAction == ResetAttitude(inputs[i].rollRad, inputs[i].pitchRad,
                                                    Radians(GpsHeading(inputs[i].gps.value))))
  {
    hide CompassVerdict, YawErrorGps, YawErrorCompass, Vec.Times, Radians, Libm.Length, Drift.PGain, YawGain;
    InitialYawIff(m, FRESH_YAW, inputs, gains, i);
    RunUnfolds(m, FRESH_YAW, inputs, gains, i);
    ZeroPull(m, inputs[i], gains);
  }

  lemma ZeroPull(m: Libm, inp: YawDriftInputs, gains: YawDriftGains)
    ensures YawPull(m, Mul(inp.dcmMatrix.c.z, 0.0), inp, gains) == 0.0
    ensures forall deltat :: YawIntegral(m, Mul(inp.dcmMatrix.c.z, 0.0), deltat, inp.omega) == 0.0
  {
  }
}
