/** The wind estimate inside the loop: what the loop feeds it, what it offers without GPS, and the
    turning triangle when heading and course differ by a constant angle. */
module AirRuns {
  import opened Vectors
  import opened MathLibrary
  import opened DcmMatrix
  import opened DcmLoop
  import opened Angles
  import opened Drift
  import opened WindEstimation
  import opened WindRuns
  import opened DriftLoop
  import opened LoopRuns
  import opened Heading

  // ---- a constant angle between nose and airspeed -----------------------

  /** A vector swung about the vertical by the angle with sine `s` and cosine `c`. */
  function Swung(f: Vec, s: real, c: real): Vec {
    Vec(Mul(c, f.x) - Mul(s, f.y), Mul(s, f.x) + Mul(c, f.y), f.z)
  }

  /** A velocity at `speed` along the swung fuselage, plus the wind. */
  predicate Crabbing(velocity: Vec, fuselage: Vec, speed: real, s: real, c: real, w: Vec) {
    velocity == Swung(fuselage, s, c).Times(speed).Plus(w)
  }

  /** The turning triangle solves for a constant wind also when the vehicle flies at a constant angle to
      its nose, as long as it turned in the horizontal plane. */
  lemma TurningSampleCrabbing(m: Libm, state: WindState, inp: WindEstimateInputs, speed: real, s: real, c: real, w: Vec)
    requires m.Angular() && speed >= 0.0 && Square(s) + Square(c) == 1.0
    requires Crabbing(inp.velocity, inp.fuselageDirection, speed, s, c, w)
    requires Crabbing(state.lastVel, state.lastFuse, speed, s, c, w)
    requires m.Length(inp.fuselageDirection.Minus(state.lastFuse)) > TURN_FUSE_DIFF_MIN
    requires var turned := inp.fuselageDirection.Minus(state.lastFuse);
      turned.x != 0.0 || turned.y != 0.0
    ensures TurningSample(m, state, inp) == w
  {
    hide Triangle, Libm.Length, Libm.Lawful, Libm.Angular, Swung, Vec.Times, Mul, Square;
    var (f, f') := (inp.fuselageDirection, state.lastFuse);
    var fuseDiff, velDiff := f.Minus(f'), inp.velocity.Minus(state.lastVel);
    var q := Swung(fuseDiff, s, c);
    AngularIsLawful(m, 0.0);
    SwungDifference(f, f', s, c);
    SwungSum(f, f', s, c);
    CrabDifference(Swung(f, s, c), Swung(f', s, c), speed, w);
    SwungLength(m, fuseDiff, s, c);
    ScaledLength(m, q, speed);
    QuotientOfProduct(speed, m.Length(fuseDiff));
    AbsOfSpeed(speed, m.Length(fuseDiff));
    assert m.Length(velDiff) / m.Length(fuseDiff) == speed;
    var theta := m.atan2(velDiff.y, velDiff.x) - m.atan2(fuseDiff.y, fuseDiff.x);
    if speed > 0.0 {
      ScaledDirection(m, q, speed);
      SwungAngle(m, fuseDiff, s, c);
    }
    TriangleCrabbing(speed, m.sin(theta), m.cos(theta), s, c, f.Plus(f'), w);
  }

  lemma AbsOfSpeed(speed: real, l: real)
    requires speed >= 0.0
    ensures Abs(speed) * l == Mul(speed, l)
  {
  }

  lemma SwungDifference(f: Vec, f': Vec, s: real, c: real)
    ensures Swung(f, s, c).Minus(Swung(f', s, c)) == Swung(f.Minus(f'), s, c)
  {
    hide Mul;
    SplitDifference(c, f.x, f'.x);
    SplitDifference(s, f.y, f'.y);
    SplitDifference(s, f.x, f'.x);
    SplitDifference(c, f.y, f'.y);
  }

  lemma SwungSum(f: Vec, f': Vec, s: real, c: real)
    ensures Swung(f, s, c).Plus(Swung(f', s, c)) == Swung(f.Plus(f'), s, c)
  {
    hide Mul;
    MulAdds(c, f.x, f'.x);
    MulAdds(s, f.y, f'.y);
    MulAdds(s, f.x, f'.x);
    MulAdds(c, f.y, f'.y);
  }

  lemma SplitDifference(k: real, x: real, y: real)
    ensures Mul(k, x - y) == Mul(k, x) - Mul(k, y)
  {
  }

  lemma CrabDifference(p: Vec, q: Vec, speed: real, w: Vec)
    ensures p.Times(speed).Plus(w).Minus(q.Times(speed).Plus(w)) == p.Minus(q).Times(speed)
    ensures p.Times(speed).Plus(w).Plus(q.Times(speed).Plus(w)) == p.Plus(q).Times(speed).Plus(w.Plus(w))
  {
    DriftDifference(p, q, speed, w);
    DriftSum(p, q, speed, w);
  }

  /** Swinging keeps lengths, the horizontal one and the whole. */
  lemma SwungLength(m: Libm, f: Vec, s: real, c: real)
    requires m.Lawful() && Square(s) + Square(c) == 1.0
    ensures m.Length(Swung(f, s, c)) == m.Length(f) && m.LengthXy(Swung(f, s, c)) == m.LengthXy(f)
  {
    hide Libm.Lawful, Libm.SafeSqrt, Square, Mul, Vec.Dot;
    SwungSquares(f.x, f.y, s, c);
    DotParts(f, f);
    DotParts(Swung(f, s, c), Swung(f, s, c));
    SquareIsMul(f.x);
    SquareIsMul(f.y);
    SquareIsMul(Swung(f, s, c).x);
    SquareIsMul(Swung(f, s, c).y);
  }

  lemma SwungSquares(x: real, y: real, s: real, c: real)
    requires Square(s) + Square(c) == 1.0
    ensures Square(Mul(c, x) - Mul(s, y)) + Square(Mul(s, x) + Mul(c, y)) == Square(x) + Square(y)
  {
    var p, q, p', q' := c * x, s * y, s * x, c * y;
    assert (p - q) * (p - q) + (p' + q') * (p' + q') == p * p + q * q + p' * p' + q' * q' by {
      assert p * q == p' * q';
    }
    assert p * p + p' * p' == (s * s + c * c) * (x * x);
    assert q * q + q' * q' == (s * s + c * c) * (y * y);
  }

  lemma ScaledDirection(m: Libm, q: Vec, speed: real)
    requires m.Angular() && speed > 0.0
    ensures m.atan2(q.Times(speed).y, q.Times(speed).x) == m.atan2(q.y, q.x)
  {
    assert m.DirectionLaw(q, speed);
  }

  /** The angle between a vector and the swung one is the angle it was swung by. */
  lemma SwungAngle(m: Libm, f: Vec, s: real, c: real)
    requires m.Angular() && Square(s) + Square(c) == 1.0 && (f.x != 0.0 || f.y != 0.0)
    ensures var q := Swung(f, s, c);
      var theta := m.atan2(q.y, q.x) - m.atan2(f.y, f.x);
      m.sin(theta) == s && m.cos(theta) == c
  {
    hide Libm.Lawful, Libm.LengthXy, Square, Mul, Swung;
    var q := Swung(f, s, c);
    AngularIsLawful(m, 0.0);
    SwungLength(m, f, s, c);
    LengthXySpec(m, f);
    var (alpha, beta, l) := (m.atan2(q.y, q.x), m.atan2(f.y, f.x), m.LengthXy(f));
    assert m.PolarLaw(q) && m.PolarLaw(f);
    DifferenceLaw(m, alpha, beta);
    PositiveSquare(f.x, f.y);
    SwungOf(f, s, c);
    SquareIsMul(l);
    PolarProducts(l, m.sin(alpha), m.cos(alpha), m.sin(beta), m.cos(beta), f.x, f.y, q.x, q.y, s, c);
    CommonFactor(m.sin(alpha - beta), s, Square(l));
    CommonFactor(m.cos(alpha - beta), c, Square(l));
  }

  lemma CommonFactor(x: real, y: real, d: real)
    requires d > 0.0 && Mul(x, d) == Mul(y, d)
    ensures x == y
  {
    SameFactor(x, y, d);
  }

  lemma SwungOf(f: Vec, s: real, c: real)
    ensures Swung(f, s, c).x == Mul(c, f.x) - Mul(s, f.y) && Swung(f, s, c).y == Mul(s, f.x) + Mul(c, f.y)
  {
  }

  lemma PositiveSquare(x: real, y: real)
    requires x != 0.0 || y != 0.0
    ensures Square(x) + Square(y) > 0.0
  {
    SquareNonNegative(x);
    SquareNonNegative(y);
    if x != 0.0 {
      ProductPositive(x, x);
    }
    if y != 0.0 {
      ProductPositive(y, y);
    }
  }

  lemma PolarProducts(l: real, sa: real, ca: real, sb: real, cb: real, x: real, y: real, x': real, y': real,
                      s: real, c: real)
    requires x' == Mul(l, ca) && y' == Mul(l, sa) && x == Mul(l, cb) && y == Mul(l, sb)
    requires x' == Mul(c, x) - Mul(s, y) && y' == Mul(s, x) + Mul(c, y) && Square(l) == Square(x) + Square(y)
    ensures Mul(Mul(sa, cb) - Mul(ca, sb), Square(l)) == Mul(s, Square(l))
    ensures Mul(Mul(ca, cb) + Mul(sa, sb), Square(l)) == Mul(c, Square(l))
  {
    hide Mul, Square;
    PolarExpand(l, sa, ca, sb, cb);
    SwungProducts(x, y, s, c, Square(l));
  }

  lemma PolarExpand(l: real, sa: real, ca: real, sb: real, cb: real)
    ensures Mul(Mul(sa, cb) - Mul(ca, sb), Square(l)) == Mul(Mul(l, sa), Mul(l, cb)) - Mul(Mul(l, ca), Mul(l, sb))
    ensures Mul(Mul(ca, cb) + Mul(sa, sb), Square(l)) == Mul(Mul(l, ca), Mul(l, cb)) + Mul(Mul(l, sa), Mul(l, sb))
  {
    hide Mul, Square;
    LengthsOut(l, sa, cb);
    LengthsOut(l, ca, sb);
    LengthsOut(l, ca, cb);
    LengthsOut(l, sa, sb);
    SumOut(Mul(sa, cb), Mul(ca, sb), Square(l));
    SumOut(Mul(ca, cb), Mul(sa, sb), Square(l));
  }

  lemma LengthsOut(l: real, x: real, y: real)
    ensures Mul(Mul(l, x), Mul(l, y)) == Mul(Mul(x, y), Square(l))
  {
    assert (l * x) * (l * y) == (x * y) * (l * l);
  }

  lemma SwungProducts(x: real, y: real, s: real, c: real, ll: real)
    requires ll == Square(x) + Square(y)
    ensures Mul(Mul(s, x) + Mul(c, y), x) - Mul(Mul(c, x) - Mul(s, y), y) == Mul(s, ll)
    ensures Mul(Mul(c, x) - Mul(s, y), x) + Mul(Mul(s, x) + Mul(c, y), y) == Mul(c, ll)
  {
    hide Mul, Square;
    SwungTimes(s, c, x, y, x);
    SwungTimes(c, -s, x, y, y);
    SwungTimes(c, -s, x, y, x);
    SwungTimes(s, c, x, y, y);
    Mirrored(s, y);
    Mirrored(s, Mul(y, x));
    Mirrored(s, Mul(y, y));
    MulSymmetric(x, y);
    SquareIsMul(x);
    SquareIsMul(y);
    MulAdds(s, Square(x), Square(y));
    MulAdds(c, Square(x), Square(y));
  }

  lemma SwungTimes(p: real, q: real, x: real, y: real, z: real)
    ensures Mul(Mul(p, x) + Mul(q, y), z) == Mul(p, Mul(x, z)) + Mul(q, Mul(y, z))
  {
    assert (p * x) * z == p * (x * z) && (q * y) * z == q * (y * z);
  }

  lemma TriangleCrabbing(speed: real, sinTheta: real, cosTheta: real, s: real, c: real, fuseSum: Vec, w: Vec)
    requires speed == 0.0 || (sinTheta == s && cosTheta == c)
    ensures Triangle(speed, sinTheta, cosTheta, fuseSum, Swung(fuseSum, s, c).Times(speed).Plus(w.Plus(w))) == w
  {
    hide Vec.Times, Mul, Swung, Triangle;
    var q, q' := Swung(fuseSum, s, c), Swung(fuseSum, sinTheta, cosTheta);
    TimesParts(q, speed);
    TriangleParts(speed, sinTheta, cosTheta, fuseSum, q.Times(speed).Plus(w.Plus(w)));
    MulSymmetric(q.x, speed);
    MulSymmetric(q.y, speed);
    MulSymmetric(q.z, speed);
    ZeroTimesAny(q.x);
    ZeroTimesAny(q.y);
    ZeroTimesAny(q.z);
    ZeroTimesAny(q'.x);
    ZeroTimesAny(q'.y);
    ZeroTimesAny(q'.z);
  }

  lemma TriangleParts(v: real, sinTheta: real, cosTheta: real, fuseSum: Vec, velSum: Vec)
    ensures var q := Swung(fuseSum, sinTheta, cosTheta);
      Triangle(v, sinTheta, cosTheta, fuseSum, velSum)
      == Vec((velSum.x - Mul(v, q.x)) * 0.5, (velSum.y - Mul(v, q.y)) * 0.5, (velSum.z - Mul(v, q.z)) * 0.5)
  {
    RawSwing(fuseSum, sinTheta, cosTheta);
  }

  lemma RawSwing(f: Vec, s: real, c: real)
    ensures Swung(f, s, c) == Vec(c * f.x - s * f.y, s * f.x + c * f.y, f.z)
  {
  }

  // ---- the loop ---------------------------------------------------------

  /** A motion sample in wind `w` at true airspeed `speed`: a new fix shows the nose at that speed plus the
      wind, and an airspeed that is read is that speed. */
  predicate FlownIn(matrix: Mat, motion: DriftMotionInputs, speed: real, w: Vec) {
    motion.newGpsFix && motion.gpsVelocity.Some? ==>
      && Drifting(motion.gpsVelocity.value, matrix.ColX(), speed, w)
      && (motion.airspeedTas > 0.0 ==> motion.airspeedTas == speed)
  }

  /** The loop hands the estimator exact readings: the equivalent airspeed it derives scales back to the
      true one. */
  lemma LoopCallsExact(matrix: Mat, motion: DriftMotionInputs, speed: real, w: Vec)
    requires motion.newGpsFix && motion.gpsVelocity.Some? && FlownIn(matrix, motion, speed, w)
    ensures ExactCall(WindInputs(matrix, motion), speed, w)
    ensures WindInputs(matrix, motion).airspeedEas.Some? <==> motion.airspeedTas > 0.0 && motion.eas2tas > 0.0
  {
    if motion.airspeedTas > 0.0 && motion.eas2tas > 0.0 {
      QuotientOf(motion.airspeedTas, motion.eas2tas);
    }
  }

  /** The wind after a tick is the wind after its estimate. */
  lemma TickWind(m: Libm, v: Vehicle, tick: Tick, gains: Gains)
    ensures Step(m, v, tick, gains).vehicle.loop.wind
         == WindUpdated(m, v.loop.wind, MatrixStep(m, v.dcm, tick.ins, DriftOmega(v.loop)).0.matrix, tick.motion)
  {
    hide MatrixStep, Accumulated, AddedTime, Positioned, OfferedVelocity, Attempted, YawCorrected, Estimated,
      WindInputs;
    DuplicateCallsHarmless(m, v, tick, gains);
    AttemptKeepsWind(m, BeforeAttempt(m, v, tick), MatrixStep(m, v.dcm, tick.ins, DriftOmega(v.loop)).0, tick, gains);
    if tick.yaw.Some? {
      YawKeepsWind(m, v, tick, gains);
    }
  }

  lemma AttemptKeepsWind(m: Libm, s: LoopState, dcm: DcmState, tick: Tick, gains: Gains)
    ensures AttemptWith(m, s, dcm, tick.ins, tick.motion, OfferedVelocity(s.wind, dcm.matrix, tick.motion), gains.drift)
              .0.wind == s.wind
  {
    hide Selected, Correction, CorrectionInputs, OfferedVelocity;
  }

  lemma YawKeepsWind(m: Libm, v: Vehicle, tick: Tick, gains: Gains)
    requires tick.yaw.Some?
    ensures Step(m, v, tick, gains).vehicle.loop.wind
         == Attempt(m, BeforeAttempt(m, v, tick), MatrixStep(m, v.dcm, tick.ins, DriftOmega(v.loop)).0, tick.ins,
                    tick.motion, gains.drift).0.wind
  {
    hide MatrixStep, BeforeAttempt, Attempt, HorizontalAcceleration, Yaw.YawCorrection, YawInputs;
  }

  /** The gate of the estimator holds for ticks: with estimation off, or within a tenth of a second of the
      last estimate, a tick leaves the wind alone; any other new fix is an estimate made at its time. */
  lemma TickWindGate(m: Libm, v: Vehicle, tick: Tick, gains: Gains)
    ensures var (wind, after) := (v.loop.wind, Step(m, v, tick, gains).vehicle.loop.wind);
      var elapsed := (tick.motion.nowMs - wind.lastEstimateMs) % CLOCK;
      && (!tick.motion.windEstimationEnabled || elapsed < 100 ==> after == wind)
      && (tick.motion.windEstimationEnabled && elapsed >= 100 && tick.motion.newGpsFix
          && tick.motion.gpsVelocity.Some? ==>
            after.lastEstimateMs == tick.motion.nowMs)
  {
    hide Step, MatrixStep, TurningSample, StraightSample, Blend, Libm.Length;
    TickWind(m, v, tick, gains);
  }

  /** Wind recovery by the loop: over any run of ticks in constant wind the error of the estimate is the
      error at its start times exactly 0.95 per turning and 0.92 per straight blend. */
  lemma {:induction false} LoopRecoversWind(m: Libm, v: Vehicle, ticks: seq<Tick>, gains: Gains, speed: real, w: Vec,
                                            k: nat)
    returns (turns: nat, straights: nat)
    requires m.Lawful() && speed >= 0.0 && k <= |ticks|
    requires Drifting(v.loop.wind.lastVel, v.loop.wind.lastFuse, speed, w)
    requires forall i :: 0 <= i < k ==> FlownAt(m, v, ticks, gains, speed, w, i)
    ensures var wind := VehicleAt(m, v, ticks, gains, k).loop.wind;
      && Drifting(wind.lastVel, wind.lastFuse, speed, w)
      && wind.wind.Minus(w) == v.loop.wind.wind.Minus(w).Times(Mul(Pow(0.95, turns), Pow(0.92, straights)))
  {
    hide Vec.Minus, Vec.Times, Estimated, Libm.Lawful, Drifting, FlownIn, MatrixStep, Step;
    if k == 0 {
      turns, straights := 0, 0;
      OneTimes(1.0);
      TimesOne(v.loop.wind.wind.Minus(w));
    } else {
      turns, straights := LoopRecoversWind(m, v, ticks, gains, speed, w, k - 1);
      var (here, tick) := (VehicleAt(m, v, ticks, gains, k - 1), ticks[k - 1]);
      assert FlownAt(m, v, ticks, gains, speed, w, k - 1);
      var matrix := MatrixStep(m, here.dcm, tick.ins, DriftOmega(here.loop)).0.matrix;
      TickWind(m, here, tick, gains);
      if tick.motion.newGpsFix && tick.motion.gpsVelocity.Some? {
        LoopCallsExact(matrix, tick.motion, speed, w);
        ConstantWindStep(m, here.loop.wind, WindInputs(matrix, tick.motion), speed, w);
        var outcome := Estimated(m, here.loop.wind, WindInputs(matrix, tick.motion)).1;
        var (p, q) := (Pow(0.95, turns), Pow(0.92, straights));
        TimesTwice(v.loop.wind.wind.Minus(w), Mul(p, q), Shrink(outcome));
        MulRegroups(p, q);
        MulSymmetric(Mul(p, q), Shrink(outcome));
        turns := turns + if outcome == TurnBlended then 1 else 0;
        straights := straights + if outcome == StraightBlended then 1 else 0;
      }
    }
  }

  predicate FlownAt(m: Libm, v: Vehicle, ticks: seq<Tick>, gains: Gains, speed: real, w: Vec, i: nat)
    requires i < |ticks|
  {
    var here := VehicleAt(m, v, ticks, gains, i);
    FlownIn(MatrixStep(m, here.dcm, ticks[i].ins, DriftOmega(here.loop)).0.matrix, ticks[i].motion, speed, w)
  }

  /** The velocity offered without GPS is off by exactly the error of the wind estimate. */
  lemma OfferedVelocityError(wind: WindState, matrix: Mat, motion: DriftMotionInputs, w: Vec)
    requires !motion.haveGps && motion.flyForward && motion.airspeedTas > 0.0
    ensures var flown := matrix.ColX().Times(motion.airspeedTas).Plus(w);
      && OfferedVelocity(wind, matrix, motion).Some?
      && OfferedVelocity(wind, matrix, motion).value.Minus(flown) == wind.wind.Minus(w)
  {
    hide Vec.Times, Mat.ColX;
  }
}
