/** Why drift correction works: turning the attitude by the pull it computes brings the measured
    direction of gravity closer to the reference. */
module Alignment {
  import opened Vectors
  import opened MathLibrary
  import opened Wrappers
  import opened DcmMatrix
  import opened DcmLoop
  import opened MultiAccel
  import opened Drift
  import opened DriftBounds
  import opened DriftLoop
  import opened LoopRuns
  import opened SelectionRuns
  import opened ClosedLoop
  import opened BodyFrame

  // ---- turning by the error ---------------------------------------------

  /** Where the vector seen along `b` points after turning by `k` times the error against `e`. */
  ghost function Turned(r: Mat, b: Vec, e: Vec, k: real): Vec
    requires NormalRows(r)
  {
    r.Rotate(r.MulTranspose(b.Cross(e)).Times(k)).Mul(BodyDirection(r, b))
  }

  /** The point between `b` and `e` with the given weights. */
  function Between(b: Vec, p: real, e: Vec, q: real): Vec { b.Times(p).Plus(e.Times(q)) }

  /** It moves within the plane of `b` and `e`, whatever the skew of the attitude. */
  lemma TurnedBetween(r: Mat, b: Vec, e: Vec, k: real)
    requires NormalRows(r) && -1.0 < Skew(r) < 1.0
    ensures var (u, step) := (Unmixed(Skew(r), b), Mul(k, r.Det()));
      Turned(r, b, e, k) == Between(b, 1.0 - Mul(step, e.Dot(u)), e, Mul(step, b.Dot(u)))
  {
    hide Vec.Cross, Vec.Dot, Vec.Times, Vec.Minus, Vec.Plus, Mat.Rotate, Mat.Mul, Mat.MulTranspose, Mat.Det,
      NormalRows, Unmixed, Mul, Between;
    var n, u := b.Cross(e), Unmixed(Skew(r), b);
    var v := BodyDirection(r, b);
    RotatedImage(r, r.MulTranspose(n).Times(k), v);
    BodyDirectionShown(r, b);
    CrossTimesLeft(r.MulTranspose(n), k, v);
    MulTimes(r, r.MulTranspose(n).Cross(v), k);
    CrossInBody(r, n, u);
    TimesTwice(n.Cross(u), r.Det(), k);
    MulSymmetric(r.Det(), k);
    CrossOpposite(n, u);
    TripleProduct(u, b, e);
    DotSymmetric(u, e);
    DotSymmetric(u, b);
    Weighted(b, e, e.Dot(u), b.Dot(u), Mul(k, r.Det()));
  }

  lemma Weighted(b: Vec, e: Vec, x: real, y: real, k: real)
    ensures b.Plus(ZERO.Minus(b.Times(x).Minus(e.Times(y))).Times(k)) == Between(b, 1.0 - Mul(k, x), e, Mul(k, y))
  {
    hide Vec.Times, Mul;
    TimesParts(b, x);
    TimesParts(e, y);
    TimesParts(ZERO.Minus(b.Times(x).Minus(e.Times(y))), k);
    TimesParts(b, 1.0 - Mul(k, x));
    TimesParts(e, Mul(k, y));
    WeightedPart(b.x, e.x, x, y, k);
    WeightedPart(b.y, e.y, x, y, k);
    WeightedPart(b.z, e.z, x, y, k);
  }

  lemma WeightedPart(b: real, e: real, x: real, y: real, k: real)
    ensures b + Mul(0.0 - (Mul(b, x) - Mul(e, y)), k) == Mul(b, 1.0 - Mul(k, x)) + Mul(e, Mul(k, y))
  {
    assert (0.0 - (b * x - e * y)) * k == (e * y) * k - (b * x) * k;
    assert b * (1.0 - k * x) == b - b * (k * x);
  }

  // ---- getting closer ---------------------------------------------------

  lemma BetweenProducts(b: Vec, p: real, e: Vec, q: real)
    requires b.LengthSquared() == 1.0 && e.LengthSquared() == 1.0
    ensures var (c, t) := (b.Dot(e), Between(b, p, e, q));
      && t.Dot(e) == Mul(p, c) + q
      && t.LengthSquared() == Square(p) + 2.0 * Mul(Mul(p, q), c) + Square(q)
  {
    hide Vec.Dot, Vec.Times, Vec.Plus, Mul, Square;
    var u, v := b.Times(p), e.Times(q);
    DotDistributes(u, v, e);
    DotSymmetric(u, e);
    DotSymmetric(v, e);
    DotTimes(e, b, p);
    DotTimes(e, e, q);
    DotSymmetric(e, b);
    SumLengthSquared(u, v);
    TimesLengthSquared(b, p);
    TimesLengthSquared(e, q);
    DotTimes(u, e, q);
    OneTimes(Square(p));
    OneTimes(Square(q));
    MulSymmetric(q, 1.0);
    OneTimes(q);
    MulAssociates(q, p, b.Dot(e));
    MulSymmetric(q, p);
  }

  /** A vector between `b` and `e`, and not on `b`, makes a smaller angle with `e` than `b` does. */
  lemma BetweenIsCloser(m: Libm, b: Vec, p: real, e: Vec, q: real)
    requires m.Lawful() && b.LengthSquared() == 1.0 && e.LengthSquared() == 1.0
    requires 0.0 <= p && 0.0 < q && Square(b.Dot(e)) < 1.0
    ensures Mul(b.Dot(e), m.Length(Between(b, p, e, q))) < Between(b, p, e, q).Dot(e)
  {
    hide Vec.Dot, Vec.LengthSquared, Between, Libm.Length, Libm.Lawful, Mul, Square;
    BetweenProducts(b, p, e, q);
    LengthSpec(m, Between(b, p, e, q));
    CosineGrows(b.Dot(e), p, q, m.Length(Between(b, p, e, q)));
  }

  lemma CosineGrows(c: real, p: real, q: real, l: real)
    requires 0.0 <= p && 0.0 < q && Square(c) < 1.0 && 0.0 <= l
    requires Square(l) == Square(p) + 2.0 * Mul(Mul(p, q), c) + Square(q)
    ensures Mul(c, l) < Mul(p, c) + q
  {
    hide Mul, Square;
    var x, y := Mul(p, c) + q, Mul(c, l);
    SquareOfMul(c, l);
    CosineSquares(c, p, q, Square(l));
    if c >= 0.0 {
      MulNonNegative(p, c);
      SquareReflects(y, x);
    } else if x >= 0.0 {
      PositiveLength(c, p, q, l);
      ProductPositive(-c, l);
      NegativeFactor(c, l);
    } else {
      Negated(x);
      Negated(y);
      MulNonNegative(-c, l);
      NegativeFactor(c, l);
      SquareReflects(-x, -y);
    }
  }

  lemma PositiveLength(c: real, p: real, q: real, l: real)
    requires 0.0 <= p && 0.0 < q && Square(c) < 1.0 && 0.0 <= l
    requires Square(l) == Square(p) + 2.0 * Mul(Mul(p, q), c) + Square(q)
    ensures 0.0 < l
  {
    hide Mul, Square;
    AsSquares(c, p, q);
    SquareNonNegative(Mul(p, c) + q);
    SquareNonNegative(p);
    MulNonNegative(Square(p), 1.0 - Square(c));
    SquareIsMul(l);
    SquareIsMul(p);
    SquareIsMul(Mul(p, c) + q);
    if p == 0.0 {
      ZeroTimesAny(c);
      ProductPositive(q, q);
    } else {
      ProductPositive(p, p);
      ProductPositive(Square(p), 1.0 - Square(c));
    }
    if l == 0.0 {
      ZeroTimesAny(l);
    }
  }

  lemma AsSquares(c: real, p: real, q: real)
    ensures Square(p) + 2.0 * Mul(Mul(p, q), c) + Square(q)
         == Square(Mul(p, c) + q) + Mul(Square(p), 1.0 - Square(c))
  {
    var r := p * c;
    assert (r + q) * (r + q) == r * r + 2.0 * (r * q) + q * q;
    assert r * r == (p * p) * (c * c) && r * q == (p * q) * c;
    assert (p * p) * (1.0 - c * c) == p * p - (p * p) * (c * c);
  }

  /** The squares of both sides differ by q (1 - c^2) (q + 2 p c). */
  lemma CosineSquares(c: real, p: real, q: real, ll: real)
    requires 0.0 <= p && 0.0 < q && Square(c) < 1.0
    requires ll == Square(p) + 2.0 * Mul(Mul(p, q), c) + Square(q)
    ensures c >= 0.0 ==> Mul(Square(c), ll) < Square(Mul(p, c) + q)
    ensures Mul(p, c) + q < 0.0 ==> Square(Mul(p, c) + q) < Mul(Square(c), ll)
  {
    var x, s := Mul(p, c) + q, 1.0 - Square(c);
    var gap := q + 2.0 * Mul(p, c);
    ProductPositive(q, s);
    if c >= 0.0 {
      MulNonNegative(p, c);
      ProductPositive(Mul(q, s), gap);
    }
    if x < 0.0 {
      ProductPositive(Mul(q, s), gap);
    }
    GapOfSquares(c, p, q, ll);
  }

  lemma GapOfSquares(c: real, p: real, q: real, ll: real)
    requires ll == Square(p) + 2.0 * Mul(Mul(p, q), c) + Square(q)
    ensures Square(Mul(p, c) + q) - Mul(Square(c), ll) == Mul(Mul(q, 1.0 - Square(c)), q + 2.0 * Mul(p, c))
  {
    var r, cc := Mul(p, c), Square(c);
    ScaledLengthSquare(c, p, q, r, cc, ll);
    SquareGap(r, q, cc);
  }

  lemma ScaledLengthSquare(c: real, p: real, q: real, r: real, cc: real, ll: real)
    requires r == Mul(p, c) && cc == Square(c)
    requires ll == Square(p) + 2.0 * Mul(Mul(p, q), c) + Square(q)
    ensures Mul(cc, ll) == Square(r) + 2.0 * Mul(cc, Mul(r, q)) + Mul(cc, Square(q))
  {
    assert (p * q) * c == r * q;
    assert (c * c) * (p * p) == r * r;
    assert cc * (p * p + 2.0 * (r * q) + q * q) == cc * (p * p) + 2.0 * (cc * (r * q)) + cc * (q * q);
  }

  lemma SquareGap(r: real, q: real, cc: real)
    ensures Square(r + q) - (Square(r) + 2.0 * Mul(cc, Mul(r, q)) + Mul(cc, Square(q)))
         == Mul(Mul(q, 1.0 - cc), q + 2.0 * r)
  {
    assert (r + q) * (r + q) == r * r + 2.0 * (r * q) + q * q;
    assert (q * (1.0 - cc)) * (q + 2.0 * r) == q * q + 2.0 * (r * q) - cc * (q * q) - 2.0 * (cc * (r * q));
  }

  // ---- the pull of the corrector ----------------------------------------

  /** The gain of a cycle: never below the floor, eightfold while converging. */
  function PullGain(m: Libm, omega: Vec, gains: DriftGains): (gain: real) {
    Mul(Mul(PGain(m.Length(omega)), FlooredGain(gains.kp, RP_P_MIN)), if gains.fastGains then 8.0 else 1.0)
  }

  lemma PullGainPositive(m: Libm, omega: Vec, gains: DriftGains)
    ensures RP_P_MIN <= PullGain(m, omega, gains)
  {
    hide PGain;
    var p, k := PGain(m.Length(omega)), FlooredGain(gains.kp, RP_P_MIN);
    PGainRange(m.Length(omega));
    ProductMonotone(1.0, p, k);
    assert Mul(p, k) >= RP_P_MIN;
  }

  lemma PullIsGain(m: Libm, error: Vec, omega: Vec, gains: DriftGains)
    ensures ProportionalTerm(m, error, omega, gains) == error.Times(PullGain(m, omega, gains))
  {
    hide PGain, FlooredGain, Vec.Times;
    var gain := Mul(PGain(m.Length(omega)), FlooredGain(gains.kp, RP_P_MIN));
    TimesTwice(error, gain, 8.0);
    assert Mul(gain, 1.0) == gain;
  }

  /** The attitude `next`, taken for `r`, carries the vector `r` shows along `b` toward the reference `e`.
      It goes in the plane of the two, with a weight on `e` of gain, time and determinant, up to a
      factor that skew alone keeps from one; and as long as gain and time do not exceed one less the
      skew, its angle to the reference shrinks. */
  ghost predicate CarriedToward(m: Libm, r: Mat, next: Mat, b: Vec, e: Vec, gain: real, dt: real)
    requires NormalRows(r)
  {
    && -1.0 < Skew(r) < 1.0
    && var (u, turned) := (Unmixed(Skew(r), b), next.Mul(BodyDirection(r, b)));
    && var step := Mul(Mul(gain, dt), r.Det());
    && turned == Between(b, 1.0 - Mul(step, e.Dot(u)), e, Mul(step, b.Dot(u)))
    && Mul(1.0 + Abs(Skew(r)), b.Dot(u)) >= 1.0
    && (0.0 < Mul(gain, dt) <= 1.0 - Abs(Skew(r)) && Square(b.Dot(e)) < 1.0 ==>
          Mul(b.Dot(e), m.Length(turned)) < turned.Dot(e))
  }

  /** Turning the attitude for `dt` seconds at the rate `omegaP` does so. */
  ghost predicate TurnsToward(m: Libm, r: Mat, omegaP: Vec, b: Vec, e: Vec, gain: real, dt: real)
    requires NormalRows(r)
  {
    CarriedToward(m, r, r.Rotate(omegaP.Times(dt)), b, e, gain, dt)
  }

  /** Both weights of a turned vector are on the right side. */
  lemma WeightsFit(k: real, d: real, f: real, eu: real, bu: real)
    requires 0.0 < k <= 1.0 - f && 0.0 < d <= 1.0 && 0.0 <= f
    requires Mul(1.0 + f, bu) >= 1.0 && Mul(1.0 - f, eu) <= 1.0
    ensures 0.0 <= 1.0 - Mul(Mul(k, d), eu) && 0.0 < Mul(Mul(k, d), bu)
  {
    hide Mul;
    var step := Mul(k, d);
    ProductPositive(k, d);
    ScaledOrder(d, 1.0, k);
    MulSymmetric(k, 1.0);
    OneTimes(k);
    ZeroTimesAny(1.0 + f);
    MulSymmetric(0.0, 1.0 + f);
    if bu != 0.0 {
      ProductPositive(1.0 + f, bu);
    }
    ProductPositive(step, bu);
    if eu > 0.0 {
      ProductMonotone(step, 1.0 - f, eu);
    } else {
      MulNonNegative(step, -eu);
      NegativeFactor(eu, step);
      MulSymmetric(step, eu);
      MulSymmetric(step, -eu);
    }
  }

  /** The proportional term computed from the error b x e turns the attitude toward `e`. */
  lemma PullTurnsToward(m: Libm, r: Mat, b: Vec, e: Vec, omega: Vec, gains: DriftGains, dt: real)
    requires m.Lawful() && NormalRows(r) && b.LengthSquared() == 1.0 && e.LengthSquared() == 1.0
    ensures TurnsToward(m, r, ProportionalTerm(m, r.MulTranspose(b.Cross(e)), omega, gains), b, e,
                        PullGain(m, omega, gains), dt)
  {
    hide Vec.Cross, Vec.Dot, Vec.Times, Vec.LengthSquared, Mat.Rotate, Mat.Mul, Mat.MulTranspose, Mat.Det,
      BodyDirection, ProportionalTerm, PullGain, Libm.Length, Libm.Lawful, NormalRows, Unmixed, Between, Mul, Square,
      Skew;
    var k := Mul(PullGain(m, omega, gains), dt);
    DetOfSkew(r);
    var u := Unmixed(Skew(r), b);
    PullIsGain(m, r.MulTranspose(b.Cross(e)), omega, gains);
    TimesTwice(r.MulTranspose(b.Cross(e)), PullGain(m, omega, gains), dt);
    TurnedBetween(r, b, e, k);
    UnmixedBounds(Skew(r), b, e);
    if 0.0 < k <= 1.0 - Abs(Skew(r)) && Square(b.Dot(e)) < 1.0 {
      WeightsFit(k, r.Det(), Abs(Skew(r)), e.Dot(u), b.Dot(u));
      BetweenIsCloser(m, b, 1.0 - Mul(Mul(k, r.Det()), e.Dot(u)), e, Mul(Mul(k, r.Det()), b.Dot(u)));
    }
  }

  /** Without skew the weights are plain: turning by `k` times the error adds exactly k (1 - c^2) to
      the agreement c with the reference. */
  lemma TurnedAlignment(r: Mat, b: Vec, e: Vec, k: real)
    requires RightHanded(r) && b.LengthSquared() == 1.0 && e.LengthSquared() == 1.0
    ensures var c := b.Dot(e);
      && NormalRows(r) && BodyDirection(r, b) == r.MulTranspose(b)
      && Turned(r, b, e, k).Dot(e) == c + Mul(k, 1.0 - Square(c))
      && Turned(r, b, e, k).LengthSquared() == 1.0 + Mul(Square(k), 1.0 - Square(c))
  {
    hide Vec.Dot, Mat.Det, Mat.MulTranspose, RightHanded, NormalRows, Between, Turned, Mul, Square, Skew;
    RotationIsNormal(r);
    Unskewed(b);
    TurnedBetween(r, b, e, k);
    DotSymmetric(e, b);
    MulSymmetric(k, 1.0);
    OneTimes(k);
    var c := b.Dot(e);
    BetweenProducts(b, 1.0 - Mul(k, c), e, k);
    MulSymmetric(k, c);
    StepScalars(c, k);
  }

  lemma StepScalars(c: real, k: real)
    ensures var p := 1.0 - Mul(k, c);
      && Mul(p, c) + k == c + Mul(k, 1.0 - Square(c))
      && Square(p) + 2.0 * Mul(Mul(p, k), c) + Square(k) == 1.0 + Mul(Square(k), 1.0 - Square(c))
      && Mul(k, 1.0) == k
  {
    var r := k * c;
    assert (1.0 - r) * c == c - r * c && r * c == k * (c * c);
    assert (1.0 - r) * (1.0 - r) == 1.0 - 2.0 * r + r * r;
    assert ((1.0 - r) * k) * c == r - r * r;
    assert r * r == (k * k) * (c * c);
  }

  /** The direction the selected accelerometer was scored on. */
  function ScoredDirection(m: Libm, s: LoopState, ins: InsReading, motion: DriftMotionInputs, velocity: Option<Vec>,
                           gains: DriftGains): Option<Vec>
  {
    var measured := Measured(s.raSum, ins.AccelUsable, LoopScale(s.raDeltat), UsesLag(s, motion), s.lag,
                             ins.AccelCount()).0;
    var selection := Selected(m, s, ins, motion, velocity, gains).0;
    if selection == None || measured[selection.value.activeInstance] == None then None
    else Direction(m, measured[selection.value.activeInstance].value)
  }

  lemma ScoredError(m: Libm, s: LoopState, ins: InsReading, motion: DriftMotionInputs, velocity: Option<Vec>,
                    gains: DriftGains)
    requires m.Lawful() && Selected(m, s, ins, motion, velocity, gains).0.Some?
    ensures var gaE := LoopReference(m, VelocityDelta(s, motion, velocity), Mul(gains.gpsGain, LoopScale(s.raDeltat)));
      var scored := ScoredDirection(m, s, ins, motion, velocity, gains);
      && scored.Some? && scored.value.LengthSquared() == 1.0
      && Selected(m, s, ins, motion, velocity, gains).0.value.errorEf == scored.value.Cross(gaE)
  {
    hide Libm.Lawful, Libm.Normalized, IsZeroVec, Vec.Cross, Vec.Dot, LoopReference, VelocityDelta, LoopScale, Mul;
    var gaE := LoopReference(m, VelocityDelta(s, motion, velocity), Mul(gains.gpsGain, LoopScale(s.raDeltat)));
    var measured := Measured(s.raSum, ins.AccelUsable, LoopScale(s.raDeltat), UsesLag(s, motion), s.lag,
                             ins.AccelCount()).0;
    BestIsArgmin(m, measured, gaE, |measured|);
    var best := Selected(m, s, ins, motion, velocity, gains).0.value.activeInstance;
    NormalizedIsUnit(m, measured[best].value);
  }

  lemma CorrectedAttempt(m: Libm, s: LoopState, dcm: DcmState, ins: InsReading, motion: DriftMotionInputs,
                         velocity: Option<Vec>, gains: DriftGains)
    requires Selected(m, s, ins, motion, velocity, gains).0.Some?
    requires Attempted(m, s, dcm, ins, motion, velocity, gains).1 == Corrected
    ensures var selection := Selected(m, s, ins, motion, velocity, gains).0;
      && s.raDeltat > 0.0
      && GravityReference(m, VelocityDelta(s, motion, velocity), Mul(gains.gpsGain, RaScale(s.raDeltat))).Some?
      && Attempted(m, s, dcm, ins, motion, velocity, gains).0.corrector
         == Applied(m, s.corrector, selection.value.errorEf, selection.value.bestError,
                    CorrectionInputs(s, dcm, ins, motion, velocity, selection), gains)
  {
    hide Selected, Applied, GravityReference, VelocityDelta, RaScale, Direction, IsZeroVec, Vec.Times, Mul;
  }

  lemma AppliedPull(m: Libm, c: DriftState, errorEf: Vec, bestError: real, inp: DriftInputs, gains: DriftGains)
    requires inp.insHealthy
    ensures Applied(m, c, errorEf, bestError, inp, gains).omegaP
         == ProportionalTerm(m, inp.dcmMatrix.MulTranspose(errorEf), inp.omega, gains)
  {
    hide ProportionalTerm, Mat.MulTranspose;
  }

  /** An attempt of a vehicle whose primary gyro or accelerometer is not healthy leaves no pull. */
  lemma UnhealthyAttempt(m: Libm, s: LoopState, dcm: DcmState, ins: InsReading, motion: DriftMotionInputs,
                         velocity: Option<Vec>, gains: DriftGains)
    requires !ins.gyroHealthy || !ins.AccelUsable(ins.primary)
    requires Attempted(m, s, dcm, ins, motion, velocity, gains).1 == Corrected
    ensures Attempted(m, s, dcm, ins, motion, velocity, gains).0.corrector.omegaP == ZERO
  {
    hide Selected, Judged, VelocityDelta, Applied;
    var (selection, held) := Selected(m, s, ins, motion, velocity, gains);
    UnhealthyNoPull(m, s.corrector, CorrectionInputs(s, dcm, ins, motion, velocity, selection), gains, held);
  }

  /** Every correction of a healthy vehicle, on an attitude such as any accepted normalisation leaves,
      that selected an accelerometer, with GPS or without: the pull it leaves behind turns the attitude
      so that the direction that accelerometer was scored on comes closer to the reference. */
  lemma AttemptTurnsToward(m: Libm, s: LoopState, dcm: DcmState, ins: InsReading, motion: DriftMotionInputs,
                           velocity: Option<Vec>, gains: DriftGains, dt: real)
    requires m.Lawful() && NormalRows(dcm.matrix) && ins.gyroHealthy && ins.AccelHealthy()
    requires Selected(m, s, ins, motion, velocity, gains).0.Some?
    requires Attempted(m, s, dcm, ins, motion, velocity, gains).1 == Corrected
    ensures s.raDeltat > 0.0
    ensures var b := ScoredDirection(m, s, ins, motion, velocity, gains);
      var e := GravityReference(m, VelocityDelta(s, motion, velocity), Mul(gains.gpsGain, RaScale(s.raDeltat)));
      && b.Some? && e.Some? && RP_P_MIN <= PullGain(m, dcm.omega, gains)
      && TurnsToward(m, dcm.matrix, Attempted(m, s, dcm, ins, motion, velocity, gains).0.corrector.omegaP,
                     b.value, e.value, PullGain(m, dcm.omega, gains), dt)
  {
    hide Vec.Cross, Vec.Dot, Vec.LengthSquared, Mat.MulTranspose, PullGain, Libm.Lawful, NormalRows, TurnsToward,
      GravityReference, LoopReference, VelocityDelta, Selected, Attempted, ScoredDirection, Applied,
      ProportionalTerm, RaScale, Mul;
    CorrectedAttempt(m, s, dcm, ins, motion, velocity, gains);
    var selection := Selected(m, s, ins, motion, velocity, gains).0.value;
    var reference := GravityReference(m, VelocityDelta(s, motion, velocity), Mul(gains.gpsGain, RaScale(s.raDeltat)));
    var scored := ScoredDirection(m, s, ins, motion, velocity, gains);
    SelectionSharesReference(m, VelocityDelta(s, motion, velocity), gains.gpsGain, s.raDeltat);
    ScoredError(m, s, ins, motion, velocity, gains);
    PullGainPositive(m, dcm.omega, gains);
    PullTurnsToward(m, dcm.matrix, scored.value, reference.value, dcm.omega, gains, dt);
    AppliedPull(m, s.corrector, selection.errorEf, selection.bestError,
                CorrectionInputs(s, dcm, ins, motion, velocity, Some(selection)), gains);
  }

  /** The pull a tick leaves is the one its attempt computed, whether or not yaw was corrected. */
  lemma TickPull(m: Libm, v: Vehicle, tick: Tick, gains: Gains)
    ensures var dcm := MatrixStep(m, v.dcm, tick.ins, DriftOmega(v.loop)).0;
      var s := BeforeAttempt(m, v, tick);
      Step(m, v, tick, gains).vehicle.loop.corrector.omegaP
      == AttemptWith(m, s, dcm, tick.ins, tick.motion, OfferedVelocity(s.wind, dcm.matrix, tick.motion), gains.drift)
         .0.corrector.omegaP
  {
    hide MatrixStep, BeforeAttempt, AttemptWith, Attempt, OfferedVelocity, YawCorrected, HorizontalAcceleration;
    DuplicateCallsHarmless(m, v, tick, gains);
    if tick.yaw.Some? {
      var dcm := MatrixStep(m, v.dcm, tick.ins, DriftOmega(v.loop)).0;
      var attempted := Attempt(m, BeforeAttempt(m, v, tick), dcm, tick.ins, tick.motion, gains.drift).0;
      YawLeavesCorrector(m, attempted, dcm, tick.yaw.value, HorizontalAcceleration(m, dcm.matrix, tick.ins.accel),
                         gains, 0.0);
    }
  }

  /** So in any safe run, every tick that corrects on a healthy, selected accelerometer leaves a pull
      toward the reference of its attempt. */
  lemma TickTurnsToward(m: Libm, v: Vehicle, tick: Tick, gains: Gains, gamma: real, corrected: real, seconds: real,
                        dt: real)
    requires m.Lawful() && 0.0 <= gamma <= 0.5 && Safe(v, gains, gamma, corrected) && corrected <= seconds
    requires WithinBudget(m, tick, gains, gamma, seconds)
    requires tick.ins.gyroHealthy && tick.ins.AccelHealthy()
    requires TickSelection(m, v, tick, gains).Some? && Step(m, v, tick, gains).outcome == Corrected
    ensures var dcm := MatrixStep(m, v.dcm, tick.ins, DriftOmega(v.loop)).0;
      var s := BeforeAttempt(m, v, tick);
      var velocity := OfferedVelocity(s.wind, dcm.matrix, tick.motion);
      && s.raDeltat > 0.0
      && var b := ScoredDirection(m, s, tick.ins, tick.motion, velocity, gains.drift);
      && var e := GravityReference(m, VelocityDelta(s, tick.motion, velocity),
                                   Mul(gains.drift.gpsGain, RaScale(s.raDeltat)));
      && b.Some? && e.Some? && NormalRows(dcm.matrix)
      && TurnsToward(m, dcm.matrix, Step(m, v, tick, gains).vehicle.loop.corrector.omegaP, b.value, e.value,
                     PullGain(m, dcm.omega, gains.drift), dt)
  {
    hide Libm.Lawful, NearRotation, NormalRows, MatrixStep, BeforeAttempt, Step, Attempted, Selected,
      OfferedVelocity, WithinBudget, ScoredDirection, GravityReference, VelocityDelta, TurnsToward, PullGain,
      RaScale, Mul, BiasAccounted, PullBounded, Vec.LengthSquared;
    var dcm := MatrixStep(m, v.dcm, tick.ins, DriftOmega(v.loop)).0;
    var s := BeforeAttempt(m, v, tick);
    var velocity := OfferedVelocity(s.wind, dcm.matrix, tick.motion);
    TickTurn(m, v, tick, gains, gamma, corrected, seconds);
    AttitudeStepSafe(m, v.dcm, AttitudeEvent.Tick(tick.ins, DriftOmega(v.loop)), gamma);
    NearRotationIsNormal(dcm.matrix, gamma);
    StepFields(m, v, tick, gains);
    DuplicateCallsHarmless(m, v, tick, gains);
    TickPull(m, v, tick, gains);
    AttemptTurnsToward(m, s, dcm, tick.ins, tick.motion, velocity, gains.drift, dt);
  }
}
