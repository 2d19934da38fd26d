/** One matrix step from the inertial sensors, and the attitude invariant that any run of
    such steps and Euler resets keeps. */
module DcmLoop {
  import opened Vectors
  import opened MathLibrary
  import opened Wrappers
  import opened DcmMatrix
  import opened Attitude

  const INS_MAX_INSTANCES: nat := 3

  /** One accelerometer as the loop reads it this tick. */
  datatype AccelReading = AccelReading(usable: bool, deltaVelocity: Option<(Vec, real)>)

  const NO_ACCEL := AccelReading(false, None)

  /** One slot per instance, registered or not. */
  type Slots = s: seq<AccelReading> | |s| == INS_MAX_INSTANCES witness [NO_ACCEL, NO_ACCEL, NO_ACCEL]

  /** What the loop reads from the inertial frontend in one tick. */
  datatype InsReading = InsReading(deltaAngle: Option<(Vec, real)>, gyro: Vec, accel: Vec, accels: Slots,
                                   registered: nat, primary: nat, gyroHealthy: bool)
  {
    function AccelCount(): nat {
      if registered < INS_MAX_INSTANCES then registered else INS_MAX_INSTANCES
    }

    predicate AccelUsable(i: nat) { i < INS_MAX_INSTANCES && accels[i].usable }

    /** The frontend reports the health of its primary instance. */
    predicate AccelHealthy() { AccelUsable(primary) }
  }

  datatype DcmDriftOmega = DcmDriftOmega(omegaI: Vec, omegaP: Vec, omegaYawP: Vec)

  /** State and verdict of `dcm_matrix_step_from_ins`. */
  function MatrixStep(m: Libm, s: DcmState, ins: InsReading, drift: DcmDriftOmega): (DcmState, MatrixHealth) {
    Normalization(m, Update(s, ins.deltaAngle, ins.gyro, drift.omegaI, drift.omegaP, drift.omegaYawP))
  }

  method DcmMatrixUpdateFromIns(dcm: Dcm, ins: InsReading, drift: DcmDriftOmega)
    modifies dcm
    ensures dcm.State()
         == Update(old(dcm.State()), ins.deltaAngle, ins.gyro, drift.omegaI, drift.omegaP, drift.omegaYawP)
  {
    var deltaAngle := ins.deltaAngle;
    if deltaAngle.Some? && deltaAngle.value.1 <= 0.0 {
      deltaAngle := None;
    }
    dcm.MatrixUpdate(deltaAngle, ins.gyro, drift.omegaI, drift.omegaP, drift.omegaYawP);
  }

  method DcmMatrixStepFromIns(m: Libm, dcm: Dcm, ins: InsReading, drift: DcmDriftOmega)
    returns (health: MatrixHealth)
    modifies dcm
    ensures (dcm.State(), health) == MatrixStep(m, old(dcm.State()), ins, drift)
  {
    DcmMatrixUpdateFromIns(dcm, ins, drift);
    health := dcm.Normalize(m);
  }

  // ---- the invariant ----------------------------------------------------

  /** Unit rows, an exactly perpendicular third row, at most gamma^4 of skew between the first
      two, and no reflection. */
  ghost predicate NearRotation(r: Mat, gamma: real) {
    && UnitPair(r) && r.c.LengthSquared() == 1.0
    && r.a.Dot(r.c) == 0.0 && r.b.Dot(r.c) == 0.0
    && Abs(r.a.Dot(r.b)) <= Square(Square(gamma))
    && r.Det() > 0.0
  }

  /** The rotation a tick applies; zero when there is no sample or its interval is not positive. */
  function SampleRotation(ins: InsReading, drift: DcmDriftOmega): Vec {
    if ins.deltaAngle.Some? && ins.deltaAngle.value.1 > 0.0
    then RotationVector(ins.deltaAngle.value.0, ins.deltaAngle.value.1, drift.omegaI, drift.omegaP, drift.omegaYawP)
    else ZERO
  }

  /** A rotation of length at most gamma, from a pair with skew at most gamma^4, leaves row
      lengths in [1, 1 + gamma^2] and a skew below gamma^2. */
  lemma RotatedPair(r: Mat, g: Vec, q: real)
    requires UnitPair(r) && Abs(r.a.Dot(r.b)) <= Square(q)
    requires 0.0 <= q <= 0.25 && g.LengthSquared() <= q
    ensures var n := r.Rotate(g);
      && 1.0 <= n.a.LengthSquared() <= 1.0 + q && 1.0 <= n.b.LengthSquared() <= 1.0 + q
      && Abs(n.a.Dot(n.b)) <= 0.84375 * q
  {
    RotatedDot(r.a, r.a, g);
    RotatedDot(r.b, r.b, g);
    RotatedDot(r.a, r.b, g);
    CauchySchwarz(r.a, g);
    CauchySchwarz(r.b, g);
    ComponentProduct(r.a, r.b, g);
    LengthSquaredNonNegative(g);
    SquareNonNegative(r.a.Dot(g));
    SquareNonNegative(r.b.Dot(g));
    var e, gg, pq := r.a.Dot(r.b), g.LengthSquared(), Mul(r.a.Dot(g), r.b.Dot(g));
    RotatedSkew(e, gg, pq, q);
  }

  lemma RotatedSkew(e: real, gg: real, pq: real, q: real)
    requires 0.0 <= q <= 0.25 && 0.0 <= gg <= q && Abs(e) <= Square(q)
    requires -Mul(1.0 - e, gg) <= 2.0 * pq <= Mul(1.0 + e, gg)
    ensures Abs(e + (Mul(e, gg) - pq)) <= 0.84375 * q
  {
    AbsProduct(e, gg, Square(q), q);
    QuarterPowers(q);
    MulSplits(e, gg);
  }

  lemma QuarterPowers(q: real)
    requires 0.0 <= q <= 0.25
    ensures 0.0 <= Square(q) <= 0.25 * q && 0.0 <= Mul(Square(q), q) <= 0.0625 * q
  {
    MulNonNegative(q, q);
    ProductMonotone(q, 0.25, q);
    AbsProduct(q, q, 0.25, 0.25);
    MulNonNegative(Square(q), q);
    ProductMonotone(Square(q), 0.0625, q);
  }

  lemma MulSplits(e: real, x: real)
    ensures Mul(1.0 - e, x) == x - Mul(e, x) && Mul(1.0 + e, x) == x + Mul(e, x)
  {
  }

  /** Tilting such rows leaves well-sized rows and shrinks the skew to order gamma^4. */
  lemma TiltedPair(e: real, aa: real, bb: real, q: real)
    requires 0.0 <= q <= 0.25 && Abs(e) <= 0.84375 * q
    requires 1.0 <= aa <= 1.0 + q && 1.0 <= bb <= 1.0 + q
    ensures 0.96 <= TiltSquared(e, aa, bb) <= 2.0
    ensures Abs(TiltDot(e, aa, bb)) <= 0.84375 * Square(q)
  {
    SmallSkewSquared(e, q);
    Stretch(Square(e), bb);
    AbsProduct(e, 1.0 - 0.5 * (aa + bb) + 0.25 * Square(e), 0.84375 * q, q);
    assert Mul(0.84375 * q, q) == 0.84375 * Square(q);
  }

  lemma SmallSkewSquared(e: real, q: real)
    requires 0.0 <= q <= 0.25 && Abs(e) <= 0.84375 * q
    ensures 0.0 <= Square(e) <= 0.18 * q
  {
    AbsProduct(e, e, 0.84375 * q, 0.84375 * q);
    QuarterPowers(q);
    SquareNonNegative(e);
    assert Mul(0.84375 * q, 0.84375 * q) == 0.7119140625 * Square(q);
  }

  lemma Stretch(s: real, b: real)
    requires 0.0 <= s && 1.0 <= b <= 1.25
    ensures s <= Mul(s, b) <= 1.25 * s
  {
    ProductMonotone(1.0, b, s);
    ProductMonotone(b, 1.25, s);
  }

  lemma RescaledSkew(u: Vec, lu: real, v: Vec, lv: real, q: real)
    requires lu > 0.0 && lv > 0.0
    requires Square(lu) == u.LengthSquared() >= 0.96 && Square(lv) == v.LengthSquared() >= 0.96
    requires Abs(u.Dot(v)) <= 0.84375 * Square(q)
    ensures Abs(u.Times(1.0 / lu).Dot(v.Times(1.0 / lv))) <= Square(q)
  {
    DotScaled(u, 1.0 / lu, v, 1.0 / lv);
    var k := 1.0 / lu * (1.0 / lv);
    Reciprocal(lu);
    Reciprocal(lv);
    AbsProduct(1.0 / lu, 1.0 / lv, 1.05, 1.05);
    SquareNonNegative(q);
    AbsProduct(u.Dot(v), k, 0.84375 * Square(q), 1.1025);
  }

  lemma Reciprocal(l: real)
    requires l > 0.0 && Square(l) >= 0.96
    ensures 0.0 < 1.0 / l <= 1.05
  {
    var i := 1.0 / l;
    assert i * l == 1.0;
    if l <= 0.97 { AbsProduct(l, l, 0.97, 0.97); }
    ProductMonotone(0.97, l, i);
  }

  /** One rotate-then-normalise step by at most gamma <= 1/2 keeps the invariant and is accepted. */
  lemma RotateThenNormalize(m: Libm, s: DcmState, g: Vec, gamma: real)
    requires m.Lawful() && 0.0 <= gamma <= 0.5
    requires NearRotation(s.matrix, gamma) && g.LengthSquared() <= Square(gamma)
    ensures var (next, health) := Normalization(m, s.(matrix := s.matrix.Rotate(g)));
      health == Ok && NearRotation(next.matrix, gamma)
  {
    var q, r := Square(gamma), s.matrix.Rotate(g);
    var turned := s.(matrix := r);
    AbsProduct(gamma, gamma, 0.5, 0.5);
    SquareNonNegative(gamma);
    RotatedPair(s.matrix, g, q);
    TiltProducts(r);
    var t := Tilted(r);
    TiltedPair(r.a.Dot(r.b), r.a.LengthSquared(), r.b.LengthSquared(), q);
    TiltedPair(r.a.Dot(r.b), r.b.LengthSquared(), r.a.LengthSquared(), q);
    ThirdRowLength(t.a.LengthSquared(), t.b.LengthSquared(), t.a.Dot(t.b), q);
    BandOfSquare(m, t.a);
    BandOfSquare(m, t.b);
    BandOfSquare(m, t.c);
    assert InBand(m.Length(t.a)) && InBand(m.Length(t.b)) && InBand(m.Length(t.c));
    NormalizeGeometry(m, turned);
    LengthSpec(m, t.a);
    LengthSpec(m, t.b);
    RescaledSkew(t.a, m.Length(t.a), t.b, m.Length(t.b), q);
  }

  lemma ThirdRowLength(pp: real, qq: real, pq: real, q: real)
    requires 0.96 <= pp <= 2.0 && 0.96 <= qq <= 2.0 && 0.0 <= q <= 0.25 && Abs(pq) <= 0.84375 * Square(q)
    ensures 0.5 <= Mul(pp, qq) - Square(pq) <= 4.0
  {
    AbsProduct(q, q, 0.25, 0.25);
    assert Abs(pq) <= 0.1;
    AbsProduct(pq, pq, 0.1, 0.1);
    assert Square(pq) <= 0.01;
    SquareNonNegative(pq);
    AbsProduct(pp, qq, 2.0, 2.0);
    ProductMonotone(0.96, pp, qq);
    assert pp * qq >= 0.9;
  }

  // ---- whole runs -------------------------------------------------------

  /** What moves the attitude: a sensor tick, or a reset to Euler angles. */
  datatype AttitudeEvent =
    | Tick(ins: InsReading, drift: DcmDriftOmega)
    | Reset(roll: real, pitch: real, yaw: real)

  function AttitudeStep(m: Libm, s: DcmState, event: AttitudeEvent): (DcmState, MatrixHealth) {
    match event
    case Tick(ins, drift) => MatrixStep(m, s, ins, drift)
    case Reset(roll, pitch, yaw) => (s.(matrix := m.FromEuler(roll, pitch, yaw)), Ok)
  }

  /** The state and verdict after every event of a run. */
  function AttitudeRun(m: Libm, s: DcmState, events: seq<AttitudeEvent>): (trace: seq<(DcmState, MatrixHealth)>)
    ensures |trace| == |events|
    decreases |events|
  {
    if events == [] then []
    else
      var first := AttitudeStep(m, s, events[0]);
      [first] + AttitudeRun(m, first.0, events[1..])
  }

  predicate TurnsAtMost(event: AttitudeEvent, gamma: real) {
    event.Tick? ==> SampleRotation(event.ins, event.drift).LengthSquared() <= Square(gamma)
  }

  lemma RotationIsNear(r: Mat, gamma: real)
    requires RightHanded(r)
    ensures NearRotation(r, gamma)
  {
    RightHandedDet(r);
    SquareNonNegative(Square(gamma));
  }

  lemma AttitudeStepSafe(m: Libm, s: DcmState, event: AttitudeEvent, gamma: real)
    requires m.Lawful() && 0.0 <= gamma <= 0.5
    requires NearRotation(s.matrix, gamma) && TurnsAtMost(event, gamma)
    ensures AttitudeStep(m, s, event).1 == Ok
    ensures NearRotation(AttitudeStep(m, s, event).0.matrix, gamma)
  {
    match event
    case Reset(roll, pitch, yaw) =>
      EulerIsRotation(m, roll, pitch, yaw);
      RotationIsNear(m.FromEuler(roll, pitch, yaw), gamma);
    case Tick(ins, drift) =>
      var updated := Update(s, ins.deltaAngle, ins.gyro, drift.omegaI, drift.omegaP, drift.omegaYawP);
      var before := updated.(matrix := s.matrix);
      var g := SampleRotation(ins, drift);
      assert updated.matrix == s.matrix.Rotate(g);
      RotateThenNormalize(m, before, g, gamma);
      assert updated == before.(matrix := s.matrix.Rotate(g));
  }

  /** Attitude safety: from any near-rotation, and so from any rotation, a run whose every sample
      turns by at most gamma <= 1/2 is accepted at every step, never drifts further than gamma^4
      from orthogonality and never becomes a reflection, however long it is and however often it
      is reset to Euler angles. */
  lemma {:induction false} AttitudeRunSafe(m: Libm, s: DcmState, events: seq<AttitudeEvent>, gamma: real)
    requires m.Lawful() && 0.0 <= gamma <= 0.5
    requires NearRotation(s.matrix, gamma)
    requires forall i :: 0 <= i < |events| ==> TurnsAtMost(events[i], gamma)
    ensures forall i :: 0 <= i < |events| ==>
      AttitudeRun(m, s, events)[i].1 == Ok && NearRotation(AttitudeRun(m, s, events)[i].0.matrix, gamma)
    decreases |events|
  {
    if events == [] {
    } else {
      AttitudeStepSafe(m, s, events[0], gamma);
      AttitudeRunSafe(m, AttitudeStep(m, s, events[0]).0, events[1..], gamma);
    }
  }
}
