/** What a hard reset of the attitude does: it keeps the tilt and sets the heading. */
module ResetRuns {
  import opened Vectors
  import opened MathLibrary
  import opened DcmMatrix
  import opened DcmLoop
  import opened Angles
  import opened DriftLoop

  /** The arc sine's cosine is the positive root. */
  lemma ArcSine(m: Libm, x: real)
    requires m.Angular() && -1.0 <= x <= 1.0
    ensures m.sin(m.SafeAsin(x)) == x && m.cos(m.SafeAsin(x)) >= 0.0
    ensures Square(m.cos(m.SafeAsin(x))) == 1.0 - Square(x)
  {
    hide Libm.Lawful;
    var angle := m.SafeAsin(x);
    assert m.AsinLaw(x);
    CircleAt(m, angle);
    if x >= 1.0 {
      NoCosine(m, PI / 2.0);
    } else if x <= -1.0 {
      NegatedAngle(m, PI / 2.0);
      NoCosine(m, PI / 2.0);
    }
  }

  lemma NoCosine(m: Libm, x: real)
    requires m.Angular() && m.sin(x) == 1.0
    ensures m.cos(x) == 0.0
  {
    CircleAt(m, x);
    SquareOrder(m.cos(x), 0.0);
  }

  /** Building an attitude from the roll and pitch read off another, with any heading, keeps the third
      row: the tilt is the same, and the nose is raised as before and points along the heading. */
  lemma EulerKeepsTilt(m: Libm, r: Mat, heading: real)
    requires m.Angular() && r.c.LengthSquared() == 1.0
    ensures var (roll, pitch, _) := m.ToEuler(r);
      var (built, level) := (m.FromEuler(roll, pitch, heading), m.cos(pitch));
      && built.c == r.c
      && 0.0 <= level && Square(level) == 1.0 - Square(r.c.x)
      && built.ColX() == Vec(Mul(level, m.cos(heading)), Mul(level, m.sin(heading)), r.c.x)
  {
    hide Libm.Lawful, Libm.LengthXy, Libm.SafeAsin, Vec.LengthSquared;
    UnitComponents(r.c);
    ArcSine(m, r.c.x);
    NegatedAngle(m, m.SafeAsin(r.c.x));
    var level := m.cos(m.SafeAsin(r.c.x));
    var rolled := Vec(r.c.z, r.c.y, 0.0);
    assert m.PolarLaw(rolled);
    LevelLength(m, r.c, level);
    assert Mul(level, m.sin(m.atan2(r.c.y, r.c.z))) == r.c.y && Mul(level, m.cos(m.atan2(r.c.y, r.c.z))) == r.c.z;
  }

  lemma LevelLength(m: Libm, c: Vec, level: real)
    requires m.Angular() && c.LengthSquared() == 1.0 && level >= 0.0 && Square(level) == 1.0 - Square(c.x)
    ensures m.LengthXy(Vec(c.z, c.y, 0.0)) == level
  {
    SquareNonNegative(c.y);
    SquareNonNegative(c.z);
    SqrtSpec(m, Square(c.z) + Square(c.y));
    SquareInjective(m.SafeSqrt(Square(c.z) + Square(c.y)), level);
  }

  // ---- on whole ticks ---------------------------------------------------

  /** The yaw cycle of a tick that brings a yaw sample. */
  function TickYaw(m: Libm, v: Vehicle, tick: Tick, gains: Gains): (Yaw.YawState, Yaw.YawDriftResult)
    requires tick.yaw.Some?
  {
    var dcm := MatrixStep(m, v.dcm, tick.ins, DriftOmega(v.loop)).0;
    var s := Attempt(m, BeforeAttempt(m, v, tick), dcm, tick.ins, tick.motion, gains.drift).0;
    Yaw.YawCorrection(m, s.yaw, YawInputs(m, s, dcm, tick.yaw.value,
                                          HorizontalAcceleration(m, dcm.matrix, tick.ins.accel)),
                      gains.yaw)
  }

  predicate AsksForReset(m: Libm, v: Vehicle, tick: Tick, gains: Gains) {
    tick.yaw.Some? && TickYaw(m, v, tick, gains).1.matrixAction.ResetAttitude?
  }

  /** A tick that asks for no reset leaves the attitude its matrix step made. */
  lemma NoResetKeepsMatrix(m: Libm, v: Vehicle, tick: Tick, gains: Gains)
    requires !AsksForReset(m, v, tick, gains)
    ensures Step(m, v, tick, gains).vehicle.dcm == MatrixStep(m, v.dcm, tick.ins, DriftOmega(v.loop)).0
  {
    hide MatrixStep, BeforeAttempt, Attempt, YawInputs, Yaw.YawCorrection, HorizontalAcceleration;
  }

  /** A tick that asks for one keeps the tilt its matrix step made, whatever roll and pitch were, and
      points the nose along the GPS heading. */
  lemma ResetKeepsTilt(m: Libm, v: Vehicle, tick: Tick, gains: Gains)
    requires m.Angular() && AsksForReset(m, v, tick, gains)
    requires MatrixStep(m, v.dcm, tick.ins, DriftOmega(v.loop)).0.matrix.c.LengthSquared() == 1.0
    ensures tick.yaw.value.gps.Some?
    ensures var before := MatrixStep(m, v.dcm, tick.ins, DriftOmega(v.loop)).0;
      var after := Step(m, v, tick, gains).vehicle.dcm;
      var heading := Radians(Yaw.GpsHeading(tick.yaw.value.gps.value));
      && after == before.(matrix := after.matrix) && RightHanded(after.matrix)
      && after.matrix.c == before.matrix.c
      && exists level: real ::
           && 0.0 <= level && Square(level) == 1.0 - Square(before.matrix.c.x)
           && after.matrix.ColX() == Vec(Mul(level, m.cos(heading)), Mul(level, m.sin(heading)), before.matrix.c.x)
  {
    hide MatrixStep, BeforeAttempt, Attempt, HorizontalAcceleration, Libm.Lawful, Libm.FromEuler, Libm.ToEuler,
      Mat.ColX, Yaw.CompassVerdict, Yaw.YawErrorGps, Yaw.YawErrorCompass, Yaw.YawPull, Yaw.YawIntegral,
      Yaw.HardReset, Radians, Mul, RightHanded, Square, Vec.LengthSquared, Vec.Times;
    var before := MatrixStep(m, v.dcm, tick.ins, DriftOmega(v.loop)).0;
    var heading := Radians(Yaw.GpsHeading(tick.yaw.value.gps.value));
    EulerKeepsTilt(m, before.matrix, heading);
    var (roll, pitch, _) := m.ToEuler(before.matrix);
    assert m.Lawful();
    EulerIsRotation(m, roll, pitch, heading);
    assert Step(m, v, tick, gains).vehicle.dcm.matrix == m.FromEuler(roll, pitch, heading);
  }
}
