/** The scalar helpers of ap-math over exact reals.

    The elementary functions are calls into libm, so they are parameters: a `Libm`
    value bundles them, and `Lawful` lists everything the proofs assume of them. */
module MathLibrary {
  import opened Vectors
  import opened Wrappers

  /** f32::EPSILON, two to the minus 23. */
  const FLT_EPSILON := 1.0 / 8388608.0

  /** The single-precision pi. */
  const PI := 13176795.0 / 4194304.0

  const GRAVITY_MSS := 9.80665

  function Radians(deg: real): real { deg * (PI / 180.0) }

  function Degrees(rad: real): real { rad * (180.0 / PI) }

  function IsZero(x: real): bool { Abs(x) < FLT_EPSILON }

  function IsZeroVec(v: Vec): bool { IsZero(v.x) && IsZero(v.y) && IsZero(v.z) }

  /** `low` wins when the bounds cross, as upstream orders its tests. */
  function ConstrainValue(amt: real, low: real, high: real): real {
    if amt < low then low else if amt > high then high else amt
  }

  /** The floating-point remainder: the quotient is truncated toward zero. */
  function Fmod(x: real, y: real): real
    requires y > 0.0
  {
    var quotient := x / y;
    var whole := if quotient < 0.0 then -((-quotient).Floor) else quotient.Floor;
    x - whole as real * y
  }

  /** Wrap into [0, turn), upstream `wrap_360` and `wrap_2pi`. */
  function WrapTurn(angle: real, turn: real): real
    requires turn > 0.0
  {
    var res := Fmod(angle, turn);
    if res < 0.0 then res + turn else res
  }

  /** Wrap into (-half, half], upstream `wrap_180` and `wrap_pi`. */
  function WrapHalf(angle: real, half: real): real
    requires half > 0.0
  {
    var res := WrapTurn(angle, 2.0 * half);
    if res > half then res - 2.0 * half else res
  }

  datatype Libm = Libm(sqrt: real -> real, sin: real -> real, cos: real -> real,
                       asin: real -> real, atan2: (real, real) -> real) {

    ghost predicate SqrtLaw(x: real) {
      x >= 0.0 ==> sqrt(x) >= 0.0 && Square(sqrt(x)) == x
    }

    ghost predicate CircleLaw(x: real) {
      Square(sin(x)) + Square(cos(x)) == 1.0
    }

    ghost predicate DirectionLaw(d: Vec, k: real) {
      k > 0.0 ==> atan2(d.Times(k).y, d.Times(k).x) == atan2(d.y, d.x)
    }

    /** Everything assumed of libm: a real square root, the circle identity, the
        values at zero, and that `atan2` depends on direction only. */
    ghost predicate Lawful() {
      && (forall x: real :: SqrtLaw(x))
      && (forall x: real :: CircleLaw(x))
      && sin(0.0) == 0.0 && cos(0.0) == 1.0
      && (forall d: Vec, k: real :: DirectionLaw(d, k))
    }

    ghost predicate SumLaw(x: real, y: real) {
      && sin(x + y) == Mul(sin(x), cos(y)) + Mul(cos(x), sin(y))
      && cos(x + y) == Mul(cos(x), cos(y)) - Mul(sin(x), sin(y))
    }

    ghost predicate PolarLaw(d: Vec) {
      && d.x == Mul(LengthXy(d), cos(atan2(d.y, d.x)))
      && d.y == Mul(LengthXy(d), sin(atan2(d.y, d.x)))
    }

    ghost predicate AsinLaw(x: real) {
      -1.0 < x < 1.0 ==> sin(asin(x)) == x && cos(asin(x)) >= 0.0
    }

    /** What is assumed besides where angles are added and read off vectors: the laws of sums, of
        polar coordinates and of the arc sine, with the code's own pi for half a turn. */
    ghost predicate Angular() {
      && Lawful()
      && (forall x: real, y: real :: SumLaw(x, y))
      && (forall d: Vec :: PolarLaw(d))
      && (forall x: real :: AsinLaw(x))
      && sin(PI / 2.0) == 1.0
    }

    function SafeSqrt(x: real): real { if x < 0.0 then 0.0 else sqrt(x) }

    function SafeAsin(x: real): real {
      if x >= 1.0 then PI / 2.0 else if x <= -1.0 then -(PI / 2.0) else asin(x)
    }

    function Length(v: Vec): real { SafeSqrt(v.LengthSquared()) }

    /** Length of the horizontal part. */
    function LengthXy(v: Vec): real { SafeSqrt(Square(v.x) + Square(v.y)) }

    /** `None` for a vector shorter than the epsilon. */
    function Normalized(v: Vec): Option<Vec> {
      var length := Length(v);
      if IsZero(length) then None
      else
        assert length != 0.0;
        Some(v.Over(length))
    }

    function FromEuler(roll: real, pitch: real, yaw: real): Mat {
      var cp, sp := cos(pitch), sin(pitch);
      var cr, sr := cos(roll), sin(roll);
      var cy, sy := cos(yaw), sin(yaw);
      Mat(Vec(cp * cy, sr * sp * cy - cr * sy, cr * sp * cy + sr * sy),
          Vec(cp * sy, sr * sp * sy + cr * cy, cr * sp * sy - sr * cy),
          Vec(-sp, sr * cp, cr * cp))
    }

    /** (roll, pitch, yaw). */
    function ToEuler(m: Mat): (real, real, real) {
      (atan2(m.c.y, m.c.z), -SafeAsin(m.c.x), atan2(m.b.x, m.a.x))
    }
  }

  lemma CircleAt(m: Libm, x: real)
    requires m.Lawful()
    ensures Square(m.sin(x)) + Square(m.cos(x)) == 1.0
  {
    assert m.CircleLaw(x);
  }

  lemma SqrtSpec(m: Libm, x: real)
    requires m.Lawful() && x >= 0.0
    ensures m.SafeSqrt(x) >= 0.0 && Square(m.SafeSqrt(x)) == x
  {
    assert m.SqrtLaw(x);
  }

  /** A length is the non-negative root of the squared length, zero only for the zero vector. */
  lemma LengthSpec(m: Libm, v: Vec)
    requires m.Lawful()
    ensures m.Length(v) >= 0.0
    ensures Square(m.Length(v)) == v.LengthSquared()
    ensures m.Length(v) == 0.0 <==> v == ZERO
  {
    LengthSquaredNonNegative(v);
    SqrtSpec(m, v.LengthSquared());
    if m.Length(v) == 0.0 {
      assert v.LengthSquared() == 0.0;
    }
    if v == ZERO {
      SquareOrder(m.Length(v), 0.0);
    }
  }

  lemma LengthUnique(m: Libm, v: Vec, length: real)
    requires m.Lawful()
    requires length >= 0.0 && Square(length) == v.LengthSquared()
    ensures m.Length(v) == length
  {
    LengthSpec(m, v);
    SquareInjective(m.Length(v), length);
  }

  lemma TriangleInequality(m: Libm, u: Vec, v: Vec)
    requires m.Lawful()
    ensures m.Length(u.Plus(v)) <= m.Length(u) + m.Length(v)
  {
    LengthSpec(m, u);
    LengthSpec(m, v);
    LengthSpec(m, u.Plus(v));
    CauchySchwarz(u, v);
    SumLengthSquared(u, v);
    SumOfRoots(m.Length(u), m.Length(v), m.Length(u.Plus(v)), u.LengthSquared(), v.LengthSquared(), u.Dot(v));
  }

  lemma SumOfRoots(p: real, q: real, s: real, pp: real, qq: real, dot: real)
    requires 0.0 <= p && 0.0 <= q
    requires Square(p) == pp && Square(q) == qq && Square(dot) <= Mul(pp, qq)
    requires Square(s) == pp + 2.0 * dot + qq
    ensures s <= p + q
  {
    ProductCongruence(p * p, q * q, pp, qq);
    assert (p * p) * (q * q) == (p * q) * (p * q);
    SquareOrder(dot, p * q);
    assert (p + q) * (p + q) == p * p + 2.0 * (p * q) + q * q;
    SquareOrder(s, p + q);
  }

  lemma ScaledLength(m: Libm, v: Vec, k: real)
    requires m.Lawful()
    ensures m.Length(v.Times(k)) == Abs(k) * m.Length(v)
  {
    LengthSpec(m, v);
    DotScaled(v, k, v, k);
    var l := Abs(k) * m.Length(v);
    assert l * l == (k * k) * (m.Length(v) * m.Length(v));
    LengthUnique(m, v.Times(k), l);
  }

  /** What `Normalized` returns has length exactly one. */
  lemma NormalizedIsUnit(m: Libm, v: Vec)
    requires m.Lawful()
    ensures m.Normalized(v).Some? ==> m.Normalized(v).value.LengthSquared() == 1.0
  {
    LengthSpec(m, v);
    if m.Normalized(v).Some? {
      var l := m.Length(v);
      UnitRow(v, l);
      OverIsTimes(v, l);
    }
  }

  lemma UnitRow(v: Vec, l: real)
    requires l > 0.0 && Square(l) == v.LengthSquared()
    ensures v.Times(1.0 / l).LengthSquared() == 1.0
  {
    DotScaled(v, 1.0 / l, v, 1.0 / l);
    assert (l * l) * ((1.0 / l) * (1.0 / l)) == (l * (1.0 / l)) * (l * (1.0 / l));
  }

  /** A vector that is not zero by the component test is long enough to normalise. */
  lemma NonZeroNormalizes(m: Libm, v: Vec)
    requires m.Lawful()
    ensures !IsZeroVec(v) ==> m.Normalized(v).Some?
  {
    hide Libm.Length, Libm.Lawful, Square;
    LengthSpec(m, v);
    ComponentsWithin(v, m.Length(v));
  }

  lemma ComponentsWithin(v: Vec, l: real)
    requires 0.0 <= l && Square(l) == v.LengthSquared()
    ensures Abs(v.x) <= l && Abs(v.y) <= l && Abs(v.z) <= l
  {
    SquareNonNegative(v.x);
    SquareNonNegative(v.y);
    SquareNonNegative(v.z);
    assert v.LengthSquared() == Square(v.x) + Square(v.y) + Square(v.z);
    hide Square, Vec.LengthSquared;
    SquareOrder(v.x, l);
    SquareOrder(v.y, l);
    SquareOrder(v.z, l);
  }

  /** The rows of a rotation matrix: unit length and mutually perpendicular. */
  ghost predicate Orthonormal(r: Mat) {
    && r.a.LengthSquared() == 1.0 && r.b.LengthSquared() == 1.0 && r.c.LengthSquared() == 1.0
    && r.a.Dot(r.b) == 0.0 && r.a.Dot(r.c) == 0.0 && r.b.Dot(r.c) == 0.0
  }

  /** A rotation matrix: orthonormal rows, the third being the cross product of the first two. */
  ghost predicate RightHanded(r: Mat) {
    Orthonormal(r) && r.c == r.a.Cross(r.b)
  }

  lemma IdentityRotation()
    ensures RightHanded(IDENTITY)
  {
  }

  lemma RightHandedDet(r: Mat)
    requires RightHanded(r)
    ensures r.Det() == 1.0
  {
    DetCyclic(r.a, r.b, r.c);
  }

  /** Euler angles give a rotation, never a reflection. */
  lemma EulerIsRotation(m: Libm, roll: real, pitch: real, yaw: real)
    requires m.Lawful()
    ensures RightHanded(m.FromEuler(roll, pitch, yaw))
  {
    hide Vec.Dot, Vec.Cross, RollTurn, Square;
    assert m.CircleLaw(roll) && m.CircleLaw(pitch) && m.CircleLaw(yaw);
    var cr, sr, cp, sp := m.cos(roll), m.sin(roll), m.cos(pitch), m.sin(pitch);
    var cy, sy := m.cos(yaw), m.sin(yaw);
    var r := m.FromEuler(roll, pitch, yaw);
    var p, q, n := Vec(cp * cy, sp * cy, sy), Vec(cp * sy, sp * sy, -cy), Vec(-sp, cp, 0.0);
    LevelRows(cp, sp, cy, sy);
    TurnedRows(cr, sr, cp, sp, cy, sy);
    assert r.a == RollTurn(cr, sr, p) && r.b == RollTurn(cr, sr, q) && r.c == RollTurn(cr, sr, n);
    RollTurnDot(cr, sr, p, p);
    RollTurnDot(cr, sr, q, q);
    RollTurnDot(cr, sr, n, n);
    RollTurnDot(cr, sr, p, q);
    RollTurnDot(cr, sr, p, n);
    RollTurnDot(cr, sr, q, n);
    LevelCross(cp, sp, cy, sy);
    RollTurnCross(cr, sr, p, q);
  }

  /** The third level row is the cross product of the others. */
  lemma LevelCross(cp: real, sp: real, cy: real, sy: real)
    requires Square(sy) + Square(cy) == 1.0
    ensures Vec(cp * cy, sp * cy, sy).Cross(Vec(cp * sy, sp * sy, -cy)) == Vec(-sp, cp, 0.0)
  {
    LevelMinor(sp, cy, sy);
    LevelMinor(cp, cy, sy);
    assert (cp * cy) * (sp * sy) == (sp * cy) * (cp * sy);
  }

  lemma LevelMinor(p: real, cy: real, sy: real)
    requires Square(sy) + Square(cy) == 1.0
    ensures (p * cy) * -cy - sy * (p * sy) == -p
    ensures sy * (p * sy) - (p * cy) * -cy == p
  {
    assert (p * cy) * cy + sy * (p * sy) == p * (sy * sy + cy * cy);
  }

  lemma RollTurnCross(c: real, s: real, u: Vec, v: Vec)
    requires Square(s) + Square(c) == 1.0
    ensures RollTurn(c, s, u).Cross(RollTurn(c, s, v)) == RollTurn(c, s, u.Cross(v))
  {
    hide RollTurn, Vec.Cross, Mul, Square;
    var n, p, q := u.Cross(v), RollTurn(c, s, u), RollTurn(c, s, v);
    RollTurnParts(c, s, u);
    RollTurnParts(c, s, v);
    RollTurnParts(c, s, n);
    CrossParts(u, v);
    CrossParts(p, q);
    PlanarCross(c, s, u.y, u.z, v.y, v.z, p.y, p.z, q.y, q.z);
    PlanarMix(c, s, u.x, u.y, u.z, v.x, v.y, v.z, p.y, p.z, q.y, q.z, n.y, n.z);
  }

  lemma RollTurnParts(c: real, s: real, v: Vec)
    ensures RollTurn(c, s, v) == Vec(v.x, Mul(s, v.y) - Mul(c, v.z), Mul(c, v.y) + Mul(s, v.z))
  {
  }

  /** A rotation of the plane keeps its cross product. */
  lemma PlanarCross(c: real, s: real, y: real, z: real, y': real, z': real, p: real, q: real, p': real, q': real)
    requires Square(s) + Square(c) == 1.0
    requires p == Mul(s, y) - Mul(c, z) && q == Mul(c, y) + Mul(s, z)
    requires p' == Mul(s, y') - Mul(c, z') && q' == Mul(c, y') + Mul(s, z')
    ensures Mul(p, q') - Mul(q, p') == Mul(y, z') - Mul(z, y')
  {
    assert p == s * y - c * z && q == c * y + s * z && p' == s * y' - c * z' && q' == c * y' + s * z';
    hide Mul, Square;
    PlanarTurn(c, s, y, z, y', z');
  }

  lemma PlanarTurn(c: real, s: real, y: real, z: real, y': real, z': real)
    requires Square(s) + Square(c) == 1.0
    ensures Mul(s * y - c * z, c * y' + s * z') - Mul(c * y + s * z, s * y' - c * z') == Mul(y, z') - Mul(z, y')
  {
    assert (s * y - c * z) * (c * y' + s * z') - (c * y + s * z) * (s * y' - c * z')
        == (s * s + c * c) * (y * z' - z * y');
  }

  lemma PlanarMix(c: real, s: real, x: real, y: real, z: real, x': real, y': real, z': real,
                  p: real, q: real, p': real, q': real, ny: real, nz: real)
    requires p == Mul(s, y) - Mul(c, z) && q == Mul(c, y) + Mul(s, z)
    requires p' == Mul(s, y') - Mul(c, z') && q' == Mul(c, y') + Mul(s, z')
    requires ny == Mul(z, x') - Mul(x, z') && nz == Mul(x, y') - Mul(y, x')
    ensures Mul(q, x') - Mul(x, q') == Mul(s, ny) - Mul(c, nz)
    ensures Mul(x, p') - Mul(p, x') == Mul(c, ny) + Mul(s, nz)
  {
    assert (c * y + s * z) * x' - x * (c * y' + s * z') == s * (z * x' - x * z') - c * (x * y' - y * x');
    assert x * (s * y' - c * z') - (s * y - c * z) * x' == c * (z * x' - x * z') + s * (x * y' - y * x');
  }

  lemma TurnedRows(cr: real, sr: real, cp: real, sp: real, cy: real, sy: real)
    ensures RollTurn(cr, sr, Vec(cp * cy, sp * cy, sy)) == Vec(cp * cy, sr * sp * cy - cr * sy, cr * sp * cy + sr * sy)
    ensures RollTurn(cr, sr, Vec(cp * sy, sp * sy, -cy)) == Vec(cp * sy, sr * sp * sy + cr * cy, cr * sp * sy - sr * cy)
    ensures RollTurn(cr, sr, Vec(-sp, cp, 0.0)) == Vec(-sp, sr * cp, cr * cp)
  {
  }

  /** The roll stage of the 321 sequence: a rotation of the y-z plane. */
  function RollTurn(c: real, s: real, v: Vec): Vec {
    Vec(v.x, s * v.y - c * v.z, c * v.y + s * v.z)
  }

  lemma RollTurnDot(c: real, s: real, u: Vec, v: Vec)
    requires Square(s) + Square(c) == 1.0
    ensures RollTurn(c, s, u).Dot(RollTurn(c, s, v)) == u.Dot(v)
  {
    PlanarDot(c, s, u.y, u.z, v.y, v.z);
  }

  lemma PlanarDot(c: real, s: real, p: real, q: real, p': real, q': real)
    requires Square(s) + Square(c) == 1.0
    ensures (s * p - c * q) * (s * p' - c * q') + (c * p + s * q) * (c * p' + s * q') == p * p' + q * q'
  {
    assert (s * p - c * q) * (s * p' - c * q') + (c * p + s * q) * (c * p' + s * q')
        == (s * s + c * c) * (p * p' + q * q');
  }

  /** The rows before the roll stage. */
  lemma LevelRows(cp: real, sp: real, cy: real, sy: real)
    requires Square(sp) + Square(cp) == 1.0 && Square(sy) + Square(cy) == 1.0
    ensures Orthonormal(Mat(Vec(cp * cy, sp * cy, sy), Vec(cp * sy, sp * sy, -cy), Vec(-sp, cp, 0.0)))
  {
    ScaledCircle(cp, sp, cy, cy);
    ScaledCircle(cp, sp, sy, sy);
    ScaledCircle(cp, sp, cy, sy);
  }

  lemma ScaledCircle(c: real, s: real, p: real, q: real)
    requires Square(s) + Square(c) == 1.0
    ensures (c * p) * (c * q) + (s * p) * (s * q) == p * q
  {
    assert (c * p) * (c * q) + (s * p) * (s * q) == (s * s + c * c) * (p * q);
  }
}
