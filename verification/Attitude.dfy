/** What renormalisation does to an attitude: its fixed points, its exact acceptance
    condition, its cubic convergence, and the invariant that a whole run of
    rotate-then-normalise steps keeps. */
module Attitude {
  import opened Vectors
  import opened MathLibrary
  import opened DcmMatrix

  ghost predicate UnitPair(r: Mat) {
    r.a.LengthSquared() == 1.0 && r.b.LengthSquared() == 1.0
  }

  // ---- products of the corrected rows -----------------------------------

  /** |row|^2 after half the dot product `e` is taken out of it along the other row. */
  function TiltSquared(e: real, aa: real, bb: real): real {
    aa - Square(e) + 0.25 * Mul(Square(e), bb)
  }

  /** The dot product of both rows after that. */
  function TiltDot(e: real, aa: real, bb: real): real {
    Mul(e, 1.0 - 0.5 * (aa + bb) + 0.25 * Square(e))
  }

  lemma TiltProducts(r: Mat)
    ensures var aa, bb, e := r.a.LengthSquared(), r.b.LengthSquared(), r.a.Dot(r.b);
      var t := Tilted(r);
      && t.a.LengthSquared() == TiltSquared(e, aa, bb)
      && t.b.LengthSquared() == TiltSquared(e, bb, aa)
      && t.a.Dot(t.b) == TiltDot(e, aa, bb)
      && t.c.LengthSquared() == Mul(t.a.LengthSquared(), t.b.LengthSquared()) - Square(t.a.Dot(t.b))
  {
    hide Vec.Dot, Vec.Minus, Vec.Times, Vec.Cross, TiltedSquare, TiltedProduct, TiltSquared, TiltDot, Mul, Square;
    var e := r.a.Dot(r.b);
    var h := 0.5 * e;
    DotSymmetric(r.b, r.a);
    TiltedLengthSquared(r.a, r.b, h);
    TiltedLengthSquared(r.b, r.a, h);
    TiltedDot(r.a, r.b, h);
    HalfSkew(e, r.a.LengthSquared(), r.b.LengthSquared());
    Lagrange(Tilted(r).a, Tilted(r).b);
  }

  lemma HalfSkew(e: real, aa: real, bb: real)
    ensures TiltedSquare(aa, e, bb, 0.5 * e) == TiltSquared(e, aa, bb)
    ensures TiltedSquare(bb, e, aa, 0.5 * e) == TiltSquared(e, bb, aa)
    ensures TiltedProduct(aa, e, bb, 0.5 * e) == TiltDot(e, aa, bb)
  {
    hide Mul, Square, TiltSquared, TiltDot;
    HalfSquare(e, aa, bb);
    HalfSquare(e, bb, aa);
    HalfProduct(e, aa, bb);
  }

  lemma HalfSquare(e: real, aa: real, bb: real)
    ensures aa - 2.0 * Mul(0.5 * e, e) + Mul(0.5 * e, Mul(0.5 * e, bb)) == TiltSquared(e, aa, bb)
  {
  }

  lemma HalfProduct(e: real, aa: real, bb: real)
    ensures e - Mul(0.5 * e, aa) - Mul(0.5 * e, bb) + Mul(0.5 * e, Mul(0.5 * e, e)) == TiltDot(e, aa, bb)
  {
  }

  // ---- exact acceptance and cubic convergence ---------------------------

  /** What one accepted normalisation makes of a residual dot product `e`. */
  function NextSkew(e: real): real
    requires -1.0 <= e <= 1.0
  {
    SquareInUnit(e);
    Cube(e) / (4.0 - 3.0 * Square(e))
  }

  lemma SquareInUnit(e: real)
    requires -1.0 <= e <= 1.0
    ensures 0.0 <= Square(e) <= 1.0
  {
    AbsProduct(e, e, 1.0, 1.0);
    SquareNonNegative(e);
  }

  /** The squared length of the rebuilt third row, from unit rows with dot product `e`. */
  function ThirdRowSquared(e: real): real {
    Square(1.0 - 0.25 * Square(e)) * (1.0 - Square(e))
  }

  lemma UnitDot(u: Vec, v: Vec)
    requires u.LengthSquared() == 1.0 && v.LengthSquared() == 1.0
    ensures -1.0 <= u.Dot(v) <= 1.0
  {
    CauchySchwarz(u, v);
    SquareOrder(u.Dot(v), 1.0);
  }

  /** A unit pair with dot product `e` is corrected to rows of equal length. */
  lemma UnitPairTilt(r: Mat)
    requires UnitPair(r)
    ensures var e, t := r.a.Dot(r.b), Tilted(r);
      && t.a.LengthSquared() == 1.0 - 0.75 * Square(e) == t.b.LengthSquared()
      && t.a.Dot(t.b) == 0.25 * Cube(e)
      && t.c.LengthSquared() == ThirdRowSquared(e)
  {
    TiltProducts(r);
    var e, t := r.a.Dot(r.b), Tilted(r);
    UnitPairScalars(e, t.a.LengthSquared(), t.b.LengthSquared(), t.a.Dot(t.b), t.c.LengthSquared());
  }

  lemma UnitPairScalars(e: real, pp: real, qq: real, pq: real, cc: real)
    requires pp == TiltSquared(e, 1.0, 1.0) == qq && pq == TiltDot(e, 1.0, 1.0)
    requires cc == Mul(pp, qq) - Square(pq)
    ensures pp == 1.0 - 0.75 * Square(e) == qq && pq == 0.25 * Cube(e)
    ensures cc == ThirdRowSquared(e)
  {
    var s := Square(e);
    assert pp == 1.0 - 0.75 * s;
    assert pq == 0.25 * Cube(e);
    CubeSquared(e);
    assert pp * pp == 1.0 - 1.5 * s + 0.5625 * (s * s);
    ThirdRowExpanded(s);
  }

  lemma CubeSquared(e: real)
    ensures Square(0.25 * Cube(e)) == 0.0625 * Cube(Square(e))
  {
  }

  lemma ThirdRowExpanded(s: real)
    ensures Square(1.0 - 0.25 * s) * (1.0 - s) == 1.0 - 1.5 * s + 0.5625 * (s * s) - 0.0625 * Cube(s)
  {
  }

  /** Lengths inside the band, read off their squares. */
  lemma BandOfSquare(m: Libm, v: Vec)
    requires m.Lawful()
    ensures InBand(m.Length(v)) <==> 0.000000000001 < v.LengthSquared() < 1000000000000.0
  {
    LengthSpec(m, v);
    SquareBand(m.Length(v));
  }

  lemma SquareBand(l: real)
    requires l >= 0.0
    ensures InBand(l) <==> 0.000000000001 < Square(l) < 1000000000000.0
  {
    if l <= 0.000001 { AbsProduct(l, l, 0.000001, 0.000001); }
    if l >= 1000000.0 { SquareOrder(1000000.0, l); ProductMonotone(1000000.0, l, l); }
    if Square(l) <= 0.000000000001 { SquareOrder(l, 0.000001); }
    if Square(l) >= 1000000000000.0 { SquareOrder(1000000.0, l); }
  }

  /** From unit rows the first two rows always renormalise, and the verdict is exactly
      whether the rebuilt third row is longer than a millionth. */
  lemma UnitPairAcceptance(m: Libm, s: DcmState)
    requires m.Lawful() && UnitPair(s.matrix)
    ensures Normalization(m, s).1 == Ok <==> ThirdRowSquared(s.matrix.a.Dot(s.matrix.b)) > 0.000000000001
    ensures RowsInBand(m, Tilted(s.matrix)) >= 2
  {
    var e, t := s.matrix.a.Dot(s.matrix.b), Tilted(s.matrix);
    UnitPairTilt(s.matrix);
    UnitDot(s.matrix.a, s.matrix.b);
    SquareInUnit(e);
    BandOfSquare(m, t.a);
    BandOfSquare(m, t.b);
    BandOfSquare(m, t.c);
    ThirdRowAtMostOne(e);
  }

  lemma ThirdRowAtMostOne(e: real)
    requires -1.0 <= e <= 1.0
    ensures ThirdRowSquared(e) <= 1.0
  {
    SquareInUnit(e);
    var f, g := 1.0 - 0.25 * Square(e), 1.0 - Square(e);
    AbsProduct(f, f, 1.0, 1.0);
    AbsProduct(Square(f), g, 1.0, 1.0);
  }

  /** One accepted normalisation of unit rows: the new dot product is exactly
      e^3 / (4 - 3 e^2). */
  lemma CubicStep(m: Libm, s: DcmState)
    requires m.Lawful() && UnitPair(s.matrix) && Normalization(m, s).1 == Ok
    ensures var r := Normalization(m, s).0.matrix;
      && UnitPair(r)
      && -1.0 <= s.matrix.a.Dot(s.matrix.b) <= 1.0
      && r.a.Dot(r.b) == NextSkew(s.matrix.a.Dot(s.matrix.b))
  {
    var e, t := s.matrix.a.Dot(s.matrix.b), Tilted(s.matrix);
    NormalizeGeometry(m, s);
    UnitPairTilt(s.matrix);
    UnitDot(s.matrix.a, s.matrix.b);
    LengthSpec(m, t.a);
    LengthSpec(m, t.b);
    SquareInjective(m.Length(t.a), m.Length(t.b));
    UnitsDot(t.a, t.b, m.Length(t.a), e);
  }

  lemma UnitsDot(u: Vec, v: Vec, l: real, e: real)
    requires -1.0 <= e <= 1.0 && l > 0.0
    requires Square(l) == 1.0 - 0.75 * Square(e) && u.Dot(v) == 0.25 * Cube(e)
    ensures u.Times(1.0 / l).Dot(v.Times(1.0 / l)) == NextSkew(e)
  {
    SquareInUnit(e);
    DotScaled(u, 1.0 / l, v, 1.0 / l);
    Quarter(Cube(e), 4.0 - 3.0 * Square(e), l);
  }

  lemma Quarter(cube: real, den: real, l: real)
    requires l > 0.0 && den > 0.0 && Square(l) == 0.25 * den
    ensures (0.25 * cube) * ((1.0 / l) * (1.0 / l)) == cube / den
  {
    var i, k := 1.0 / l, cube / den;
    assert i * l == 1.0;
    assert (i * l) * (i * l) == (i * i) * Square(l);
    assert k * den == cube;
    assert (0.25 * (k * den)) * (i * i) == k * ((i * i) * (0.25 * den));
  }

  lemma NextSkewShrinks(e: real)
    requires -1.0 <= e <= 1.0
    ensures Abs(NextSkew(e)) <= Cube(Abs(e)) <= Abs(e)
  {
    SquareInUnit(e);
    AbsCube(e);
    var den := 4.0 - 3.0 * Square(e);
    ShrinkByQuotient(Cube(e), den);
    AbsProduct(Square(e), e, 1.0, Abs(e));
    assert Square(e) * Abs(e) == Cube(Abs(e));
  }

  lemma ShrinkByQuotient(x: real, den: real)
    requires den >= 1.0
    ensures Abs(x / den) <= Abs(x)
  {
    var k := x / den;
    assert k * den == x;
    ProductMonotone(1.0, den, Abs(k));
    assert Abs(k) * den == Abs(k * den);
  }

  lemma ThirdRowGrows(e: real, f: real)
    requires Abs(f) <= Abs(e) <= 1.0
    ensures ThirdRowSquared(e) <= ThirdRowSquared(f)
  {
    SquareInUnit(e);
    SquareInUnit(f);
    AbsProduct(f, f, Abs(e), Abs(e));
    assert Square(f) <= Square(e);
    var p, q := 1.0 - 0.25 * Square(e), 1.0 - 0.25 * Square(f);
    AbsProduct(p, p, q, q);
    AbsProduct(Square(p), 1.0 - Square(e), Square(q), 1.0 - Square(f));
  }

  ghost function Iterated(m: Libm, s: DcmState, n: nat): DcmState {
    if n == 0 then s else Normalization(m, Iterated(m, s, n - 1)).0
  }

  function ThreeTo(n: nat): nat {
    if n == 0 then 1 else 3 * ThreeTo(n - 1)
  }

  /** Once one normalisation of unit rows is accepted, all later ones are, and n of them
      leave at most |e| to the power 3^n of the original dot product. */
  lemma {:induction false} CubicConvergence(m: Libm, s: DcmState, n: nat)
    requires m.Lawful() && UnitPair(s.matrix) && Normalization(m, s).1 == Ok
    ensures var r := Iterated(m, s, n).matrix;
      && UnitPair(r)
      && Normalization(m, Iterated(m, s, n)).1 == Ok
      && Abs(r.a.Dot(r.b)) <= Pow(Abs(s.matrix.a.Dot(s.matrix.b)), ThreeTo(n))
      && Abs(r.a.Dot(r.b)) <= Abs(s.matrix.a.Dot(s.matrix.b))
  {
    var e0 := Abs(s.matrix.a.Dot(s.matrix.b));
    UnitDot(s.matrix.a, s.matrix.b);
    if n == 0 {
      assert Pow(e0, 1) == e0;
    } else {
      CubicConvergence(m, s, n - 1);
      var before := Iterated(m, s, n - 1);
      var e := before.matrix.a.Dot(before.matrix.b);
      CubicStep(m, before);
      NextSkewShrinks(e);
      CubeMonotone(Abs(e), Pow(e0, ThreeTo(n - 1)));
      CubeOfPow(e0, ThreeTo(n - 1));
      UnitPairAcceptance(m, s);
      UnitPairAcceptance(m, Iterated(m, s, n));
      ThirdRowGrows(s.matrix.a.Dot(s.matrix.b), NextSkew(e));
    }
  }

  /** From unit rows, normalisation is accepted for ever exactly when the third row it
      rebuilds the first time is longer than a millionth. */
  lemma AcceptedForever(m: Libm, s: DcmState)
    requires m.Lawful() && UnitPair(s.matrix)
    ensures (forall n: nat :: Normalization(m, Iterated(m, s, n)).1 == Ok)
       <==> ThirdRowSquared(s.matrix.a.Dot(s.matrix.b)) > 0.000000000001
  {
    UnitPairAcceptance(m, s);
    assert Iterated(m, s, 0) == s;
    if Normalization(m, s).1 == Ok {
      forall n: nat
        ensures Normalization(m, Iterated(m, s, n)).1 == Ok
      {
        CubicConvergence(m, s, n);
      }
    }
  }

  // ---- every outcome ----------------------------------------------------

  /** What a row becomes when it is replaced: unit length, in the direction it was tilted to. */
  ghost predicate Rescaled(m: Libm, row: Vec, tilted: Vec) {
    row.LengthSquared() == 1.0 && row.Dot(tilted) == m.Length(tilted)
  }

  /** For any matrix at all: normalisation is accepted exactly when all three tilted rows have
      squared lengths between 1e-12 and 1e12. Rows are replaced up to the first one outside the
      band, which keeps its old value as do those after it; the 16-bit counter rises by the rows
      tried, the bad one included. */
  lemma NormalizeOutcomes(m: Libm, s: DcmState)
    requires m.Lawful()
    ensures var t := Tilted(s.matrix);
      var (next, health) := Normalization(m, s);
      var a, b, c := WellSized(t.a), WellSized(t.b), WellSized(t.c);
      && (health == Ok <==> a && b && c)
      && (if a then Rescaled(m, next.matrix.a, t.a) else next.matrix.a == s.matrix.a)
      && (if a && b then Rescaled(m, next.matrix.b, t.b) else next.matrix.b == s.matrix.b)
      && (if a && b && c then Rescaled(m, next.matrix.c, t.c) else next.matrix.c == s.matrix.c)
      && next.renormValCount == (s.renormValCount + if !a then 1 else if !b then 2 else 3) % 65536
      && next.omega == s.omega
  {
    hide Vec.Dot, Vec.Cross, Libm.Length, Libm.Lawful, Unit, Tallied, InBand;
    var t := Tilted(s.matrix);
    RowOutcome(m, t.a);
    RowOutcome(m, t.b);
    RowOutcome(m, t.c);
  }

  /** The statistics an accepted normalisation adds are the three factors by which it scaled its rows. */
  lemma TallyOfAccepted(m: Libm, s: DcmState, sum: real)
    requires m.Lawful() && Normalization(m, s).1 == Ok && s.renormValSum == Finite(sum)
    ensures exists p: real, q: real, k: real :: TallyBy(Normalization(m, s).0, Tilted(s.matrix), sum, p, q, k)
  {
    hide Vec.Times, Libm.Lawful, Libm.Length, Vec.Cross, Vec.Dot;
    var t := Tilted(s.matrix);
    assert TallyBy(Normalization(m, s).0, t, sum, 1.0 / m.Length(t.a), 1.0 / m.Length(t.b), 1.0 / m.Length(t.c));
  }

  predicate TallyBy(after: DcmState, t: Mat, sum: real, p: real, q: real, k: real) {
    && after.matrix == Mat(t.a.Times(p), t.b.Times(q), t.c.Times(k))
    && after.renormValSum == Finite(sum + p + q + k)
  }

  /** A check repairs nothing while the nose is not vertical, and an accepted one leaves its third row no
      longer than a unit along the nose. */
  lemma CheckLeaves(m: Libm, s: DcmState)
    requires m.Lawful()
    ensures Square(s.matrix.c.x) < 1.0 ==> Checked(m, s) == (s, Ok)
    ensures Checked(m, s).1 == Ok ==> Square(Checked(m, s).0.matrix.c.x) <= 1.0
  {
    hide Libm.Lawful, Normalization;
    var x := s.matrix.c.x;
    if Square(x) < 1.0 {
      SquareOrder(x, 1.0);
    }
    var (after, health) := Normalization(m, s);
    if health == Ok {
      NormalizeGeometry(m, s);
      UnitComponents(after.matrix.c);
      AbsProduct(after.matrix.c.x, after.matrix.c.x, 1.0, 1.0);
    }
    if -1.0 < x < 1.0 {
      AbsProduct(x, x, 1.0, 1.0);
    }
  }

  predicate WellSized(v: Vec) {
    0.000000000001 < v.LengthSquared() < 1000000000000.0
  }

  lemma RowOutcome(m: Libm, v: Vec)
    requires m.Lawful()
    ensures InBand(m.Length(v)) <==> WellSized(v)
    ensures InBand(m.Length(v)) ==> m.Length(v) != 0.0 && Rescaled(m, Unit(m, v), v)
  {
    hide Libm.Lawful;
    BandOfSquare(m, v);
    if InBand(m.Length(v)) {
      UnitSpec(m, v);
      LengthSpec(m, v);
      var l := m.Length(v);
      DotTimes(v, v, 1.0 / l);
      DotSymmetric(v, Unit(m, v));
      Cancelled(l, v.LengthSquared());
    }
  }

  lemma Cancelled(l: real, ll: real)
    requires l > 0.0 && Square(l) == ll
    ensures Mul(1.0 / l, ll) == l
  {
    var i := 1.0 / l;
    assert i * l == 1.0;
    assert Mul(i, Square(l)) == (i * l) * l;
  }

  // ---- fixed points -----------------------------------------------------

  /** The matrices normalisation accepts and leaves alone are exactly the right-handed
      orthonormal ones. */
  lemma FixedPoints(m: Libm, s: DcmState)
    requires m.Lawful()
    ensures Normalization(m, s).1 == Ok && Normalization(m, s).0.matrix == s.matrix <==> RightHanded(s.matrix)
  {
    var r := s.matrix;
    if RightHanded(r) {
      SquareLevelTilt(m, r);
    } else if Normalization(m, s).1 == Ok && Normalization(m, s).0.matrix == r {
      NormalizeGeometry(m, s);
      CubicStep(m, s);
      UnitPairAcceptance(m, s);
      StationarySkew(r.a.Dot(r.b));
      SquareLevelTilt(m, r);
      assert false;
    }
  }

  lemma StationarySkew(e: real)
    requires -1.0 <= e <= 1.0 && NextSkew(e) == e && ThirdRowSquared(e) > 0.0
    ensures e == 0.0
  {
    SquareInUnit(e);
    var s := Square(e);
    if s == 1.0 {
      NoThirdRow(e);
    } else {
      QuotientTimes(Cube(e), 4.0 - 3.0 * s, e);
      FactorZero(e, s);
    }
  }

  lemma NoThirdRow(e: real)
    requires Square(e) == 1.0
    ensures ThirdRowSquared(e) == 0.0
  {
    hide Square;
  }

  lemma QuotientTimes(x: real, d: real, q: real)
    requires d != 0.0 && x / d == q
    ensures x == q * d
  {
  }

  lemma FactorZero(e: real, s: real)
    requires Cube(e) == e * (4.0 - 3.0 * s) && s == Square(e) && s != 1.0
    ensures e == 0.0
  {
    assert Cube(e) == e * s;
    assert e * (4.0 - 3.0 * s) == 4.0 * e - 3.0 * (e * s);
    assert e * (1.0 - s) == 0.0;
    ZeroFactor(e, 1.0 - s);
  }

  lemma ZeroFactor(x: real, y: real)
    requires x * y == 0.0 && y != 0.0
    ensures x == 0.0
  {
    assert x == x * y / y;
  }

  /** Perpendicular unit rows are already where normalisation wants them. */
  lemma SquareLevelTilt(m: Libm, r: Mat)
    requires m.Lawful() && UnitPair(r) && r.a.Dot(r.b) == 0.0
    ensures var t := Tilted(r);
      && t == Mat(r.a, r.b, r.a.Cross(r.b))
      && RowsInBand(m, t) == 3
      && Unit(m, t.a) == t.a && Unit(m, t.b) == t.b && Unit(m, t.c) == t.c
  {
    var n := r.a.Cross(r.b);
    Lagrange(r.a, r.b);
    assert n.LengthSquared() == 1.0;
    UnitFixed(m, r.a);
    UnitFixed(m, r.b);
    UnitFixed(m, n);
  }

  lemma UnitFixed(m: Libm, v: Vec)
    requires m.Lawful() && v.LengthSquared() == 1.0
    ensures m.Length(v) == 1.0 && Unit(m, v) == v
  {
    LengthUnique(m, v, 1.0);
  }
}
