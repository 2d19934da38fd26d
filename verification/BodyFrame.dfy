/** The attitude as a map between body and earth frame, with the skew that renormalisation leaves
    between its first two rows. */
module BodyFrame {
  import opened Vectors
  import opened MathLibrary
  import opened Attitude
  import opened DcmLoop

  /** What an accepted normalisation leaves: unit rows, the third perpendicular to the others, no
      reflection. The first two may still be skewed. */
  ghost predicate NormalRows(r: Mat) {
    && UnitPair(r) && r.c.LengthSquared() == 1.0
    && r.a.Dot(r.c) == 0.0 && r.b.Dot(r.c) == 0.0
    && r.Det() > 0.0
  }

  function Skew(r: Mat): real { r.a.Dot(r.b) }

  lemma NearRotationIsNormal(r: Mat, gamma: real)
    requires NearRotation(r, gamma)
    ensures NormalRows(r)
  {
  }

  lemma RotationIsNormal(r: Mat)
    requires RightHanded(r)
    ensures NormalRows(r) && Skew(r) == 0.0 && r.Det() == 1.0
  {
    RightHandedDet(r);
  }

  /** The determinant falls short of one by the skew alone. */
  lemma DetOfSkew(r: Mat)
    requires NormalRows(r)
    ensures Square(r.Det()) == 1.0 - Square(Skew(r))
    ensures -1.0 < Skew(r) < 1.0 && 0.0 < r.Det() <= 1.0
  {
    hide Vec.Dot, Vec.Cross, Vec.Times, Vec.Minus;
    var n := r.a.Cross(r.b);
    DetCyclic(r.a, r.b, r.c);
    Lagrange(r.a, r.b);
    Lagrange(r.c, n);
    TripleProduct(r.c, r.a, r.b);
    DotSymmetric(r.c, r.a);
    DotSymmetric(r.c, r.b);
    NoDifference(r.a, r.b);
    assert Square(r.Det()) == n.LengthSquared();
    SkewRange(Skew(r), r.Det());
  }

  lemma SkewRange(e: real, d: real)
    requires d > 0.0 && Square(d) == 1.0 - Square(e)
    ensures -1.0 < e < 1.0 && d <= 1.0
  {
    ProductPositive(d, d);
    SquareOrder(e, 1.0);
    SquareNonNegative(e);
    SquareOrder(d, 1.0);
  }

  /** Into body frame and back mixes the first two components by the skew. */
  lemma ThereAndBack(r: Mat, v: Vec)
    requires NormalRows(r)
    ensures r.Mul(r.MulTranspose(v))
         == Vec(v.x + Mul(Skew(r), v.y), Mul(Skew(r), v.x) + v.y, v.z)
  {
    hide Vec.Dot, Vec.Times, Vec.Plus, Mat.MulTranspose, Mat.Det;
    TransposeIsCombination(r, v);
    DotOfCombination(r.a, r.a, v.x, r.b, v.y, r.c, v.z);
    DotOfCombination(r.b, r.a, v.x, r.b, v.y, r.c, v.z);
    DotOfCombination(r.c, r.a, v.x, r.b, v.y, r.c, v.z);
    DotSymmetric(r.a, r.b);
    DotSymmetric(r.a, r.c);
    DotSymmetric(r.b, r.c);
  }

  /** `b` with that mixing undone. */
  function Unmixed(e: real, b: Vec): Vec
    requires -1.0 < e < 1.0
  {
    UnmixDefined(e);
    Vec((b.x - Mul(e, b.y)) / (1.0 - Square(e)), (b.y - Mul(e, b.x)) / (1.0 - Square(e)), b.z)
  }

  lemma UnmixDefined(e: real)
    requires -1.0 < e < 1.0
    ensures 1.0 - Square(e) > 0.0
  {
    ProductPositive(1.0 - e, 1.0 + e);
    assert Mul(1.0 - e, 1.0 + e) == 1.0 - Square(e);
  }

  lemma UnmixUndoes(e: real, b: Vec)
    requires -1.0 < e < 1.0
    ensures var u := Unmixed(e, b);
      b == Vec(u.x + Mul(e, u.y), Mul(e, u.x) + u.y, u.z)
  {
    var u := Unmixed(e, b);
    UnmixDefined(e);
    var d := 1.0 - Square(e);
    assert u.x * d == b.x - Mul(e, b.y);
    assert u.y * d == b.y - Mul(e, b.x);
    MixedPair(e, d, b.x, b.y, u.x, u.y);
    MixedPair(e, d, b.y, b.x, u.y, u.x);
  }

  lemma MixedPair(e: real, d: real, x: real, y: real, p: real, q: real)
    requires d == 1.0 - Square(e) && d > 0.0
    requires Mul(p, d) == x - Mul(e, y) && Mul(q, d) == y - Mul(e, x)
    ensures x == p + Mul(e, q)
  {
    assert (p + Mul(e, q)) * d == Mul(p, d) + e * Mul(q, d);
    assert e * (y - Mul(e, x)) == Mul(e, y) - Square(e) * x;
    assert (p + Mul(e, q)) * d == x * d;
    SameFactor(p + Mul(e, q), x, d);
  }

  /** The body direction the attitude shows along `b`. */
  ghost function BodyDirection(r: Mat, b: Vec): Vec
    requires NormalRows(r)
  {
    DetOfSkew(r);
    r.MulTranspose(Unmixed(Skew(r), b))
  }

  lemma BodyDirectionShown(r: Mat, b: Vec)
    requires NormalRows(r)
    ensures r.Mul(BodyDirection(r, b)) == b
  {
    hide NormalRows, Mat.Mul, Mat.MulTranspose, Unmixed;
    DetOfSkew(r);
    ThereAndBack(r, Unmixed(Skew(r), b));
    UnmixUndoes(Skew(r), b);
  }

  /** One row of the cross product of two transposed images. */
  lemma RowOfCross(a: Vec, b: Vec, c: Vec, p: Vec, x: real, y: real, z: real, q: Vec, x': real, y': real, z': real)
    requires p == a.Times(x).Plus(b.Times(y)).Plus(c.Times(z))
    requires q == a.Times(x').Plus(b.Times(y')).Plus(c.Times(z'))
    ensures a.Dot(p.Cross(q)) == Mul(Mul(y, z') - Mul(z, y'), a.Dot(b.Cross(c)))
  {
    hide Vec.Dot, Vec.Cross, Vec.Times, Vec.Plus;
    var n := q.Cross(a);
    var d := a.Dot(b.Cross(c));
    DotCyclic(a, p, q);
    DotSymmetric(n, p);
    DotOfCombination(n, a, x, b, y, c, z);
    CrossPerpendicular(q, a);
    DotSymmetric(n, a);
    // b . (q x a) = q . (a x b) and c . (q x a) = -q . (c x a)
    DotCyclic(b, q, a);
    DotOfCombination(a.Cross(b), a, x', b, y', c, z');
    CrossPerpendicular(a, b);
    DotSymmetric(a.Cross(b), q);
    DotSymmetric(a.Cross(b), a);
    DotSymmetric(a.Cross(b), b);
    DotSymmetric(a.Cross(b), c);
    DetCyclic(a, b, c);
    DotCyclic(c, q, a);
    DotOfCombination(a.Cross(c), a, x', b, y', c, z');
    CrossPerpendicular(a, c);
    DotSymmetric(a.Cross(c), q);
    DotSymmetric(a.Cross(c), a);
    DotSymmetric(a.Cross(c), b);
    DotSymmetric(a.Cross(c), c);
    SwappedRows(a, b, c);
    DotSymmetric(n, b);
    DotSymmetric(n, c);
    RowScalars(y, z, y', z', d);
  }

  lemma RowScalars(y: real, z: real, y': real, z': real, d: real)
    ensures Mul(y, Mul(z', d)) - Mul(z, Mul(y', d)) == Mul(Mul(y, z') - Mul(z, y'), d)
    ensures Mul(z, Mul(y', -d)) == -Mul(z, Mul(y', d))
  {
  }

  /** The cross product of two vectors taken in body frame. */
  lemma CrossInBody(r: Mat, p: Vec, q: Vec)
    ensures r.Mul(r.MulTranspose(p).Cross(r.MulTranspose(q))) == p.Cross(q).Times(r.Det())
  {
    hide Vec.Dot, Vec.Cross, Vec.Times, Vec.Plus, Mat.MulTranspose, Mul;
    var (u, v) := (r.MulTranspose(p), r.MulTranspose(q));
    TransposeIsCombination(r, p);
    TransposeIsCombination(r, q);
    PlusRotates(r.a.Times(p.x), r.b.Times(p.y), r.c.Times(p.z));
    PlusRotates(r.a.Times(q.x), r.b.Times(q.y), r.c.Times(q.z));
    RowOfCross(r.a, r.b, r.c, u, p.x, p.y, p.z, v, q.x, q.y, q.z);
    RowOfCross(r.b, r.c, r.a, u, p.y, p.z, p.x, v, q.y, q.z, q.x);
    RowOfCross(r.c, r.a, r.b, u, p.z, p.x, p.y, v, q.z, q.x, q.y);
    DotCyclic(r.a, r.b, r.c);
    DotCyclic(r.b, r.c, r.a);
    CrossParts(p, q);
    TimesParts(p.Cross(q), r.Det());
  }

  lemma RotatedImage(r: Mat, g: Vec, v: Vec)
    ensures r.Rotate(g).Mul(v) == r.Mul(v).Plus(r.Mul(g.Cross(v)))
  {
    hide Vec.Cross, Vec.Dot;
    RotatedRow(r.a, g, v);
    RotatedRow(r.b, g, v);
    RotatedRow(r.c, g, v);
  }

  /** Undoing the skew changes lengths and agreement by factors within 1 -+ abs(e) only. */
  lemma UnmixedBounds(e: real, b: Vec, w: Vec)
    requires -1.0 < e < 1.0 && b.LengthSquared() == 1.0 && w.LengthSquared() == 1.0
    ensures var u := Unmixed(e, b);
      Mul(1.0 + Abs(e), b.Dot(u)) >= 1.0 && Mul(1.0 - Abs(e), w.Dot(u)) <= 1.0
  {
    hide Vec.Dot, Vec.LengthSquared, Unmixed, Mul, Square;
    var u := Unmixed(e, b);
    UnmixUndoes(e, b);
    MixedProducts(e, u);
    var sum, product := Square(u.x) + Square(u.y), Mul(u.x, u.y);
    PairProduct(u.x, u.y);
    SquareNonNegative(u.z);
    var t := if e >= 0.0 then product else -product;
    SignMoves(e, product);
    AgreementFactor(Abs(e), sum, t, Square(u.z));
    LengthFactor(Abs(e), sum, t, Square(u.z));
    SignedSquare(e);
    CauchySchwarz(w, u);
    OneTimes(u.LengthSquared());
    SquareOfMul(1.0 - Abs(e), w.Dot(u));
    SquareNonNegative(1.0 - Abs(e));
    ScaledOrder(Square(w.Dot(u)), u.LengthSquared(), Square(1.0 - Abs(e)));
    WithinOne(Mul(1.0 - Abs(e), w.Dot(u)));
  }

  lemma MixedProducts(e: real, u: Vec)
    ensures var b := Vec(u.x + Mul(e, u.y), Mul(e, u.x) + u.y, u.z);
      var (sum, product, zz) := (Square(u.x) + Square(u.y), Mul(u.x, u.y), Square(u.z));
      && b.Dot(u) == sum + 2.0 * Mul(e, product) + zz
      && b.LengthSquared() == Mul(1.0 + Square(e), sum) + 4.0 * Mul(e, product) + zz
      && u.LengthSquared() == sum + zz
  {
    hide Vec.Dot, Mul, Square;
    var b := Vec(u.x + Mul(e, u.y), Mul(e, u.x) + u.y, u.z);
    DotParts(b, u);
    DotParts(b, b);
    DotParts(u, u);
    MixedPart(b.x, e, u.x, u.y);
    MixedPart(b.y, e, u.y, u.x);
    MulSymmetric(u.x, u.y);
    SquareIsMul(u.x);
    SquareIsMul(u.y);
    SquareIsMul(u.z);
    SumScaled(Square(e), Square(u.x), Square(u.y));
  }

  lemma MixedPart(p: real, e: real, x: real, y: real)
    requires p == x + Mul(e, y)
    ensures Mul(p, x) == Square(x) + Mul(e, Mul(x, y))
    ensures Mul(p, p) == Square(x) + 2.0 * Mul(e, Mul(x, y)) + Mul(Square(e), Square(y))
  {
    var q := e * y;
    assert (x + q) * x == x * x + q * x && q * x == e * (x * y);
    assert (x + q) * (x + q) == x * x + 2.0 * (q * x) + q * q;
    assert q * q == (e * e) * (y * y);
  }

  lemma SignMoves(e: real, product: real)
    ensures Mul(e, product) == Mul(Abs(e), if e >= 0.0 then product else -product)
  {
  }

  lemma SignedSquare(e: real)
    ensures Square(Abs(e)) == Square(e)
  {
  }

  lemma AgreementFactor(f: real, sum: real, t: real, zz: real)
    requires 0.0 <= f < 1.0 && 0.0 <= sum - 2.0 * t && 0.0 <= zz
    ensures Mul(1.0 + f, sum + 2.0 * Mul(f, t) + zz) >= Mul(1.0 + Square(f), sum) + 4.0 * Mul(f, t) + zz
  {
    MulNonNegative(f, 1.0 - f);
    MulNonNegative(Mul(f, 1.0 - f), sum - 2.0 * t);
    MulNonNegative(f, zz);
    assert (1.0 + f) * (sum + 2.0 * (f * t) + zz) - ((1.0 + f * f) * sum + 4.0 * (f * t) + zz)
        == (f * (1.0 - f)) * (sum - 2.0 * t) + f * zz;
  }

  lemma LengthFactor(f: real, sum: real, t: real, zz: real)
    requires 0.0 <= f < 1.0 && 0.0 <= sum + 2.0 * t && 0.0 <= zz
    ensures Mul(Square(1.0 - f), sum + zz) <= Mul(1.0 + Square(f), sum) + 4.0 * Mul(f, t) + zz
  {
    MulNonNegative(f, sum + 2.0 * t);
    MulNonNegative(f, 2.0 - f);
    MulNonNegative(Mul(f, 2.0 - f), zz);
    assert (1.0 + f * f) * sum + 4.0 * (f * t) + zz - ((1.0 - f) * (1.0 - f)) * (sum + zz)
        == 2.0 * (f * (sum + 2.0 * t)) + (f * (2.0 - f)) * zz;
  }

  lemma Unskewed(b: Vec)
    ensures Unmixed(0.0, b) == b
  {
  }
}
