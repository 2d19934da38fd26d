/** Exact-real counterparts of ap-math's `Vector3` and `Matrix3`, and the
    vector identities the estimator's proofs rest on. */
module Vectors {

  function Abs(x: real): real {
    if x < 0.0 then -x else x
  }

  // Named products keep equal factors recognisably equal to the solver.

  function Mul(x: real, y: real): real { x * y }

  function Square(x: real): real { x * x }

  function Cube(x: real): real { x * x * x }

  /** `base` raised to a natural power. */
  function Pow(base: real, n: nat): real {
    if n == 0 then 1.0 else Mul(base, Pow(base, n - 1))
  }

  datatype Vec = Vec(x: real, y: real, z: real) {
    function Plus(v: Vec): Vec { Vec(x + v.x, y + v.y, z + v.z) }
    function Minus(v: Vec): Vec { Vec(x - v.x, y - v.y, z - v.z) }
    function Times(k: real): Vec { Vec(x * k, y * k, z * k) }
    function Dot(v: Vec): real { x * v.x + y * v.y + z * v.z }
    function Cross(v: Vec): Vec {
      Vec(y * v.z - z * v.y, z * v.x - x * v.z, x * v.y - y * v.x)
    }
    function LengthSquared(): real { Dot(this) }

    function Over(k: real): Vec
      requires k != 0.0
    {
      Vec(x / k, y / k, z / k)
    }
  }

  const ZERO := Vec(0.0, 0.0, 0.0)

  /** Row-major, as upstream: `a`, `b` and `c` are the rows. */
  datatype Mat = Mat(a: Vec, b: Vec, c: Vec) {
    function Mul(v: Vec): Vec { Vec(a.Dot(v), b.Dot(v), c.Dot(v)) }

    function MulTranspose(v: Vec): Vec {
      Vec(a.x * v.x + b.x * v.y + c.x * v.z,
          a.y * v.x + b.y * v.y + c.y * v.z,
          a.z * v.x + b.z * v.y + c.z * v.z)
    }

    function ColX(): Vec { Vec(a.x, b.x, c.x) }

    function Det(): real { a.Dot(b.Cross(c)) }

    /** The first-order rotation: each row is crossed with `g` and the result added. */
    function Rotate(g: Vec): Mat {
      Mat(a.Plus(a.Cross(g)), b.Plus(b.Cross(g)), c.Plus(c.Cross(g)))
    }
  }

  const IDENTITY := Mat(Vec(1.0, 0.0, 0.0), Vec(0.0, 1.0, 0.0), Vec(0.0, 0.0, 1.0))

  // ---- identities -------------------------------------------------------

  lemma SquareNonNegative(x: real)
    ensures Square(x) >= 0.0
  {
  }

  lemma ProductPositive(p: real, q: real)
    requires p != 0.0 && q != 0.0
    ensures 0.0 < Mul(p, q) <==> (0.0 < p) == (0.0 < q)
  {
  }

  lemma ProductMonotone(p: real, q: real, k: real)
    requires p <= q && 0.0 <= k
    ensures Mul(p, k) <= Mul(q, k)
  {
  }

  lemma MulNonNegative(p: real, q: real)
    requires 0.0 <= p && 0.0 <= q
    ensures 0.0 <= Mul(p, q)
  {
  }

  /** Bounds multiply. */
  lemma AbsProduct(x: real, y: real, p: real, q: real)
    requires Abs(x) <= p && Abs(y) <= q
    ensures Abs(Mul(x, y)) <= Mul(p, q)
  {
    AbsOfMul(x, y);
    ProductMonotone(Abs(x), p, Abs(y));
    ProductMonotone(Abs(y), q, p);
    assert Mul(p, Abs(y)) == Mul(Abs(y), p) && Mul(q, p) == Mul(p, q);
  }

  lemma AbsOfMul(x: real, y: real)
    ensures Abs(Mul(x, y)) == Mul(Abs(x), Abs(y))
  {
    if x == 0.0 || y == 0.0 {
    } else {
      ProductPositive(x, y);
    }
  }

  lemma CubeMonotone(x: real, y: real)
    requires 0.0 <= x <= y
    ensures 0.0 <= Cube(x) <= Cube(y)
  {
    AbsProduct(x, x, y, y);
    AbsProduct(Square(x), x, Square(y), y);
  }

  lemma AbsCube(x: real)
    ensures Abs(Cube(x)) == Cube(Abs(x))
  {
  }

  lemma MulAssociates(x: real, y: real, z: real)
    ensures Mul(x, Mul(y, z)) == Mul(Mul(x, y), z)
  {
  }

  lemma PowAdds(base: real, j: nat, k: nat)
    ensures Pow(base, j + k) == Mul(Pow(base, j), Pow(base, k))
  {
    if j == 0 {
    } else {
      PowAdds(base, j - 1, k);
      MulAssociates(base, Pow(base, j - 1), Pow(base, k));
    }
  }

  lemma CubeOfPow(base: real, k: nat)
    ensures Cube(Pow(base, k)) == Pow(base, 3 * k)
  {
    PowAdds(base, k, k);
    PowAdds(base, 2 * k, k);
  }

  lemma ProductCongruence(p: real, q: real, p': real, q': real)
    requires p == p' && q == q'
    ensures p * q == p' * q'
  {
  }

  /** Squares order non-negative reals. */
  lemma SquareOrder(x: real, y: real)
    requires 0.0 <= y
    requires Square(x) <= Square(y)
    ensures -y <= x <= y
  {
    var p, q := x - y, x + y;
    assert p * q == Square(x) - Square(y);
    if y < x || x < -y {
      ProductPositive(p, q);
    }
  }

  lemma SquareInjective(x: real, y: real)
    requires 0.0 <= x && 0.0 <= y && Square(x) == Square(y)
    ensures x == y
  {
    SquareOrder(x, y);
    SquareOrder(y, x);
  }

  lemma QuotientIsProduct(x: real, k: real)
    requires k != 0.0
    ensures x / k == x * (1.0 / k)
  {
  }

  lemma OverIsTimes(v: Vec, k: real)
    requires k != 0.0
    ensures v.Over(k) == v.Times(1.0 / k)
  {
    QuotientIsProduct(v.x, k);
    QuotientIsProduct(v.y, k);
    QuotientIsProduct(v.z, k);
  }

  lemma LengthSquaredNonNegative(v: Vec)
    ensures v.LengthSquared() >= 0.0
    ensures v.LengthSquared() == 0.0 ==> v == ZERO
  {
    SquareNonNegative(v.x);
    SquareNonNegative(v.y);
    SquareNonNegative(v.z);
    if v.LengthSquared() == 0.0 {
      SquareOrder(v.x, 0.0);
      SquareOrder(v.y, 0.0);
      SquareOrder(v.z, 0.0);
    }
  }

  lemma DotSymmetric(u: Vec, v: Vec)
    ensures u.Dot(v) == v.Dot(u)
  {
  }

  lemma DotScaled(u: Vec, j: real, v: Vec, k: real)
    ensures u.Times(j).Dot(v.Times(k)) == u.Dot(v) * (j * k)
  {
  }

  lemma Lagrange(u: Vec, v: Vec)
    ensures u.Cross(v).LengthSquared() == Mul(u.LengthSquared(), v.LengthSquared()) - Square(u.Dot(v))
  {
  }

  lemma CauchySchwarz(u: Vec, v: Vec)
    ensures Square(u.Dot(v)) <= Mul(u.LengthSquared(), v.LengthSquared())
  {
    Lagrange(u, v);
    LengthSquaredNonNegative(u.Cross(v));
  }

  lemma CrossPerpendicular(u: Vec, v: Vec)
    ensures u.Dot(u.Cross(v)) == 0.0 && v.Dot(u.Cross(v)) == 0.0
  {
  }

  lemma DetCyclic(u: Vec, v: Vec, w: Vec)
    ensures u.Dot(v.Cross(w)) == w.Dot(u.Cross(v))
  {
  }

  lemma DotOfSums(u: Vec, p: Vec, v: Vec, q: Vec)
    ensures u.Plus(p).Dot(v.Plus(q)) == u.Dot(v) + u.Dot(q) + p.Dot(v) + p.Dot(q)
  {
  }

  lemma TimesOne(v: Vec)
    ensures v.Times(1.0) == v
  {
  }

  lemma TimesTwice(v: Vec, j: real, k: real)
    ensures v.Times(j).Times(k) == v.Times(Mul(j, k))
  {
  }

  lemma DotTimes(u: Vec, v: Vec, k: real)
    ensures u.Dot(v.Times(k)) == Mul(k, u.Dot(v))
  {
  }

  lemma CrossScaled(u: Vec, j: real, v: Vec, k: real)
    ensures u.Times(j).Cross(v.Times(k)) == u.Cross(v).Times(j * k)
  {
    hide Vec.Cross, Vec.Times;
    CrossTimesLeft(u, j, v.Times(k));
    CrossTimesRight(u, v, k);
    TimesTwice(u.Cross(v), k, j);
    MulCommutes(k, j);
  }

  lemma CrossParts(u: Vec, v: Vec)
    ensures u.Cross(v) == Vec(Mul(u.y, v.z) - Mul(u.z, v.y), Mul(u.z, v.x) - Mul(u.x, v.z),
                              Mul(u.x, v.y) - Mul(u.y, v.x))
  {
  }

  lemma TimesParts(v: Vec, k: real)
    ensures v.Times(k) == Vec(Mul(v.x, k), Mul(v.y, k), Mul(v.z, k))
  {
  }

  lemma CrossTimesLeft(u: Vec, j: real, v: Vec)
    ensures u.Times(j).Cross(v) == u.Cross(v).Times(j)
  {
    var p, n := u.Times(j), u.Cross(v);
    ScaledMinor(u.y, v.z, u.z, v.y, j, p.y, p.z, n.x);
    ScaledMinor(u.z, v.x, u.x, v.z, j, p.z, p.x, n.y);
    ScaledMinor(u.x, v.y, u.y, v.x, j, p.x, p.y, n.z);
  }

  lemma CrossTimesRight(u: Vec, v: Vec, k: real)
    ensures u.Cross(v.Times(k)) == u.Cross(v).Times(k)
  {
    var q, n := v.Times(k), u.Cross(v);
    ScaledMinor(v.z, u.y, v.y, u.z, k, q.z, q.y, n.x);
    ScaledMinor(v.x, u.z, v.z, u.x, k, q.x, q.z, n.y);
    ScaledMinor(v.y, u.x, v.x, u.y, k, q.y, q.x, n.z);
  }

  /** A component `n` of a cross product when one operand is scaled by `j`. */
  lemma ScaledMinor(p: real, q: real, s: real, t: real, j: real, pj: real, sj: real, n: real)
    requires pj == p * j && sj == s * j && n == p * q - s * t
    ensures pj * q - sj * t == n * j
  {
    assert (p * j) * q == (p * q) * j;
    assert (s * j) * t == (s * t) * j;
  }

  lemma MulCommutes(k: real, j: real)
    ensures Mul(k, j) == j * k
  {
  }

  lemma DotOfDifferences(u: Vec, p: Vec, v: Vec, q: Vec)
    ensures u.Minus(p).Dot(v.Minus(q)) == u.Dot(v) - u.Dot(q) - p.Dot(v) + p.Dot(q)
  {
  }

  /** |u - j v|^2 from the products of u and v. */
  function TiltedSquare(uu: real, uv: real, vv: real, j: real): real {
    uu - 2.0 * Mul(j, uv) + Mul(j, Mul(j, vv))
  }

  /** (u - j v) . (v - j u) from the products of u and v. */
  function TiltedProduct(uu: real, uv: real, vv: real, j: real): real {
    uv - Mul(j, uu) - Mul(j, vv) + Mul(j, Mul(j, uv))
  }

  lemma TiltedLengthSquared(u: Vec, v: Vec, j: real)
    ensures u.Minus(v.Times(j)).LengthSquared() == TiltedSquare(u.LengthSquared(), u.Dot(v), v.LengthSquared(), j)
  {
    var p := v.Times(j);
    DotOfDifferences(u, p, u, p);
    DotTimes(u, v, j);
    DotSymmetric(p, u);
    DotTimes(p, v, j);
    DotSymmetric(p, v);
    DotTimes(v, v, j);
  }

  lemma TiltedDot(u: Vec, v: Vec, j: real)
    ensures u.Minus(v.Times(j)).Dot(v.Minus(u.Times(j)))
         == TiltedProduct(u.LengthSquared(), u.Dot(v), v.LengthSquared(), j)
  {
    var p, q := v.Times(j), u.Times(j);
    DotOfDifferences(u, p, v, q);
    DotTimes(u, u, j);
    DotSymmetric(p, v);
    DotTimes(v, v, j);
    DotTimes(p, u, j);
    DotSymmetric(p, u);
    DotTimes(u, v, j);
  }

  lemma DifferenceLengthSquared(u: Vec, v: Vec)
    ensures u.Minus(v).LengthSquared() == u.LengthSquared() - 2.0 * u.Dot(v) + v.LengthSquared()
  {
  }

  lemma SumLengthSquared(u: Vec, v: Vec)
    ensures u.Plus(v).LengthSquared() == u.LengthSquared() + 2.0 * u.Dot(v) + v.LengthSquared()
  {
  }

  lemma BinetCauchy(u: Vec, v: Vec, g: Vec)
    ensures u.Cross(g).Dot(v.Cross(g)) == Mul(u.Dot(v), g.LengthSquared()) - Mul(u.Dot(g), v.Dot(g))
  {
    Lagrange(u, g);
    Lagrange(v, g);
    Lagrange(u.Plus(v), g);
    SumLengthSquared(u, v);
    SumLengthSquared(u.Cross(g), v.Cross(g));
    assert u.Plus(v).Cross(g) == u.Cross(g).Plus(v.Cross(g));
    DotDistributes(u, v, g);
    Polarise(u.LengthSquared(), v.LengthSquared(), u.Dot(v), g.LengthSquared(), u.Dot(g), v.Dot(g),
             u.Plus(v).LengthSquared(), u.Plus(v).Dot(g),
             u.Cross(g).LengthSquared(), v.Cross(g).LengthSquared(), u.Cross(g).Dot(v.Cross(g)));
  }

  lemma DotDistributes(u: Vec, v: Vec, g: Vec)
    ensures u.Plus(v).Dot(g) == u.Dot(g) + v.Dot(g)
    ensures u.Minus(v).Dot(g) == u.Dot(g) - v.Dot(g)
  {
  }

  lemma Polarise(uu: real, vv: real, uv: real, gg: real, ug: real, vg: real,
                 ss: real, sg: real, xx: real, yy: real, xy: real)
    requires ss == uu + 2.0 * uv + vv && sg == ug + vg
    requires xx == Mul(uu, gg) - Square(ug) && yy == Mul(vv, gg) - Square(vg)
    requires xx + 2.0 * xy + yy == Mul(ss, gg) - Square(sg)
    ensures xy == Mul(uv, gg) - Mul(ug, vg)
  {
    assert (uu + 2.0 * uv + vv) * gg == uu * gg + 2.0 * (uv * gg) + vv * gg;
    assert (ug + vg) * (ug + vg) == ug * ug + 2.0 * (ug * vg) + vg * vg;
  }

  lemma CrossSwap(u: Vec, v: Vec, g: Vec)
    ensures u.Dot(v.Cross(g)) + u.Cross(g).Dot(v) == 0.0
  {
  }

  /** For unit vectors with dot product `e`, the components of `g` along them cannot
      both be large: their product is at most half of (1 + |e|) |g|^2. */
  lemma ComponentProduct(u: Vec, v: Vec, g: Vec)
    requires u.LengthSquared() == 1.0 && v.LengthSquared() == 1.0
    ensures -Mul(1.0 - u.Dot(v), g.LengthSquared()) <= 2.0 * Mul(u.Dot(g), v.Dot(g))
    ensures 2.0 * Mul(u.Dot(g), v.Dot(g)) <= Mul(1.0 + u.Dot(v), g.LengthSquared())
  {
    SumLengthSquared(u, v);
    DifferenceLengthSquared(u, v);
    CauchySchwarz(u.Plus(v), g);
    CauchySchwarz(u.Minus(v), g);
    DotDistributes(u, v, g);
    QuarterSquares(u.Dot(g), v.Dot(g), u.Dot(v), g.LengthSquared(),
                   u.Plus(v).Dot(g), u.Minus(v).Dot(g), u.Plus(v).LengthSquared(), u.Minus(v).LengthSquared());
  }

  lemma QuarterSquares(p: real, q: real, e: real, gg: real, s: real, d: real, ss: real, dd: real)
    requires s == p + q && d == p - q && ss == 2.0 + 2.0 * e && dd == 2.0 - 2.0 * e
    requires Square(s) <= Mul(ss, gg) && Square(d) <= Mul(dd, gg)
    ensures -Mul(1.0 - e, gg) <= 2.0 * Mul(p, q) <= Mul(1.0 + e, gg)
  {
    assert 4.0 * (p * q) == s * s - d * d;
    SquareNonNegative(s);
    SquareNonNegative(d);
    assert ss * gg == 2.0 * ((1.0 + e) * gg);
    assert dd * gg == -2.0 * (-(1.0 - e) * gg);
  }

  /** The first-order step changes dot products by second-order terms only. */
  lemma RotatedDot(u: Vec, v: Vec, g: Vec)
    ensures u.Plus(u.Cross(g)).Dot(v.Plus(v.Cross(g)))
         == u.Dot(v) + (Mul(u.Dot(v), g.LengthSquared()) - Mul(u.Dot(g), v.Dot(g)))
  {
    var p, q := u.Cross(g), v.Cross(g);
    assert u.Plus(p).Dot(v.Plus(q)) == u.Dot(v) + p.Dot(q) by {
      DotOfSums(u, p, v, q);
      CrossSwap(u, v, g);
    }
    assert p.Dot(q) == Mul(u.Dot(v), g.LengthSquared()) - Mul(u.Dot(g), v.Dot(g)) by {
      BinetCauchy(u, v, g);
    }
  }

  lemma PlusRegroups(u: Vec, v: Vec, w: Vec)
    ensures u.Plus(v).Plus(w) == u.Plus(v.Plus(w))
  {
  }

  lemma NoDifferenceIsEqual(u: Vec, v: Vec)
    ensures u.Minus(v) == ZERO <==> u == v
  {
  }

  lemma MulAdds(n: real, x: real, y: real)
    ensures Mul(n, x + y) == Mul(n, x) + Mul(n, y)
  {
  }

  lemma SumOut(x: real, y: real, k: real)
    ensures Mul(x + y, k) == Mul(x, k) + Mul(y, k) && Mul(x - y, k) == Mul(x, k) - Mul(y, k)
  {
  }

  lemma QuotientOf(x: real, k: real)
    requires k > 0.0
    ensures Mul(x / k, k) == x
  {
  }

  // ---- triple products and combinations ---------------------------------

  lemma TripleProduct(u: Vec, v: Vec, w: Vec)
    ensures u.Cross(v.Cross(w)) == v.Times(u.Dot(w)).Minus(w.Times(u.Dot(v)))
  {
    hide Vec.Cross, Vec.Dot, Vec.Times, Vec.Minus, Mul;
    var n, d, e := v.Cross(w), u.Dot(w), u.Dot(v);
    CrossParts(v, w);
    CrossParts(u, n);
    DotParts(u, w);
    DotParts(u, v);
    TakeAwayParts(v, d, w, e);
    TripleComponent(u.x, u.y, u.z, v.x, v.y, v.z, w.x, w.y, w.z, n.y, n.z, d, e);
    TripleComponent(u.y, u.z, u.x, v.y, v.z, v.x, w.y, w.z, w.x, n.z, n.x, d, e);
    TripleComponent(u.z, u.x, u.y, v.z, v.x, v.y, w.z, w.x, w.y, n.x, n.y, d, e);
  }

  lemma DotParts(u: Vec, v: Vec)
    ensures u.Dot(v) == Mul(u.x, v.x) + Mul(u.y, v.y) + Mul(u.z, v.z)
  {
  }

  lemma TakeAwayParts(v: Vec, d: real, w: Vec, e: real)
    ensures v.Times(d).Minus(w.Times(e))
         == Vec(Mul(v.x, d) - Mul(w.x, e), Mul(v.y, d) - Mul(w.y, e), Mul(v.z, d) - Mul(w.z, e))
  {
    hide Vec.Times, Mul;
    TimesParts(v, d);
    TimesParts(w, e);
  }

  lemma TripleComponent(p: real, q: real, r: real, p': real, q': real, r': real, p'': real, q'': real, r'': real,
                        nq: real, nr: real, d: real, e: real)
    requires nq == Mul(r', p'') - Mul(p', r'') && nr == Mul(p', q'') - Mul(q', p'')
    requires d == Mul(p, p'') + Mul(q, q'') + Mul(r, r'') && e == Mul(p, p') + Mul(q, q') + Mul(r, r')
    ensures Mul(q, nr) - Mul(r, nq) == Mul(p', d) - Mul(p'', e)
  {
    assert q * nr == p' * (q * q'') - p'' * (q * q');
    assert r * nq == p'' * (r * r') - p' * (r * r'');
    assert p' * d == p' * (p * p'') + p' * (q * q'') + p' * (r * r'');
    assert p'' * e == p'' * (p * p') + p'' * (q * q') + p'' * (r * r');
    assert p' * (p * p'') == p'' * (p * p');
  }

  lemma CrossOpposite(u: Vec, v: Vec)
    ensures u.Cross(v) == ZERO.Minus(v.Cross(u))
  {
  }

  lemma DotOfCombination(w: Vec, a: Vec, x: real, b: Vec, y: real, c: Vec, z: real)
    ensures w.Dot(a.Times(x).Plus(b.Times(y)).Plus(c.Times(z)))
         == Mul(x, w.Dot(a)) + Mul(y, w.Dot(b)) + Mul(z, w.Dot(c))
  {
    hide Vec.Times, Vec.Dot, Vec.Plus;
    DotTimes(w, a, x);
    DotTimes(w, b, y);
    DotTimes(w, c, z);
    DotPlus(w, a.Times(x).Plus(b.Times(y)), c.Times(z));
    DotPlus(w, a.Times(x), b.Times(y));
  }

  lemma DotPlus(w: Vec, u: Vec, v: Vec)
    ensures w.Dot(u.Plus(v)) == w.Dot(u) + w.Dot(v)
  {
  }

  lemma TransposeIsCombination(r: Mat, v: Vec)
    ensures r.MulTranspose(v) == r.a.Times(v.x).Plus(r.b.Times(v.y)).Plus(r.c.Times(v.z))
  {
  }

  lemma CrossMoves(p: Vec, q: Vec, n: Vec)
    ensures p.Cross(q).Dot(n) == p.Dot(q.Cross(n))
  {
  }

  lemma RotatedRow(r: Vec, g: Vec, v: Vec)
    ensures r.Plus(r.Cross(g)).Dot(v) == r.Dot(v) + r.Dot(g.Cross(v))
  {
    hide Vec.Cross;
    DotDistributes(r, r.Cross(g), v);
    CrossMoves(r, g, v);
  }

  lemma MulTimes(r: Mat, v: Vec, k: real)
    ensures r.Mul(v.Times(k)) == r.Mul(v).Times(k)
  {
    hide Vec.Dot;
    DotTimes(r.a, v, k);
    DotTimes(r.b, v, k);
    DotTimes(r.c, v, k);
  }

  lemma MulSymmetric(x: real, y: real)
    ensures Mul(x, y) == Mul(y, x)
  {
  }

  lemma NoDifference(u: Vec, v: Vec)
    ensures u.Times(0.0).Minus(v.Times(0.0)) == ZERO && ZERO.LengthSquared() == 0.0
  {
  }

  lemma SameFactor(x: real, y: real, d: real)
    requires d > 0.0 && x * d == y * d
    ensures x == y
  {
    assert (x - y) * d == 0.0;
  }

  lemma DotCyclic(u: Vec, v: Vec, w: Vec)
    ensures u.Dot(v.Cross(w)) == v.Dot(w.Cross(u))
  {
  }

  lemma SwappedRows(a: Vec, b: Vec, c: Vec)
    ensures b.Dot(a.Cross(c)) == -a.Dot(b.Cross(c))
  {
  }

  lemma PlusRotates(u: Vec, v: Vec, w: Vec)
    ensures u.Plus(v).Plus(w) == v.Plus(w).Plus(u) && u.Plus(v).Plus(w) == w.Plus(u).Plus(v)
  {
  }

  lemma SquareIsMul(x: real)
    ensures Square(x) == Mul(x, x)
  {
  }

  lemma SumScaled(k: real, x: real, y: real)
    ensures Mul(1.0 + k, x + y) == x + y + Mul(k, x) + Mul(k, y)
  {
  }

  lemma PairProduct(x: real, y: real)
    ensures 0.0 <= Square(x) + Square(y) - 2.0 * Mul(x, y) && 0.0 <= Square(x) + Square(y) + 2.0 * Mul(x, y)
  {
    assert (x - y) * (x - y) == x * x + y * y - 2.0 * (x * y);
    assert (x + y) * (x + y) == x * x + y * y + 2.0 * (x * y);
    SquareNonNegative(x - y);
    SquareNonNegative(x + y);
  }

  lemma OneTimes(x: real)
    ensures Mul(1.0, x) == x
  {
  }

  lemma ScaledOrder(x: real, y: real, k: real)
    requires x <= y && 0.0 <= k
    ensures Mul(k, x) <= Mul(k, y)
  {
    ProductMonotone(x, y, k);
  }

  lemma WithinOne(x: real)
    requires Square(x) <= 1.0
    ensures x <= 1.0
  {
    SquareOrder(x, 1.0);
  }

  lemma Negated(x: real)
    ensures Square(-x) == Square(x)
  {
  }

  lemma NegativeFactor(c: real, l: real)
    ensures Mul(-c, l) == -Mul(c, l)
  {
  }

  lemma ZeroTimesAny(x: real)
    ensures Mul(0.0, x) == 0.0
  {
  }

  lemma SquareOfMul(c: real, l: real)
    ensures Square(Mul(c, l)) == Mul(Square(c), Square(l))
  {
  }

  lemma SquareReflects(x: real, y: real)
    requires 0.0 <= y && Square(x) < Square(y)
    ensures x < y
  {
    SquareOrder(x, y);
  }
}
