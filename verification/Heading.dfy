/** Why yaw correction works: turning the attitude by the yaw pull brings the horizontal field, or the
    nose, closer to where it should point. */
module Heading {
  import opened Vectors
  import opened MathLibrary
  import opened Wrappers
  import opened BodyFrame
  import opened Angles
  import opened YawDrift
  import DriftBounds

  // ---- horizontal directions --------------------------------------------

  /** How far a vector points along the heading with sine `s` and cosine `c`, and to its left. */
  function Along(v: Vec, s: real, c: real): real { Mul(v.x, c) + Mul(v.y, s) }

  function Aside(v: Vec, s: real, c: real): real { Mul(v.x, s) - Mul(v.y, c) }

  /** The turn from one horizontal vector to another, positive clockwise seen from above. */
  function Turn(u: Vec, v: Vec): real { Mul(u.x, v.y) - Mul(u.y, v.x) }

  /** `to` makes a smaller horizontal angle with the heading than `from` does. */
  predicate Closer(m: Libm, from: Vec, to: Vec, s: real, c: real) {
    Mul(Along(from, s, c), m.LengthXy(to)) < Mul(Along(to, s, c), m.LengthXy(from))
  }

  /** The same for a heading angle. */
  predicate CloserTo(m: Libm, from: Vec, to: Vec, heading: real) {
    Closer(m, from, to, m.sin(heading), m.cos(heading))
  }

  /** `from` lies beside the heading, and `to` not past it. */
  predicate BesideBoth(m: Libm, from: Vec, to: Vec, heading: real) {
    var (s, c) := (m.sin(heading), m.cos(heading));
    Aside(from, s, c) != 0.0 && Mul(Aside(from, s, c), Aside(to, s, c)) >= 0.0
  }

  lemma LengthXySpec(m: Libm, v: Vec)
    requires m.Lawful()
    ensures 0.0 <= m.LengthXy(v) && Square(m.LengthXy(v)) == Square(v.x) + Square(v.y)
  {
    hide Square;
    SquareNonNegative(v.x);
    SquareNonNegative(v.y);
    SqrtSpec(m, Square(v.x) + Square(v.y));
  }

  lemma HeadingParts(u: Vec, v: Vec, s: real, c: real)
    requires Square(s) + Square(c) == 1.0
    ensures Square(Along(u, s, c)) + Square(Aside(u, s, c)) == Square(u.x) + Square(u.y)
    ensures Turn(u, v) == Mul(Aside(u, s, c), Along(v, s, c)) - Mul(Along(u, s, c), Aside(v, s, c))
  {
    hide Along, Aside, Turn;
    assert Along(u, s, c) == u.x * c + u.y * s && Aside(u, s, c) == u.x * s - u.y * c by {
      PartsOf(u, s, c);
    }
    assert Along(v, s, c) == v.x * c + v.y * s && Aside(v, s, c) == v.x * s - v.y * c by {
      PartsOf(v, s, c);
    }
    assert Turn(u, v) == u.x * v.y - u.y * v.x by {
      TurnOf(u, v);
    }
    hide Square, Mul;
    PartSquares(u.x, u.y, s, c);
    PartTurn(u.x, u.y, v.x, v.y, s, c);
  }

  lemma PartsOf(u: Vec, s: real, c: real)
    ensures Along(u, s, c) == u.x * c + u.y * s && Aside(u, s, c) == u.x * s - u.y * c
  {
  }

  lemma TurnOf(u: Vec, v: Vec)
    ensures Turn(u, v) == u.x * v.y - u.y * v.x
  {
  }

  lemma PartSquares(x: real, y: real, s: real, c: real)
    requires Square(s) + Square(c) == 1.0
    ensures Square(x * c + y * s) + Square(x * s - y * c) == Square(x) + Square(y)
  {
    assert (x * c + y * s) * (x * c + y * s) + (x * s - y * c) * (x * s - y * c)
        == (x * x + y * y) * (s * s + c * c);
  }

  lemma PartTurn(x: real, y: real, x': real, y': real, s: real, c: real)
    requires Square(s) + Square(c) == 1.0
    ensures x * y' - y * x' == Mul(x * s - y * c, x' * c + y' * s) - Mul(x * c + y * s, x' * s - y' * c)
  {
    assert (x * s - y * c) * (x' * c + y' * s) - (x * c + y * s) * (x' * s - y' * c)
        == (x * y' - y * x') * (s * s + c * c);
  }

  /** For a vector beside the heading, and another that is not past it: the second is closer exactly
      when the turn is toward the heading. */
  lemma CloserIff(m: Libm, from: Vec, to: Vec, s: real, c: real)
    requires m.Lawful() && Square(s) + Square(c) == 1.0
    requires Aside(from, s, c) != 0.0 && Mul(Aside(from, s, c), Aside(to, s, c)) >= 0.0
    ensures Closer(m, from, to, s, c) <==> Mul(Aside(from, s, c), Turn(from, to)) > 0.0
  {
    hide Libm.LengthXy, Libm.Lawful, Along, Aside, Turn, Mul, Square;
    LengthXySpec(m, from);
    LengthXySpec(m, to);
    HeadingParts(from, to, s, c);
    HeadingParts(to, to, s, c);
    var p, q, p', q' := Along(from, s, c), Aside(from, s, c), Along(to, s, c), Aside(to, s, c);
    SameSide(q, q');
    if q > 0.0 {
      CosineOrder(p, q, m.LengthXy(from), p', q', m.LengthXy(to));
      SignOfProduct(q, Turn(from, to));
    } else {
      Mirrored(q, p');
      Mirrored(q', p);
      Negated(q);
      Negated(q');
      MulSymmetric(p, q');
      MulSymmetric(p, -q');
      CosineOrder(p, -q, m.LengthXy(from), p', -q', m.LengthXy(to));
      SignOfProduct(-q, -Turn(from, to));
      Mirrored(q, -Turn(from, to));
      MulSymmetric(q, Turn(from, to));
      MulSymmetric(q, -Turn(from, to));
      Mirrored(Turn(from, to), q);
    }
  }

  lemma SameSide(q: real, q': real)
    requires q != 0.0 && Mul(q, q') >= 0.0
    ensures q > 0.0 ==> q' >= 0.0
    ensures q < 0.0 ==> q' <= 0.0
  {
    if q' != 0.0 {
      ProductPositive(q, q');
    }
  }

  lemma SignOfProduct(q: real, w: real)
    requires q > 0.0
    ensures Mul(q, w) > 0.0 <==> w > 0.0
  {
    if w != 0.0 {
      ProductPositive(q, w);
    }
  }

  lemma Mirrored(q: real, p: real)
    ensures Mul(-q, p) == -Mul(q, p)
  {
  }

  /** Two vectors in one half-plane, given by their parts along and beside its edge: the one of
      greater cosine is the one of greater cotangent. */
  lemma CosineOrder(p: real, q: real, l: real, p': real, q': real, l': real)
    requires q > 0.0 && q' >= 0.0 && 0.0 <= l && 0.0 <= l'
    requires Square(l) == Square(p) + Square(q) && Square(l') == Square(p') + Square(q')
    ensures Mul(p, l') < Mul(p', l) <==> Mul(q, p') - Mul(p, q') > 0.0
  {
    hide Mul, Square;
    RootPositive(p, q, l);
    RootPositive(p', q', l');
    if p >= 0.0 && p' >= 0.0 {
      CosineOrderRight(p, q, l, p', q', l');
    } else if p < 0.0 && p' < 0.0 {
      Negated(p);
      Negated(p');
      CosineOrderRight(-p', q', l', -p, q, l);
      Mirrored(p', l);
      Mirrored(p, l');
      Mirrored(p, q');
      MulSymmetric(q, p');
      MulSymmetric(q', -p);
      Mirrored(p', q);
      MulSymmetric(-p', q);
      MulSymmetric(-p, q');
    } else if p < 0.0 {
      NonPositive(p, l');
      NonPositive(p, q');
      MulNonNegative(p', l);
      MulNonNegative(q, p');
      if p' > 0.0 {
        ProductPositive(p', l);
        ProductPositive(q, p');
      } else {
        MulSymmetric(p, 0.0);
        MulSymmetric(q, 0.0);
        ZeroTimesAny(p);
        ZeroTimesAny(q);
        ZeroTimesAny(l);
      }
    } else {
      NonPositive(p', l);
      MulNonNegative(p, l');
      MulNonNegative(p, q');
      NonPositive(p', q);
      MulSymmetric(q, p');
    }
  }

  lemma CosineOrderRight(p: real, q: real, l: real, p': real, q': real, l': real)
    requires 0.0 <= p && 0.0 <= q && 0.0 <= l && 0.0 <= p' && 0.0 <= q' && 0.0 <= l'
    requires Square(l) == Square(p) + Square(q) && Square(l') == Square(p') + Square(q')
    ensures Mul(p, l') < Mul(p', l) <==> Mul(q, p') - Mul(p, q') > 0.0
  {
    hide Mul, Square;
    SquareOfMul(p, l');
    SquareOfMul(p', l);
    SquareOfMul(p, q');
    SquareOfMul(p', q);
    CrossSquares(Square(p), Square(q), Square(p'), Square(q'));
    MulSymmetric(q, p');
    MulNonNegative(p, l');
    MulNonNegative(p', l);
    MulNonNegative(p, q');
    MulNonNegative(p', q);
    SquareOrderIff(Mul(p, l'), Mul(p', l));
    SquareOrderIff(Mul(p, q'), Mul(p', q));
  }

  lemma CrossSquares(pp: real, qq: real, pp': real, qq': real)
    ensures Mul(pp, pp' + qq') - Mul(pp', pp + qq) == Mul(pp, qq') - Mul(pp', qq)
  {
  }

  lemma SquareOrderIff(x: real, y: real)
    requires 0.0 <= x && 0.0 <= y
    ensures x < y <==> Square(x) < Square(y)
  {
    if x < y {
      AbsProduct(x, x, y, y);
      if Square(x) == Square(y) {
        SquareInjective(x, y);
      }
      SquareIsMul(x);
      SquareIsMul(y);
    } else {
      AbsProduct(y, y, x, x);
      SquareIsMul(x);
      SquareIsMul(y);
    }
  }

  lemma NonPositive(x: real, y: real)
    requires x < 0.0 && 0.0 <= y
    ensures Mul(x, y) <= 0.0 && (y > 0.0 ==> Mul(x, y) < 0.0)
  {
    if y > 0.0 {
      ProductPositive(x, y);
    }
  }

  lemma RootPositive(p: real, q: real, l: real)
    requires 0.0 <= l && Square(l) == Square(p) + Square(q)
    ensures l > 0.0 <==> p != 0.0 || q != 0.0
  {
    SquareNonNegative(p);
    SquareNonNegative(q);
    if p != 0.0 {
      ProductPositive(p, p);
    }
    if q != 0.0 {
      ProductPositive(q, q);
    }
    if l > 0.0 {
      ProductPositive(l, l);
    }
  }

  // ---- turning about the body's own vertical ----------------------------

  /** The direction in which a turn about the body's vertical axis moves a body vector. */
  function Sideways(v: Vec): Vec { Vec(-v.y, v.x, 0.0) }

  lemma SidewaysIsCross(v: Vec, g: real)
    ensures Vec(0.0, 0.0, g).Cross(v) == Sideways(v).Times(g)
  {
  }

  /** Where the attitude shows a body vector after a turn by `g` about the body's vertical axis. */
  lemma SwungImage(r: Mat, v: Vec, g: real)
    ensures r.Rotate(Vec(0.0, 0.0, g)).Mul(v) == r.Mul(v).Plus(r.Mul(Sideways(v)).Times(g))
  {
    hide Vec.Times, Vec.Plus, Vec.Cross, Mat.Rotate, Mat.Mul, Sideways;
    RotatedImage(r, Vec(0.0, 0.0, g), v);
    SidewaysIsCross(v, g);
    MulTimes(r, Sideways(v), g);
  }

  lemma SwungTurn(f: Vec, n: Vec, g: real)
    ensures Turn(f, f.Plus(n.Times(g))) == Mul(g, Turn(f, n))
  {
    hide Vec.Times, Mul;
    TimesParts(n, g);
    SwungScalar(f.x, f.y, n.x, n.y, g);
  }

  lemma SwungScalar(x: real, y: real, x': real, y': real, g: real)
    ensures Mul(x, y + Mul(y', g)) - Mul(y, x + Mul(x', g)) == Mul(g, Mul(x, y') - Mul(y, x'))
  {
    assert x * (y' * g) == g * (x * y') && y * (x' * g) == g * (y * x');
    assert x * (y + y' * g) == x * y + x * (y' * g) && y * (x + x' * g) == x * y + y * (x' * g);
  }

  /** The first two rows span the plane perpendicular to the third. */
  lemma ThirdRow(r: Mat)
    requires NormalRows(r)
    ensures r.a.Cross(r.b) == r.c.Times(r.Det())
  {
    hide Vec.Dot, Vec.Cross, Vec.Times, Vec.Minus;
    var n := r.a.Cross(r.b);
    DetCyclic(r.a, r.b, r.c);
    TripleProduct(r.c, r.a, r.b);
    DotSymmetric(r.c, r.a);
    DotSymmetric(r.c, r.b);
    NoDifference(r.a, r.b);
    TripleProduct(r.c, r.c, n);
    CrossOfNothing(r.c);
    TimesOne(n);
    NoDifferenceIsEqual(r.c.Times(r.c.Dot(n)), n);
  }

  lemma CrossOfNothing(u: Vec)
    ensures u.Cross(ZERO) == ZERO
  {
  }

  /** How fast the horizontal part of a shown vector turns: its share across the third row, less what
      its part along that row takes away. */
  function SwingRate(r: Mat, v: Vec): real {
    Mul(r.c.z, v.LengthSquared()) - Mul(v.z, r.c.Dot(v))
  }

  lemma SwingOfSideways(r: Mat, v: Vec)
    requires NormalRows(r)
    ensures Turn(r.Mul(v), r.Mul(Sideways(v))) == Mul(r.Det(), SwingRate(r, v))
  {
    hide Vec.Dot, Vec.Cross, Vec.Times, Mat.Det, NormalRows, Mul;
    var n := Sideways(v);
    BinetCross(r.a, r.b, v, n);
    ThirdRow(r);
    SidewaysArea(v);
    DotSymmetric(r.c.Times(r.Det()), v.Cross(n));
    DotTimes(v.Cross(n), r.c, r.Det());
    DotSymmetric(r.c, v.Cross(n));
    SwingParts(r.c, v);
  }

  lemma BinetCross(p: Vec, q: Vec, u: Vec, v: Vec)
    ensures p.Cross(q).Dot(u.Cross(v)) == Mul(p.Dot(u), q.Dot(v)) - Mul(q.Dot(u), p.Dot(v))
  {
    hide Vec.Times, Vec.Minus, Vec.Cross, Vec.Dot, Mul;
    CrossMoves(p, q, u.Cross(v));
    TripleProduct(q, u, v);
    DotSymmetric(p, u.Times(q.Dot(v)).Minus(v.Times(q.Dot(u))));
    DotDistributes(u.Times(q.Dot(v)), v.Times(q.Dot(u)), p);
    DotSymmetric(u.Times(q.Dot(v)), p);
    DotSymmetric(v.Times(q.Dot(u)), p);
    DotTimes(p, u, q.Dot(v));
    DotTimes(p, v, q.Dot(u));
    MulSymmetric(q.Dot(v), p.Dot(u));
  }

  lemma SidewaysArea(v: Vec)
    ensures v.Cross(Sideways(v)) == Vec(-Mul(v.z, v.x), -Mul(v.z, v.y), Mul(v.x, v.x) + Mul(v.y, v.y))
  {
  }

  lemma SwingParts(c: Vec, v: Vec)
    ensures c.Dot(Vec(-Mul(v.z, v.x), -Mul(v.z, v.y), Mul(v.x, v.x) + Mul(v.y, v.y)))
         == Mul(c.z, v.LengthSquared()) - Mul(v.z, c.Dot(v))
  {
    hide Vec.Dot, Mul;
    DotParts(c, Vec(-Mul(v.z, v.x), -Mul(v.z, v.y), Mul(v.x, v.x) + Mul(v.y, v.y)));
    DotParts(v, v);
    DotParts(c, v);
    SwingScalar(c.x, c.y, c.z, v.x, v.y, v.z);
  }

  lemma SwingScalar(p: real, q: real, r: real, x: real, y: real, z: real)
    ensures Mul(p, -Mul(z, x)) + Mul(q, -Mul(z, y)) + Mul(r, Mul(x, x) + Mul(y, y))
         == Mul(r, Mul(x, x) + Mul(y, y) + Mul(z, z)) - Mul(z, Mul(p, x) + Mul(q, y) + Mul(r, z))
  {
    assert p * -(z * x) == -(z * (p * x)) && q * -(z * y) == -(z * (q * y));
    assert z * (p * x + q * y + r * z) == z * (p * x) + z * (q * y) + r * (z * z);
    assert r * (x * x + y * y + z * z) == r * (x * x + y * y) + r * (z * z);
  }

  /** A turn by `g` about the body's vertical brings a shown vector closer to a heading, as long as it
      does not carry it past, exactly when `g` has the sign of the vector's side times its swing. */
  lemma SwungCloserIff(m: Libm, r: Mat, v: Vec, g: real, s: real, c: real)
    requires m.Lawful() && NormalRows(r) && Square(s) + Square(c) == 1.0
    requires var (from, to) := (r.Mul(v), r.Rotate(Vec(0.0, 0.0, g)).Mul(v));
      Aside(from, s, c) != 0.0 && Mul(Aside(from, s, c), Aside(to, s, c)) >= 0.0
    ensures Closer(m, r.Mul(v), r.Rotate(Vec(0.0, 0.0, g)).Mul(v), s, c)
      <==> Mul(Mul(Aside(r.Mul(v), s, c), g), SwingRate(r, v)) > 0.0
  {
    hide Libm.LengthXy, Libm.Lawful, Along, Aside, Turn, Mul, Square, SwingRate, NormalRows, Mat.Rotate, Mat.Mul,
      Mat.Det, Vec.Plus, Vec.Times;
    var from := r.Mul(v);
    SwungImage(r, v, g);
    CloserIff(m, from, r.Rotate(Vec(0.0, 0.0, g)).Mul(v), s, c);
    SwungTurn(from, r.Mul(Sideways(v)), g);
    SwingOfSideways(r, v);
    DetOfSkew(r);
    var q, w := Aside(from, s, c), SwingRate(r, v);
    MulAssociates(q, g, Mul(r.Det(), w));
    MulAssociates(Mul(q, g), r.Det(), w);
    MulSymmetric(Mul(q, g), r.Det());
    MulAssociates(r.Det(), Mul(q, g), w);
    SignOfProduct(r.Det(), Mul(Mul(q, g), w));
  }

  /** A turn is small enough not to carry a vector past the heading when it moves it aside by no more
      than it was aside. */
  lemma NotPast(r: Mat, v: Vec, g: real, s: real, c: real)
    requires Abs(Mul(g, Aside(r.Mul(Sideways(v)), s, c))) <= Abs(Aside(r.Mul(v), s, c))
    ensures Mul(Aside(r.Mul(v), s, c), Aside(r.Rotate(Vec(0.0, 0.0, g)).Mul(v), s, c)) >= 0.0
  {
    hide Mat.Rotate, Mat.Mul, Vec.Times, Vec.Plus, Aside, Mul;
    var f, n := r.Mul(v), r.Mul(Sideways(v));
    SwungImage(r, v, g);
    SwungAside(f, n, g, s, c);
    StillBeside(Aside(f, s, c), Mul(g, Aside(n, s, c)));
  }

  lemma SwungAside(f: Vec, n: Vec, g: real, s: real, c: real)
    ensures Aside(f.Plus(n.Times(g)), s, c) == Aside(f, s, c) + Mul(g, Aside(n, s, c))
  {
    hide Vec.Times, Mul;
    TimesParts(n, g);
    AsideScalar(f.x, f.y, n.x, n.y, g, s, c);
  }

  lemma AsideScalar(x: real, y: real, x': real, y': real, g: real, s: real, c: real)
    ensures Mul(x + Mul(x', g), s) - Mul(y + Mul(y', g), c)
         == Mul(x, s) - Mul(y, c) + Mul(g, Mul(x', s) - Mul(y', c))
  {
    assert (x' * g) * s == g * (x' * s) && (y' * g) * c == g * (y' * c);
    assert (x + x' * g) * s == x * s + (x' * g) * s && (y + y' * g) * c == y * c + (y' * g) * c;
  }

  lemma StillBeside(q: real, d: real)
    requires Abs(d) <= Abs(q)
    ensures Mul(q, q + d) >= 0.0
  {
    if q >= 0.0 {
      MulNonNegative(q, q + d);
    } else {
      MulNonNegative(-q, -(q + d));
      assert Mul(-q, -(q + d)) == Mul(q, q + d);
    }
  }

  // ---- the pull of the corrector ----------------------------------------

  /** The factor from a vertical error to the yaw pull. */
  function YawPullGain(m: Libm, inp: YawDriftInputs, gains: YawDriftGains): real {
    Mul(Mul(Mul(Drift.PGain(m.Length(inp.omega)), Drift.FlooredGain(gains.kpYaw, YAW_P_MIN)),
            YawGain(inp.accelEfXyMag)),
        if gains.fastGains then 8.0 else 1.0)
  }

  lemma YawPullIsGain(m: Libm, errorZ: real, inp: YawDriftInputs, gains: YawDriftGains)
    ensures YawPull(m, errorZ, inp, gains) == Mul(errorZ, YawPullGain(m, inp, gains))
  {
    hide Drift.PGain, Drift.FlooredGain, YawGain, Libm.Length;
    YawGainScalar(errorZ, Drift.PGain(m.Length(inp.omega)), Drift.FlooredGain(gains.kpYaw, YAW_P_MIN),
                  YawGain(inp.accelEfXyMag));
  }

  lemma YawGainScalar(e: real, p: real, k: real, g: real)
    ensures Mul(Mul(Mul(e, p), k), g) * 8.0 == Mul(e, Mul(Mul(Mul(p, k), g), 8.0))
    ensures Mul(Mul(Mul(e, p), k), g) == Mul(e, Mul(Mul(Mul(p, k), g), 1.0))
  {
    var q := p * k;
    assert (e * p) * k == e * q && (e * q) * g == e * (q * g);
  }

  lemma YawPullGainPositive(m: Libm, inp: YawDriftInputs, gains: YawDriftGains)
    ensures YawPullGain(m, inp, gains) > 0.0
  {
    hide Drift.PGain, Libm.Length;
    var p, k := Drift.PGain(m.Length(inp.omega)), Drift.FlooredGain(gains.kpYaw, YAW_P_MIN);
    DriftBounds.PGainRange(m.Length(inp.omega));
    ProductPositive(p, k);
    ProductPositive(Mul(p, k), YawGain(inp.accelEfXyMag));
  }

  /** The turn one yaw error makes in `dt` seconds, at a positive gain. */
  function ErrorTurn(cz: real, error: real, gain: real, dt: real): real {
    Mul(Mul(Mul(cz, error), gain), dt)
  }

  /** An error that is the side of a shown vector in units of its length turns that vector toward the
      heading exactly when it swings the way the vertical part of the third row says. */
  lemma ErrorTurnsToward(m: Libm, r: Mat, v: Vec, error: real, length: real, gain: real, dt: real, s: real, c: real)
    requires m.Lawful() && NormalRows(r) && Square(s) + Square(c) == 1.0
    requires length > 0.0 && gain > 0.0 && dt > 0.0
    requires var (from, to) := (r.Mul(v), r.Rotate(Vec(0.0, 0.0, ErrorTurn(r.c.z, error, gain, dt))).Mul(v));
      && Mul(length, error) == Aside(from, s, c) != 0.0
      && Mul(Aside(from, s, c), Aside(to, s, c)) >= 0.0
    ensures Closer(m, r.Mul(v), r.Rotate(Vec(0.0, 0.0, ErrorTurn(r.c.z, error, gain, dt))).Mul(v), s, c)
      <==> Mul(r.c.z, SwingRate(r, v)) > 0.0
  {
    hide Libm.Lawful, NormalRows, Mat.Rotate, Mat.Mul, Aside, Along, Closer, SwingRate, ErrorTurn, Mul, Square;
    SwungCloserIff(m, r, v, ErrorTurn(r.c.z, error, gain, dt), s, c);
    TurnSign(r.c.z, error, length, gain, dt, Aside(r.Mul(v), s, c), SwingRate(r, v));
  }

  lemma TurnSign(z: real, e: real, l: real, gain: real, dt: real, q: real, w: real)
    requires l > 0.0 && gain > 0.0 && dt > 0.0 && Mul(l, e) == q != 0.0
    ensures Mul(Mul(q, ErrorTurn(z, e, gain, dt)), w) > 0.0 <==> Mul(z, w) > 0.0
  {
    var k := Mul(Mul(Mul(e, e), l), Mul(gain, dt));
    FactorNonZero(l, e);
    ProductPositive(e, e);
    ProductPositive(Mul(e, e), l);
    ProductPositive(gain, dt);
    ProductPositive(Mul(Mul(e, e), l), Mul(gain, dt));
    assert ((l * e) * (((z * e) * gain) * dt)) * w == k * (z * w) by {
      assert ((z * e) * gain) * dt == (z * e) * (gain * dt);
      assert (l * e) * ((z * e) * (gain * dt)) == z * (((e * e) * l) * (gain * dt));
    }
    SignOfProduct(k, Mul(z, w));
  }

  lemma FactorNonZero(l: real, e: real)
    requires Mul(l, e) != 0.0
    ensures e != 0.0
  {
  }

  /** The rotation a yaw pull makes in `dt` seconds. */
  lemma PullTurn(pull: real, dt: real)
    ensures Vec(0.0, 0.0, pull).Times(dt) == Vec(0.0, 0.0, Mul(pull, dt))
  {
  }

  /** The cycle corrects by the compass, or by GPS without asking for a hard reset, and leaves the pull
      its error earns. */
  lemma PullOfReference(m: Libm, s: YawState, inp: YawDriftInputs, gains: YawDriftGains, dt: real)
    requires !Calibrating(inp)
    requires var reference := Reference(m, s, inp);
      reference.ByCompass? || (reference.ByGps? && !reference.hardReset)
    ensures var (after, result) := YawCorrection(m, s, inp, gains);
      var error := Reference(m, s, inp).error;
      && result.outcome == Corrected && result.matrixAction == NoAction
      && after.omegaYawP.Times(dt) == Vec(0.0, 0.0, ErrorTurn(inp.dcmMatrix.c.z, error, YawPullGain(m, inp, gains), dt))
  {
    hide Vec.Times, Mul, YawPull, YawPullGain, YawIntegral, Reference, CompassVerdict;
    var errorZ := Mul(inp.dcmMatrix.c.z, Reference(m, s, inp).error);
    YawPullIsGain(m, errorZ, inp, gains);
    PullTurn(YawPull(m, errorZ, inp, gains), dt);
  }

  /** The horizontal field is long enough for the compass to be used. */
  predicate FieldUsable(field: Vec) {
    Square(field.x) + Square(field.y) >= FLT_EPSILON
  }

  lemma CompassErrorIsSide(m: Libm, r: Mat, mag: Vec, declination: real)
    requires m.Lawful() && FieldUsable(r.Mul(mag))
    ensures m.LengthXy(r.Mul(mag)) > 0.0
    ensures Mul(m.LengthXy(r.Mul(mag)), YawErrorCompass(m, r, mag, declination))
         == Aside(r.Mul(mag), m.sin(declination), m.cos(declination))
  {
    hide Vec.Dot, Square, Mul, Libm.Lawful, Libm.SafeSqrt;
    var f := r.Mul(mag);
    var l := m.LengthXy(f);
    LengthXySpec(m, f);
    LongEnough(l);
    SideScalar(f.x, f.y, l, m.sin(declination), m.cos(declination));
  }

  lemma LongEnough(l: real)
    requires 0.0 <= l && Square(l) >= FLT_EPSILON
    ensures !IsZero(l) && l > 0.0
  {
    if l < FLT_EPSILON {
      AbsProduct(l, l, FLT_EPSILON, FLT_EPSILON);
      assert Mul(FLT_EPSILON, FLT_EPSILON) < FLT_EPSILON;
      SquareIsMul(l);
    }
  }

  lemma SideScalar(x: real, y: real, l: real, s: real, c: real)
    requires l != 0.0
    ensures Mul(l, Mul(x / l, s) - Mul(y / l, c)) == Mul(x, s) - Mul(y, c)
  {
    var p, q := x / l, y / l;
    assert p * l == x && q * l == y;
    assert l * (p * s - q * c) == (p * l) * s - (q * l) * c;
  }

  /** A compass cycle turns the attitude toward north: rotating it by the pull the cycle leaves, for a
      time that does not carry the field past, brings the horizontal field it shows closer to the
      declination exactly when the vertical part of the third row and the swing of the field agree in
      sign. That holds on every level attitude (`LevelSwing`), not on every upright one (`SteepField`). */
  lemma CompassTurnsTowardIff(m: Libm, s: YawState, inp: YawDriftInputs, gains: YawDriftGains, dt: real)
    requires m.Lawful() && NormalRows(inp.dcmMatrix) && dt > 0.0
    requires !Calibrating(inp) && Reference(m, s, inp).ByCompass?
    requires FieldUsable(inp.dcmMatrix.Mul(inp.compass.value.magBody))
    requires var (r, compass) := (inp.dcmMatrix, inp.compass.value);
      var turned := r.Rotate(YawCorrection(m, s, inp, gains).0.omegaYawP.Times(dt));
      BesideBoth(m, r.Mul(compass.magBody), turned.Mul(compass.magBody), compass.declinationRad)
    ensures var (r, compass) := (inp.dcmMatrix, inp.compass.value);
      var turned := r.Rotate(YawCorrection(m, s, inp, gains).0.omegaYawP.Times(dt));
      CloserTo(m, r.Mul(compass.magBody), turned.Mul(compass.magBody), compass.declinationRad)
      <==> Mul(r.c.z, SwingRate(r, compass.magBody)) > 0.0
  {
    hide Libm.Lawful, NormalRows, Mat.Rotate, Mat.Mul, Aside, Along, Closer, SwingRate, ErrorTurn, Mul, Square,
      Vec.Times, YawCorrection, YawPullGain, YawErrorCompass, Libm.LengthXy, FieldUsable;
    var (r, compass) := (inp.dcmMatrix, inp.compass.value);
    PullOfReference(m, s, inp, gains, dt);
    YawPullGainPositive(m, inp, gains);
    CompassErrorIsSide(m, r, compass.magBody, compass.declinationRad);
    CircleAt(m, compass.declinationRad);
    ErrorTurnsToward(m, r, compass.magBody, Reference(m, s, inp).error, m.LengthXy(r.Mul(compass.magBody)),
                     YawPullGain(m, inp, gains), dt, m.sin(compass.declinationRad), m.cos(compass.declinationRad));
  }

  /** On a level attitude that is always so. */
  lemma LevelSwing(r: Mat, v: Vec)
    requires NormalRows(r) && r.c == Vec(0.0, 0.0, 1.0) && FieldUsable(r.Mul(v))
    ensures Mul(r.c.z, SwingRate(r, v)) > 0.0
  {
    hide FieldUsable, NormalRows, Mat.Mul, Square, Mul, Vec.Dot;
    LevelParts(r, v);
    DotParts(v, v);
    OneTimes(v.LengthSquared());
    OneTimes(SwingRate(r, v));
    SquareIsMul(v.x);
    SquareIsMul(v.y);
    SquareNonNegative(v.x);
    SquareNonNegative(v.y);
    if v.x != 0.0 {
      ProductPositive(v.x, v.x);
    } else if v.y != 0.0 {
      ProductPositive(v.y, v.y);
    } else {
      NoField(r, v);
      assert false;
    }
  }

  lemma LevelParts(r: Mat, v: Vec)
    requires NormalRows(r) && r.c == Vec(0.0, 0.0, 1.0)
    ensures r.a.z == 0.0 && r.b.z == 0.0 && r.c.Dot(v) == v.z
  {
    hide Vec.Dot, Mat.Det;
    VerticalPart(r.a);
    VerticalPart(r.b);
    VerticalPart(v);
  }

  lemma VerticalPart(v: Vec)
    ensures v.Dot(Vec(0.0, 0.0, 1.0)) == v.z && Vec(0.0, 0.0, 1.0).Dot(v) == v.z
  {
  }

  lemma NoField(r: Mat, v: Vec)
    requires r.a.z == 0.0 && r.b.z == 0.0 && v.x == 0.0 && v.y == 0.0
    ensures !FieldUsable(r.Mul(v))
  {
  }

  /** A GPS cycle turns the nose toward the course: rotating the attitude by the pull it leaves, for a
      time that does not carry the nose past, brings the nose closer to the GPS heading, whether the
      vehicle is upright or inverted, unless it lies exactly on its side. */
  lemma GpsTurnsTowardIff(m: Libm, s: YawState, inp: YawDriftInputs, gains: YawDriftGains, dt: real)
    requires m.Angular() && NormalRows(inp.dcmMatrix) && dt > 0.0
    requires !Calibrating(inp) && Reference(m, s, inp).ByGps? && !Reference(m, s, inp).hardReset
    requires inp.ctx.estimatedYawRad == m.ToEuler(inp.dcmMatrix).2
    requires var (r, nose) := (inp.dcmMatrix, Vec(1.0, 0.0, 0.0));
      var turned := r.Rotate(YawCorrection(m, s, inp, gains).0.omegaYawP.Times(dt));
      BesideBoth(m, r.Mul(nose), turned.Mul(nose), Radians(GpsHeading(inp.gps.value)))
    ensures var (r, nose) := (inp.dcmMatrix, Vec(1.0, 0.0, 0.0));
      var turned := r.Rotate(YawCorrection(m, s, inp, gains).0.omegaYawP.Times(dt));
      CloserTo(m, r.Mul(nose), turned.Mul(nose), Radians(GpsHeading(inp.gps.value))) <==> r.c.z != 0.0
  {
    hide Libm.Lawful, Libm.Angular, NormalRows, Mat.Rotate, Mat.Mul, Aside, Along, Closer, SwingRate, ErrorTurn, Mul,
      Square, Vec.Times, YawCorrection, YawPullGain, YawErrorGps, Libm.LengthXy, Libm.ToEuler, CompassVerdict,
      Radians;
    var (r, nose) := (inp.dcmMatrix, Vec(1.0, 0.0, 0.0));
    var heading := Radians(GpsHeading(inp.gps.value));
    PullOfReference(m, s, inp, gains, dt);
    YawPullGainPositive(m, inp, gains);
    GpsErrorIsSide(m, r, GpsHeading(inp.gps.value));
    AngularIsLawful(m, heading);
    NoseSwing(r);
    ErrorTurnsToward(m, r, nose, Reference(m, s, inp).error, m.LengthXy(r.Mul(nose)), YawPullGain(m, inp, gains), dt,
                     m.sin(heading), m.cos(heading));
  }

  lemma AngularIsLawful(m: Libm, x: real)
    requires m.Angular()
    ensures m.Lawful() && Square(m.sin(x)) + Square(m.cos(x)) == 1.0
  {
    assert m.CircleLaw(x);
  }

  lemma GpsErrorIsSide(m: Libm, r: Mat, courseDeg: real)
    requires m.Angular()
    ensures var (nose, heading) := (r.Mul(Vec(1.0, 0.0, 0.0)), Radians(courseDeg));
      && m.LengthXy(nose) >= 0.0
      && Mul(m.LengthXy(nose), YawErrorGps(m, courseDeg, m.ToEuler(r).2).0)
         == Aside(nose, m.sin(heading), m.cos(heading))
      && (m.LengthXy(nose) == 0.0 ==> Aside(nose, m.sin(heading), m.cos(heading)) == 0.0)
  {
    hide Vec.Dot, Square, Mul, Libm.LengthXy, Radians, WrapHalf, Libm.Lawful;
    var (nose, heading) := (r.Mul(Vec(1.0, 0.0, 0.0)), Radians(courseDeg));
    NoseParts(r);
    assert m.PolarLaw(nose);
    var yaw := m.ToEuler(r).2;
    AngularIsLawful(m, 0.0);
    LengthXySpec(m, nose);
    SineOfWrapped(m, heading - yaw);
    DifferenceLaw(m, heading, yaw);
    PolarSide(m.LengthXy(nose), m.sin(heading), m.cos(heading), m.sin(yaw), m.cos(yaw));
    ZeroTimesAny(m.sin(heading - yaw));
  }

  lemma NoseParts(r: Mat)
    ensures r.Mul(Vec(1.0, 0.0, 0.0)) == r.ColX() == Vec(r.a.x, r.b.x, r.c.x)
  {
  }

  lemma PolarSide(l: real, s: real, c: real, s': real, c': real)
    ensures Mul(l, Mul(s, c') - Mul(c, s')) == Mul(Mul(l, c'), s) - Mul(Mul(l, s'), c)
  {
    assert l * (s * c' - c * s') == (l * c') * s - (l * s') * c;
  }

  lemma NoseSwing(r: Mat)
    ensures SwingRate(r, Vec(1.0, 0.0, 0.0)) == r.c.z
    ensures Mul(r.c.z, r.c.z) > 0.0 <==> r.c.z != 0.0
  {
    if r.c.z != 0.0 {
      ProductPositive(r.c.z, r.c.z);
    }
  }

  /** What a correcting yaw cycle adds to the integral is the pull without its gain, over the seconds
      of the reference: the two have one sign. Across long gaps and fast spins it adds nothing. */
  lemma IntegralFollowsYawPull(m: Libm, s: YawState, inp: YawDriftInputs, gains: YawDriftGains)
    requires YawCorrection(m, s, inp, gains).1.outcome == Corrected
    ensures var (after, result) := YawCorrection(m, s, inp, gains);
      var deltat := Reference(m, s, inp).deltat;
      if deltat < 2.0 && m.Length(inp.omega) < Radians(20.0)
      then Mul(result.omegaIZ, YawPullGain(m, inp, gains)) == Mul(after.omegaYawP.z, Mul(KI_YAW, deltat))
      else result.omegaIZ == 0.0
  {
    hide Mul, YawPull, YawPullGain, Reference, CompassVerdict, Radians, Libm.Length;
    var reference := Reference(m, s, inp);
    var errorZ := Mul(inp.dcmMatrix.c.z, reference.error);
    YawPullIsGain(m, errorZ, inp, gains);
    ShareScalar(errorZ, reference.deltat, YawPullGain(m, inp, gains));
  }

  lemma ShareScalar(e: real, deltat: real, gain: real)
    ensures Mul(Mul(Mul(e, KI_YAW), deltat), gain) == Mul(Mul(e, gain), Mul(KI_YAW, deltat))
  {
    assert ((e * KI_YAW) * deltat) * gain == (e * gain) * (KI_YAW * deltat);
  }

  // ---- an upright attitude is not enough --------------------------------

  /** Pitched up by the angle whose sine is 3/5, in a field that dips steeply to the north-east. */
  const PITCHED := Mat(Vec(0.8, 0.0, 0.6), Vec(0.0, 1.0, 0.0), Vec(-0.6, 0.0, 0.8))

  const STEEP_FIELD := Vec(-1.6, 1.0, 3.8)

  /** There a compass cycle turns the field away from north, however short the time: the attitude is an
      upright rotation and the field is usable and off north, but the sign is wrong. */
  lemma SteepField()
    ensures NormalRows(PITCHED) && PITCHED.c.z > 0.0
    ensures FieldUsable(PITCHED.Mul(STEEP_FIELD)) && Aside(PITCHED.Mul(STEEP_FIELD), 0.0, 1.0) != 0.0
    ensures Mul(PITCHED.c.z, SwingRate(PITCHED, STEEP_FIELD)) < 0.0
  {
    hide NormalRows, Mat.Mul, SwingRate, Aside, RightHanded, FieldUsable, Mul;
    PitchedRotation();
    RotationIsNormal(PITCHED);
    SteepShown();
    SteepSwing();
  }

  /** And such cycles exist: a compass sample, without course or acceleration. */
  lemma SteepCycle(m: Libm)
    ensures var inp := YawDriftInputs(
        PITCHED, ZERO, 0.0, Some(YawCompassSample(STEEP_FIELD, 0.0, Some(0.1), false)), None, 0.0, 0.0,
        YawDriftContext(false, false, true, 0.0, 0.0, 0));
      !Calibrating(inp) && Reference(m, FRESH_YAW, inp).ByCompass?
  {
    hide YawErrorCompass;
  }

  lemma PitchedRotation()
    ensures RightHanded(PITCHED)
  {
  }

  lemma SteepShown()
    ensures PITCHED.Mul(STEEP_FIELD) == Vec(1.0, 1.0, 4.0)
    ensures FieldUsable(Vec(1.0, 1.0, 4.0)) && Aside(Vec(1.0, 1.0, 4.0), 0.0, 1.0) == -1.0
  {
    SteepUsable();
    hide Vec.Dot, FieldUsable, Aside;
    SteepRow(0.8, 0.0, 0.6);
    SteepRow(0.0, 1.0, 0.0);
    SteepRow(-0.6, 0.0, 0.8);
  }

  lemma SteepRow(x: real, y: real, z: real)
    ensures Vec(x, y, z).Dot(STEEP_FIELD) == y - 1.6 * x + 3.8 * z
  {
  }

  lemma SteepUsable()
    ensures FieldUsable(Vec(1.0, 1.0, 4.0)) && Aside(Vec(1.0, 1.0, 4.0), 0.0, 1.0) == -1.0
  {
  }

  lemma SteepSwing()
    ensures Mul(PITCHED.c.z, SwingRate(PITCHED, STEEP_FIELD)) < 0.0
  {
    assert STEEP_FIELD.LengthSquared() == 18.0;
    assert PITCHED.c.Dot(STEEP_FIELD) == 4.0;
  }
}
