/** Angles: negation, whole turns, wrapping, and what the Euler angles of an attitude mean. */
module Angles {
  import opened Vectors
  import opened MathLibrary

  // ---- negation and whole turns -----------------------------------------

  lemma NegatedAngle(m: Libm, x: real)
    requires m.Angular()
    ensures m.sin(-x) == -m.sin(x) && m.cos(-x) == m.cos(x)
  {
    assert m.SumLaw(x, -x) && m.CircleLaw(x);
    assert x + -x == 0.0;
    InverseOf(m.sin(x), m.cos(x), m.sin(-x), m.cos(-x));
  }

  lemma InverseOf(s: real, c: real, s': real, c': real)
    requires Square(s) + Square(c) == 1.0
    requires Mul(s, c') + Mul(c, s') == 0.0 && Mul(c, c') - Mul(s, s') == 1.0
    ensures s' == -s && c' == c
  {
    assert s' == (s * s + c * c) * s' == c * (s * c' + c * s') - s * (c * c' - s * s');
    assert c' == (s * s + c * c) * c' == s * (s * c' + c * s') + c * (c * c' - s * s');
  }

  lemma DifferenceLaw(m: Libm, x: real, y: real)
    requires m.Angular()
    ensures m.sin(x - y) == Mul(m.sin(x), m.cos(y)) - Mul(m.cos(x), m.sin(y))
    ensures m.cos(x - y) == Mul(m.cos(x), m.cos(y)) + Mul(m.sin(x), m.sin(y))
  {
    hide Libm.Lawful;
    assert m.SumLaw(x, -y);
    assert x + -y == x - y;
    NegatedAngle(m, y);
    assert Mul(m.cos(x), -m.sin(y)) == -Mul(m.cos(x), m.sin(y));
    assert Mul(m.sin(x), -m.sin(y)) == -Mul(m.sin(x), m.sin(y));
  }

  /** A whole turn is nothing. */
  lemma OneTurn(m: Libm)
    requires m.Angular()
    ensures m.sin(2.0 * PI) == 0.0 && m.cos(2.0 * PI) == 1.0
  {
    assert m.CircleLaw(PI / 2.0);
    assert m.cos(PI / 2.0) == 0.0 by {
      SquareOrder(m.cos(PI / 2.0), 0.0);
    }
    assert m.SumLaw(PI / 2.0, PI / 2.0);
    assert PI / 2.0 + PI / 2.0 == PI;
    assert m.SumLaw(PI, PI);
    assert PI + PI == 2.0 * PI;
  }

  lemma {:induction false} WholeTurns(m: Libm, x: real, k: nat)
    requires m.Angular()
    ensures m.sin(x + 2.0 * PI * k as real) == m.sin(x) && m.cos(x + 2.0 * PI * k as real) == m.cos(x)
  {
    hide Libm.Lawful;
    if k == 0 {
      assert x + 2.0 * PI * 0.0 == x;
    } else {
      var y := x + 2.0 * PI * (k - 1) as real;
      WholeTurns(m, x, k - 1);
      OneTurn(m);
      assert m.SumLaw(y, 2.0 * PI);
      assert y + 2.0 * PI == x + 2.0 * PI * k as real;
    }
  }

  lemma SameTurn(m: Libm, x: real, k: int)
    requires m.Angular()
    ensures m.sin(x + 2.0 * PI * k as real) == m.sin(x) && m.cos(x + 2.0 * PI * k as real) == m.cos(x)
  {
    hide Libm.Angular;
    if k >= 0 {
      WholeTurns(m, x, k);
    } else {
      var y := x + 2.0 * PI * k as real;
      WholeTurns(m, y, -k);
      assert y + 2.0 * PI * (-k) as real == x;
    }
  }

  // ---- wrapping ---------------------------------------------------------

  /** Wrapping moves an angle by whole turns, into the half-open turn around zero. */
  lemma WrapHalfSpec(angle: real, half: real) returns (k: int)
    requires half > 0.0
    ensures WrapHalf(angle, half) == angle + 2.0 * half * k as real
    ensures -half < WrapHalf(angle, half) <= half
  {
    var turn := 2.0 * half;
    var j := FmodSpec(angle, turn);
    var wrapped := WrapTurn(angle, turn);
    k := j + (if Fmod(angle, turn) < 0.0 then 1 else 0) - (if wrapped > half then 1 else 0);
    assert turn * (j as real + 1.0) == turn * j as real + turn;
    assert turn * (j as real - 1.0) == turn * j as real - turn;
  }

  lemma FmodSpec(x: real, y: real) returns (k: int)
    requires y > 0.0
    ensures Fmod(x, y) == x + y * k as real && -y < Fmod(x, y) < y
    ensures x >= 0.0 ==> Fmod(x, y) >= 0.0
    ensures x <= 0.0 ==> Fmod(x, y) <= 0.0
  {
    var q := x / y;
    var whole := if q < 0.0 then -((-q).Floor) else q.Floor;
    k := -whole;
    QuotientOf(x, y);
    FractionTimes(q, whole as real, y);
    assert Fmod(x, y) == Mul(q - whole as real, y) == x + y * k as real;
    FractionBounds(q - whole as real, y);
    ProductSign(q, y);
  }

  lemma FractionTimes(q: real, w: real, y: real)
    ensures Mul(q - w, y) == Mul(q, y) - w * y
  {
  }

  lemma FractionBounds(f: real, y: real)
    requires -1.0 < f < 1.0 && y > 0.0
    ensures -y < Mul(f, y) < y && (f >= 0.0 ==> Mul(f, y) >= 0.0) && (f <= 0.0 ==> Mul(f, y) <= 0.0)
  {
    ProductPositive(1.0 - f, y);
    ProductPositive(1.0 + f, y);
    assert Mul(1.0 - f, y) == y - Mul(f, y) && Mul(1.0 + f, y) == y + Mul(f, y);
    if f >= 0.0 {
      MulNonNegative(f, y);
    } else {
      MulNonNegative(-f, y);
      assert Mul(-f, y) == -Mul(f, y);
    }
  }

  lemma ProductSign(q: real, y: real)
    requires y > 0.0
    ensures q < 0.0 <==> Mul(q, y) < 0.0
  {
    if q != 0.0 {
      ProductPositive(q, y);
    }
  }

  lemma SineOfWrapped(m: Libm, angle: real)
    requires m.Angular()
    ensures m.sin(WrapHalf(angle, PI)) == m.sin(angle)
  {
    hide Libm.Angular, WrapHalf;
    var k := WrapHalfSpec(angle, PI);
    SameTurn(m, angle, k);
  }

  /** Degrees and radians are inverse, and a whole turn is 360 of the one and two pi of the other. */
  lemma DegreesAndRadians(x: real)
    ensures Degrees(Radians(x)) == x && Radians(Degrees(x)) == x
    ensures Radians(360.0) == 2.0 * PI
  {
  }
}
