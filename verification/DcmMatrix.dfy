/** `Dcm`: the direction cosine matrix, its first-order integration and its renormalisation. */
module DcmMatrix {
  import opened Vectors
  import opened MathLibrary
  import opened Wrappers

  datatype MatrixHealth = Ok | NeedsReset

  /** The running sum of scale factors. Inverting a zero length drives the
      single-precision sum to infinity, where it stays. */
  datatype Tally = Finite(sum: real) | Infinite

  type u16 = n: nat | n < 65536

  datatype DcmState = DcmState(matrix: Mat, omega: Vec, renormValSum: Tally, renormValCount: u16)

  // ---- specification ----------------------------------------------------

  function Tallied(t: Tally, length: real): Tally {
    if length == 0.0 || t.Infinite? then Infinite else Finite(t.sum + 1.0 / length)
  }

  /** The lengths `renorm` accepts, as lengths rather than as scale factors. */
  predicate InBand(length: real) {
    0.000001 < length < 1000000.0
  }

  /** The rows `normalize` aims at, before they are scaled to unit length. */
  function Tilted(r: Mat): Mat {
    var half := 0.5 * r.a.Dot(r.b);
    var t0, t1 := r.a.Minus(r.b.Times(half)), r.b.Minus(r.a.Times(half));
    Mat(t0, t1, t0.Cross(t1))
  }

  /** How many leading rows have a length inside the band. */
  function RowsInBand(m: Libm, t: Mat): nat {
    if !InBand(m.Length(t.a)) then 0
    else if !InBand(m.Length(t.b)) then 1
    else if !InBand(m.Length(t.c)) then 2
    else 3
  }

  function Unit(m: Libm, v: Vec): Vec
    requires m.Length(v) != 0.0
  {
    v.Times(1.0 / m.Length(v))
  }

  /** State and verdict after `normalize`: the rows before the first bad one are
      replaced, and every row tried, good or bad, is counted. */
  function Normalization(m: Libm, s: DcmState): (DcmState, MatrixHealth) {
    var t := Tilted(s.matrix);
    var good := RowsInBand(m, t);
    var tried := if good == 3 then 3 else good + 1;
    var sum1 := Tallied(s.renormValSum, m.Length(t.a));
    var sum2 := if tried < 2 then sum1 else Tallied(sum1, m.Length(t.b));
    var sum3 := if tried < 3 then sum2 else Tallied(sum2, m.Length(t.c));
    (DcmState(Mat(if good >= 1 then Unit(m, t.a) else s.matrix.a,
                  if good >= 2 then Unit(m, t.b) else s.matrix.b,
                  if good >= 3 then Unit(m, t.c) else s.matrix.c),
              s.omega, sum3, (s.renormValCount + tried) % 65536),
     if good == 3 then Ok else NeedsReset)
  }

  /** State after `matrix_update`. */
  function Update(s: DcmState, deltaAngle: Option<(Vec, real)>, gyro: Vec,
                  omegaI: Vec, omegaP: Vec, omegaYawP: Vec): DcmState {
    s.(matrix := if deltaAngle.Some? && deltaAngle.value.1 > 0.0
                 then s.matrix.Rotate(RotationVector(deltaAngle.value.0, deltaAngle.value.1, omegaI, omegaP, omegaYawP))
                 else s.matrix,
       omega := gyro.Plus(omegaI))
  }

  /** The rotation one sample applies. */
  function RotationVector(angle: Vec, dt: real, omegaI: Vec, omegaP: Vec, omegaYawP: Vec): Vec
    requires dt > 0.0
  {
    angle.Over(dt).Plus(omegaI).Plus(omegaP).Plus(omegaYawP).Times(dt)
  }

  /** Verdict and state of `check_matrix`; exact reals carry no NaN. */
  function Checked(m: Libm, s: DcmState): (DcmState, MatrixHealth) {
    if -1.0 < s.matrix.c.x < 1.0 then (s, Ok) else Normalization(m, s)
  }

  // ---- the stateful form ------------------------------------------------

  class Dcm {
    var matrix: Mat
    var omega: Vec
    var renormValSum: Tally
    var renormValCount: u16

    function State(): DcmState
      reads this
    {
      DcmState(matrix, omega, renormValSum, renormValCount)
    }

    constructor ()
      ensures State() == DcmState(IDENTITY, ZERO, Finite(0.0), 0)
    {
      matrix, omega, renormValSum, renormValCount := IDENTITY, ZERO, Finite(0.0), 0;
    }

    method MatrixUpdate(deltaAngle: Option<(Vec, real)>, gyro: Vec, omegaI: Vec, omegaP: Vec, omegaYawP: Vec)
      modifies this
      ensures State() == Update(old(State()), deltaAngle, gyro, omegaI, omegaP, omegaYawP)
    {
      if deltaAngle.Some? {
        var (angle, dt) := deltaAngle.value;
        if dt > 0.0 {
          omega := angle.Over(dt);
          omega := omega.Plus(omegaI);
          matrix := matrix.Rotate(omega.Plus(omegaP).Plus(omegaYawP).Times(dt));
        }
      }
      omega := gyro.Plus(omegaI);
    }

    method Renorm(m: Libm, a: Vec) returns (row: Option<Vec>)
      modifies this`renormValSum, this`renormValCount
      ensures row == if InBand(m.Length(a)) then Some(Unit(m, a)) else None
      ensures renormValSum == Tallied(old(renormValSum), m.Length(a))
      ensures renormValCount == (old(renormValCount) + 1) % 65536
    {
      var length := m.Length(a);
      renormValSum := Tallied(renormValSum, length);
      renormValCount := (renormValCount + 1) % 65536;
      if length == 0.0 {
        return None;
      }
      var renormVal := 1.0 / length;
      BandInverse(length);
      if !(renormVal < 2.0 && renormVal > 0.5) && !(renormVal < 1000000.0 && renormVal > 0.000001) {
        return None;
      }
      return Some(a.Times(renormVal));
    }

    method Normalize(m: Libm) returns (health: MatrixHealth)
      modifies this
      ensures (State(), health) == Normalization(m, old(State()))
    {
      hide Vec.Dot, Vec.Cross, Vec.Times, Vec.Minus, InBand, Unit, Tallied, Libm.Length;
      var error := matrix.a.Dot(matrix.b);
      var t0 := matrix.a.Minus(matrix.b.Times(0.5 * error));
      var t1 := matrix.b.Minus(matrix.a.Times(0.5 * error));
      var t2 := t0.Cross(t1);
      assert Tilted(matrix) == Mat(t0, t1, t2);
      var a := Renorm(m, t0);
      if a == None {
        return NeedsReset;
      }
      matrix := matrix.(a := a.value);
      var b := Renorm(m, t1);
      if b == None {
        return NeedsReset;
      }
      matrix := matrix.(b := b.value);
      var c := Renorm(m, t2);
      if c == None {
        return NeedsReset;
      }
      matrix := matrix.(c := c.value);
      return Ok;
    }

    method CheckMatrix(m: Libm) returns (health: MatrixHealth)
      requires m.Lawful()
      modifies this
      ensures (State(), health) == Checked(m, old(State()))
      ensures health == Ok ==> -1.0 <= matrix.c.x <= 1.0
    {
      if matrix.c.x < 1.0 && matrix.c.x > -1.0 {
        return Ok;
      }
      ghost var before := State();
      var repaired := Normalize(m);
      if repaired == NeedsReset {
        return NeedsReset;
      }
      NormalizeGeometry(m, before);
      UnitComponents(matrix.c);
      if Abs(matrix.c.x) > 10.0 {
        return NeedsReset;
      }
      return Ok;
    }
  }

  lemma BandInverse(length: real)
    requires length != 0.0
    ensures InBand(length) <==> 0.000001 < 1.0 / length < 1000000.0
  {
    var v := 1.0 / length;
    assert v * length == 1.0;
    if length < 0.0 {
      if v > 0.0 { ProductPositive(v, -length); }
    } else {
      if v <= 0.0 { ProductMonotone(v, 0.0, length); }
      if length <= 0.000001 { ProductMonotone(length, 0.000001, v); }
      if length >= 1000000.0 { ProductMonotone(1000000.0, length, v); }
      if v <= 0.000001 { ProductMonotone(v, 0.000001, length); }
      if v >= 1000000.0 { ProductMonotone(1000000.0, v, length); }
    }
  }

  lemma UnitComponents(v: Vec)
    requires v.LengthSquared() == 1.0
    ensures -1.0 <= v.x <= 1.0 && -1.0 <= v.y <= 1.0 && -1.0 <= v.z <= 1.0
  {
    SphereBound(v.x, v.y, v.z);
    SphereBound(v.y, v.z, v.x);
    SphereBound(v.z, v.x, v.y);
  }

  lemma SphereBound(x: real, y: real, z: real)
    requires x * x + y * y + z * z == 1.0
    ensures -1.0 <= x <= 1.0
  {
    SquareNonNegative(y);
    SquareNonNegative(z);
    SquareOrder(x, 1.0);
  }

  // ---- geometry of a successful normalisation ---------------------------

  lemma UnitSpec(m: Libm, v: Vec)
    requires m.Lawful() && InBand(m.Length(v))
    ensures Unit(m, v).LengthSquared() == 1.0
  {
    LengthSpec(m, v);
    UnitRow(v, m.Length(v));
  }

  /** Whatever the input, even a reflection, an accepted normalisation leaves unit rows, a
      third row exactly perpendicular to the others, and a positive determinant. */
  lemma NormalizeGeometry(m: Libm, s: DcmState)
    requires m.Lawful() && Normalization(m, s).1 == Ok
    ensures var r := Normalization(m, s).0.matrix;
      && r.a.LengthSquared() == 1.0 && r.b.LengthSquared() == 1.0 && r.c.LengthSquared() == 1.0
      && r.a.Dot(r.c) == 0.0 && r.b.Dot(r.c) == 0.0
      && r.Det() > 0.0
  {
    var t, r := Tilted(s.matrix), Normalization(m, s).0.matrix;
    var p, q, l := 1.0 / m.Length(t.a), 1.0 / m.Length(t.b), m.Length(t.c);
    UnitSpec(m, t.a);
    UnitSpec(m, t.b);
    UnitSpec(m, t.c);
    CrossPerpendicular(t.a, t.b);
    DotScaled(t.a, p, t.c, 1.0 / l);
    DotScaled(t.b, q, t.c, 1.0 / l);
    assert r.Det() == (p * q) * l by {
      DetCyclic(r.a, r.b, r.c);
      CrossScaled(t.a, p, t.b, q);
      DotScaled(t.c, 1.0 / l, t.c, p * q);
      LengthSpec(m, t.c);
      Cancel(l, p * q);
    }
    ProductPositive(p, q);
    ProductPositive(p * q, l);
  }

  lemma Cancel(l: real, k: real)
    requires l > 0.0
    ensures (l * l) * ((1.0 / l) * k) == k * l
  {
    var i := 1.0 / l;
    assert i * l == 1.0;
    assert (l * l) * (i * k) == (i * l) * (k * l);
  }
}
