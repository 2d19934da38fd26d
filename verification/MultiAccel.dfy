/** Choosing the accelerometer whose gravity error is smallest. */
module MultiAccel {
  import opened Vectors
  import opened MathLibrary
  import opened Wrappers
  import opened GpsLag
  import DcmLoop

  datatype MultiAccelSelection = MultiAccelSelection(errorEf: Vec, bestError: real, activeInstance: nat)

  // ---- specification ----------------------------------------------------

  /** The direction a measured vector points in, when it is usable at all. */
  function Direction(m: Libm, ga: Vec): Option<Vec> {
    if IsZeroVec(ga) then None else m.Normalized(ga)
  }

  /** The vector instance `i` is judged on, `None` when it is not healthy, and the delay
      line afterwards, once the instances below `n` have been visited in order. */
  function Measured(raSum: seq<Vec>, healthy: nat -> bool, raScale: real, usingGps: bool, buffer: Vec, n: nat)
    : (r: (seq<Option<Vec>>, Vec))
    requires n <= |raSum|
    ensures |r.0| == n
  {
    if n == 0 then ([], buffer)
    else
      var (seen, held) := Measured(raSum, healthy, raScale, usingGps, buffer, n - 1);
      if !healthy(n - 1) then (seen + [None], held)
      else
        var scaled := raSum[n - 1].Times(raScale);
        if usingGps then (seen + [Some(Delayed(held, scaled))], scaled)
        else (seen + [Some(scaled)], held)
  }

  /** The gravity error of a measurement, when it is usable. */
  function GravityError(m: Libm, measured: Option<Vec>, gaE: Vec): Option<Vec> {
    if measured == None then None
    else
      var direction := Direction(m, measured.value);
      if direction == None then None else Some(direction.value.Cross(gaE))
  }

  function ErrorLength(m: Libm, measured: Option<Vec>, gaE: Vec): real {
    var error := GravityError(m, measured, gaE);
    if error == None then 0.0 else m.Length(error.value)
  }

  /** The instance the scan settles on among the first `n`. */
  function Best(m: Libm, measured: seq<Option<Vec>>, gaE: Vec, n: nat): (best: Option<nat>)
    requires n <= |measured|
    ensures best.Some? ==> best.value < n
  {
    if n == 0 then None
    else
      var before := Best(m, measured, gaE, n - 1);
      if GravityError(m, measured[n - 1], gaE) == None then before
      else if before == None
              || ErrorLength(m, measured[n - 1], gaE) < ErrorLength(m, measured[before.value], gaE) then
        Some(n - 1)
      else before
  }

  /** The scan finds the usable instance of least error length, the lowest-numbered one on a
      tie, and finds nothing exactly when no instance is usable. */
  lemma {:induction false} BestIsArgmin(m: Libm, measured: seq<Option<Vec>>, gaE: Vec, n: nat)
    requires n <= |measured|
    ensures var best := Best(m, measured, gaE, n);
      && (best == None <==> forall i :: 0 <= i < n ==> GravityError(m, measured[i], gaE) == None)
      && (best.Some? ==> IsArgmin(m, measured, gaE, n, best.value))
  {
    hide GravityError, ErrorLength;
    if n == 0 {
    } else {
      BestIsArgmin(m, measured, gaE, n - 1);
    }
  }

  ghost predicate IsArgmin(m: Libm, measured: seq<Option<Vec>>, gaE: Vec, n: nat, best: nat)
    requires n <= |measured|
  {
    && best < n
    && GravityError(m, measured[best], gaE).Some?
    && forall i :: 0 <= i < n && GravityError(m, measured[i], gaE).Some? ==>
         && ErrorLength(m, measured[best], gaE) <= ErrorLength(m, measured[i], gaE)
         && (i < best ==> ErrorLength(m, measured[best], gaE) < ErrorLength(m, measured[i], gaE))
  }

  /** The error length a correction filters: 1 when the measurement points the wrong way. */
  function ErrorMagnitude(m: Libm, direction: Vec, gaE: Vec): real {
    if direction.Dot(gaE) < 0.0 then 1.0 else m.Length(direction.Cross(gaE))
  }

  /** The outcome of `select` on the measurements. */
  function Selection(m: Libm, measured: seq<Option<Vec>>, gaE: Vec): (selection: Option<MultiAccelSelection>)
    ensures selection.Some? ==> selection.value.activeInstance < |measured|
  {
    var best := Best(m, measured, gaE, |measured|);
    if best == None then None
    else
      BestIsArgmin(m, measured, gaE, |measured|);
      var direction := Direction(m, measured[best.value].value).value;
      Some(MultiAccelSelection(direction.Cross(gaE), ErrorMagnitude(m, direction, gaE), best.value))
  }

  /** Against a unit reference, a selected error is at most one long and so is its magnitude. */
  lemma SelectionBounded(m: Libm, measured: seq<Option<Vec>>, gaE: Vec)
    requires m.Lawful() && gaE.LengthSquared() == 1.0
    ensures var sel := Selection(m, measured, gaE);
      sel.Some? ==> sel.value.errorEf.LengthSquared() <= 1.0 && 0.0 <= sel.value.bestError <= 1.0
  {
    var best := Best(m, measured, gaE, |measured|);
    if best.Some? {
      BestIsArgmin(m, measured, gaE, |measured|);
      var ga := measured[best.value].value;
      NormalizedIsUnit(m, ga);
      UnitErrorBounded(m, Direction(m, ga).value, gaE);
    }
  }

  /** What the magnitude means for unit vectors: the sine of their angle up to a right angle, and one
      beyond. So it is zero only when they agree, and never falls as they part. */
  lemma MagnitudeMeans(m: Libm, direction: Vec, gaE: Vec)
    requires m.Lawful() && direction.LengthSquared() == 1.0 && gaE.LengthSquared() == 1.0
    ensures var (c, magnitude) := (direction.Dot(gaE), ErrorMagnitude(m, direction, gaE));
      && 0.0 <= magnitude
      && Square(magnitude) == (if c < 0.0 then 1.0 else 1.0 - Square(c))
      && (magnitude == 0.0 <==> direction == gaE)
  {
    hide Vec.Cross, Vec.Dot, Vec.LengthSquared, Vec.Minus, Libm.Length, Libm.Lawful, Square, Mul;
    var c := direction.Dot(gaE);
    Lagrange(direction, gaE);
    OneTimes(1.0);
    LengthSpec(m, direction.Cross(gaE));
    CauchySchwarz(direction, gaE);
    WithinUnit(c);
    DifferenceLengthSquared(direction, gaE);
    LengthSquaredNonNegative(direction.Minus(gaE));
    NoDifferenceIsEqual(direction, gaE);
    ZeroLength();
    OneIff(c);
    RootZero(m.Length(direction.Cross(gaE)));
  }

  lemma WithinUnit(c: real)
    requires Square(c) <= 1.0
    ensures -1.0 <= c <= 1.0 && Square(1.0) == 1.0
  {
    SquareOrder(c, 1.0);
  }

  lemma ZeroLength()
    ensures ZERO.LengthSquared() == 0.0
  {
  }

  lemma RootZero(x: real)
    ensures x == 0.0 <==> Square(x) == 0.0
  {
    if x != 0.0 {
      ProductPositive(x, x);
    }
  }

  lemma OneIff(c: real)
    requires -1.0 <= c <= 1.0
    ensures c >= 0.0 ==> (Square(c) == 1.0 <==> c == 1.0)
  {
    if c >= 0.0 && Square(c) == 1.0 {
      SquareInjective(c, 1.0);
    }
  }

  lemma MagnitudeGrows(m: Libm, direction: Vec, further: Vec, gaE: Vec)
    requires m.Lawful() && direction.LengthSquared() == 1.0 && further.LengthSquared() == 1.0
    requires gaE.LengthSquared() == 1.0 && further.Dot(gaE) <= direction.Dot(gaE)
    ensures ErrorMagnitude(m, direction, gaE) <= ErrorMagnitude(m, further, gaE)
  {
    hide ErrorMagnitude, Vec.Dot, Vec.LengthSquared;
    MagnitudeMeans(m, direction, gaE);
    MagnitudeMeans(m, further, gaE);
    var (c, c') := (direction.Dot(gaE), further.Dot(gaE));
    if 0.0 <= c' {
      AbsProduct(c', c', c, c);
      SquareIsMul(c);
      SquareIsMul(c');
    }
    SquareNonNegative(c);
    SquareOrder(ErrorMagnitude(m, direction, gaE), ErrorMagnitude(m, further, gaE));
  }

  lemma UnitErrorBounded(m: Libm, direction: Vec, gaE: Vec)
    requires m.Lawful() && direction.LengthSquared() == 1.0 && gaE.LengthSquared() == 1.0
    ensures direction.Cross(gaE).LengthSquared() <= 1.0
    ensures 0.0 <= ErrorMagnitude(m, direction, gaE) <= 1.0
  {
    Lagrange(direction, gaE);
    SquareNonNegative(direction.Dot(gaE));
    LengthSpec(m, direction.Cross(gaE));
    SquareOrder(m.Length(direction.Cross(gaE)), 1.0);
  }

  // ---- the stateful form ------------------------------------------------

  class MultiAccelAccumulator {
    const raSum: array<Vec>

    constructor ()
      ensures raSum.Length == DcmLoop.INS_MAX_INSTANCES && fresh(raSum)
      ensures forall i :: 0 <= i < raSum.Length ==> raSum[i] == ZERO
    {
      raSum := new Vec[DcmLoop.INS_MAX_INSTANCES](_ => ZERO);
    }

    method Reset()
      modifies raSum
      ensures forall i :: 0 <= i < raSum.Length ==> raSum[i] == ZERO
    {
      for i := 0 to raSum.Length
        invariant forall j :: 0 <= j < i ==> raSum[j] == ZERO
      {
        raSum[i] := ZERO;
      }
    }
  }

  method Select(m: Libm, raSum: seq<Vec>, accelCount: nat, accelHealthy: nat -> bool, gaE: Vec, raScale: real,
                usingGpsCorrections: bool, gpsLag: GpsLagBuffer)
    returns (selection: Option<MultiAccelSelection>)
    requires accelCount <= |raSum|
    modifies gpsLag
    ensures var (measured, held) :=
        Measured(raSum, accelHealthy, raScale, usingGpsCorrections, old(gpsLag.raDelayBuffer), accelCount);
      selection == Selection(m, measured, gaE) && gpsLag.raDelayBuffer == held
  {
    hide Vec.Dot, Vec.Cross, Vec.Times, Vec.Over, Libm.Length, Libm.Normalized, IsZeroVec;
    var besti: Option<nat> := None;
    var bestError := 0.0;
    var bestErrorEf := ZERO;
    var bestErrorDirn := 0.0;
    ghost var start := gpsLag.raDelayBuffer;
    ghost var seen: seq<Option<Vec>> := [];
    for i := 0 to accelCount
      invariant (seen, gpsLag.raDelayBuffer)
             == Measured(raSum, accelHealthy, raScale, usingGpsCorrections, start, i)
      invariant besti == Best(m, seen, gaE, i)
      invariant besti.Some? ==> HoldsBest(m, seen[besti.value], gaE, bestError, bestErrorEf, bestErrorDirn)
    {
      ghost var before := seen;
      seen := Measured(raSum, accelHealthy, raScale, usingGpsCorrections, start, i + 1).0;
      assert seen == before + [seen[i]];
      BestOfPrefix(m, seen, before, gaE, i);
      if !accelHealthy(i) {
        continue;
      }
      var gaB := raSum[i].Times(raScale);
      if usingGpsCorrections {
        gaB := gpsLag.RaDelayed(gaB);
      }
      var direction := if IsZeroVec(gaB) then None else m.Normalized(gaB);
      if direction == None {
        continue;
      }
      var errorEf := direction.value.Cross(gaE);
      var errorDirn := direction.value.Dot(gaE);
      var errorLength := m.Length(errorEf);
      if besti == None || errorLength < bestError {
        besti := Some(i);
        bestError := errorLength;
        bestErrorEf := errorEf;
        bestErrorDirn := errorDirn;
      }
    }
    if besti == None {
      return None;
    }
    if bestErrorDirn < 0.0 {
      bestError := 1.0;
    }
    return Some(MultiAccelSelection(bestErrorEf, bestError, besti.value));
  }

  /** The scan's running variables describe the measurement it currently favours. */
  ghost predicate HoldsBest(m: Libm, measured: Option<Vec>, gaE: Vec, error: real, errorEf: Vec, errorDirn: real) {
    && measured.Some? && Direction(m, measured.value).Some?
    && var direction := Direction(m, measured.value).value;
    && errorEf == direction.Cross(gaE) && errorDirn == direction.Dot(gaE) && error == m.Length(errorEf)
  }

  lemma BestOfPrefix(m: Libm, longer: seq<Option<Vec>>, shorter: seq<Option<Vec>>, gaE: Vec, n: nat)
    requires n <= |shorter| <= |longer| && longer[..|shorter|] == shorter
    ensures Best(m, longer, gaE, n) == Best(m, shorter, gaE, n)
  {
    if n == 0 {
    } else {
      BestOfPrefix(m, longer, shorter, gaE, n - 1);
      assert longer[n - 1] == shorter[n - 1];
    }
  }
}
