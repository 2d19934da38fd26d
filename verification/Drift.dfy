/** `DriftCorrector`: proportional and integral drift correction against gravity. */
module Drift {
  import opened Vectors
  import opened MathLibrary
  import opened Wrappers
  import opened GpsLag
  import opened MultiAccel

  const SPIN_RATE_LIMIT_DEG := 20.0
  const RP_P_MIN := 0.05
  const KI := 0.0087
  const BATCH_SECONDS := 5.0

  datatype DriftGains = DriftGains(kp: real, gpsGain: real, gyroDriftRate: real, fastGains: bool)

  datatype DriftInputs = DriftInputs(
    raSum: Vec, raDeltat: real, velocityDelta: Option<Vec>, dcmMatrix: Mat, omega: Vec,
    insHealthy: bool, usingGpsCorrections: bool, preselectedError: Option<MultiAccelSelection>)

  /** The `BadError` outcome needs a NaN or an infinity, which exact reals do not have. */
  datatype DriftOutcome = Corrected | NotEnoughData | NoUsableAcceleration

  datatype DriftState = DriftState(omegaP: Vec, omegaI: Vec, errorRp: real, omegaISum: Vec, omegaISumTime: real)

  const FRESH_DRIFT := DriftState(ZERO, ZERO, 0.0, ZERO, 0.0)

  // ---- specification ----------------------------------------------------

  function PGain(spinRate: real): real {
    if spinRate < Radians(50.0) then 1.0
    else if spinRate > Radians(500.0) then 10.0
    else spinRate / Radians(50.0)
  }

  function FlooredGain(kp: real, floor: real): (gain: real)
    ensures floor <= gain && kp <= gain && (gain == floor || gain == kp)
  {
    if kp < floor then floor else kp
  }

  /** One over the accumulated seconds and gravity: it turns acceleration summed over as many seconds
      into gravities. */
  function RaScale(deltat: real): real
    requires deltat > 0.0
  {
    1.0 / Mul(deltat, GRAVITY_MSS)
  }

  /** Gravity as it should look, tilted by the known velocity change; `None` when the two cancel. */
  function GravityReference(m: Libm, velocityDelta: Option<Vec>, scale: real): Option<Vec> {
    var down := Vec(0.0, 0.0, -1.0);
    if velocityDelta == None then Some(down) else m.Normalized(down.Plus(velocityDelta.value.Times(scale)))
  }

  /** Whether the gyros are slow enough for the integral term. */
  predicate Integrates(m: Libm, omega: Vec) {
    m.Length(omega) < Radians(SPIN_RATE_LIMIT_DEG)
  }

  /** The batch built up so far, clamped and moved into the bias estimate once it spans five seconds. */
  function Flushed(s: DriftState, rate: real): DriftState {
    if s.omegaISumTime < BATCH_SECONDS then s
    else
      var limit := Mul(rate, s.omegaISumTime);
      s.(omegaI := s.omegaI.Plus(Vec(ConstrainValue(s.omegaISum.x, -limit, limit),
                                     ConstrainValue(s.omegaISum.y, -limit, limit),
                                     ConstrainValue(s.omegaISum.z, -limit, limit))),
         omegaISum := ZERO, omegaISumTime := 0.0)
  }

  /** What an error in earth frame does to the corrector. */
  function Applied(m: Libm, s: DriftState, errorEf: Vec, bestError: real, inp: DriftInputs, gains: DriftGains)
    : DriftState
  {
    var error := if inp.insHealthy then inp.dcmMatrix.MulTranspose(errorEf) else ZERO;
    var pulled := s.(errorRp := 0.8 * s.errorRp + 0.2 * bestError,
                     omegaP := ProportionalTerm(m, error, inp.omega, gains));
    Flushed(Summed(pulled, m.Length(inp.omega), error, inp.raDeltat), gains.gyroDriftRate)
  }

  function ProportionalTerm(m: Libm, error: Vec, omega: Vec, gains: DriftGains): Vec {
    var term := error.Times(Mul(PGain(m.Length(omega)), FlooredGain(gains.kp, RP_P_MIN)));
    if gains.fastGains then term.Times(8.0) else term
  }

  /** The batch after one more error, if the gyros are slow enough. */
  function Summed(s: DriftState, spinRate: real, error: Vec, raDeltat: real): DriftState {
    if spinRate >= Radians(SPIN_RATE_LIMIT_DEG) then s
    else s.(omegaISum := s.omegaISum.Plus(error.Times(Mul(KI, raDeltat))),
            omegaISumTime := s.omegaISumTime + raDeltat)
  }

  /** What one cycle concludes before it touches the corrector: the outcome, the delay line
      afterwards, and the earth-frame error with its magnitude. */
  datatype Judgement = Judgement(outcome: DriftOutcome, buffer: Vec, errorEf: Vec, bestError: real)

  function Judged(m: Libm, inp: DriftInputs, gains: DriftGains, buffer: Vec): Judgement {
    if inp.raDeltat <= 0.0 then Judgement(NotEnoughData, buffer, ZERO, 0.0)
    else
      var scale := RaScale(inp.raDeltat);
      var gaE := GravityReference(m, inp.velocityDelta, Mul(gains.gpsGain, scale));
      if gaE == None then Judgement(NoUsableAcceleration, buffer, ZERO, 0.0)
      else
        var scaled := inp.raSum.Times(scale);
        var held := if inp.usingGpsCorrections then scaled else buffer;
        var gaB := Direction(m, if inp.usingGpsCorrections then Delayed(buffer, scaled) else scaled);
        if gaB == None then Judgement(NoUsableAcceleration, held, ZERO, 0.0)
        else if inp.preselectedError.Some? then
          Judgement(Corrected, held, inp.preselectedError.value.errorEf, inp.preselectedError.value.bestError)
        else
          Judgement(Corrected, held, gaB.value.Cross(gaE.value), ErrorMagnitude(m, gaB.value, gaE.value))
  }

  datatype Cycle = Cycle(state: DriftState, buffer: Vec, outcome: DriftOutcome)

  /** State, delay line and outcome after one correction cycle. */
  function Correction(m: Libm, s: DriftState, inp: DriftInputs, gains: DriftGains, buffer: Vec): Cycle {
    var j := Judged(m, inp, gains, buffer);
    Cycle(if j.outcome == Corrected then Applied(m, s, j.errorEf, j.bestError, inp, gains) else s, j.buffer, j.outcome)
  }

  // ---- the stateful form ------------------------------------------------

  class DriftCorrector {
    var omegaP: Vec
    var omegaI: Vec
    var errorRp: real
    var omegaISum: Vec
    var omegaISumTime: real

    function State(): DriftState
      reads this
    {
      DriftState(omegaP, omegaI, errorRp, omegaISum, omegaISumTime)
    }

    constructor ()
      ensures State() == FRESH_DRIFT
    {
      omegaP, omegaI, errorRp, omegaISum, omegaISumTime := ZERO, ZERO, 0.0, ZERO, 0.0;
    }

    method Correct(m: Libm, inp: DriftInputs, gains: DriftGains, gpsLag: GpsLagBuffer) returns (outcome: DriftOutcome)
      modifies this, gpsLag
      ensures Cycle(State(), gpsLag.raDelayBuffer, outcome)
           == Correction(m, old(State()), inp, gains, old(gpsLag.raDelayBuffer))
    {
      if inp.raDeltat <= 0.0 {
        return NotEnoughData;
      }
      var raScale := RaScale(inp.raDeltat);
      var gaE := Vec(0.0, 0.0, -1.0);
      if inp.velocityDelta.Some? {
        var normalized := m.Normalized(gaE.Plus(inp.velocityDelta.value.Times(Mul(gains.gpsGain, raScale))));
        if normalized == None {
          return NoUsableAcceleration;
        }
        gaE := normalized.value;
      }
      var gaB := inp.raSum.Times(raScale);
      if inp.usingGpsCorrections {
        gaB := gpsLag.RaDelayed(gaB);
      }
      var direction := if IsZeroVec(gaB) then None else m.Normalized(gaB);
      if direction == None {
        return NoUsableAcceleration;
      }
      var error := direction.value.Cross(gaE);
      var errorDirn := direction.value.Dot(gaE);
      var bestError := m.Length(error);
      if errorDirn < 0.0 {
        bestError := 1.0;
      }
      if inp.preselectedError.Some? {
        error := inp.preselectedError.value.errorEf;
        bestError := inp.preselectedError.value.bestError;
      }
      Apply(m, error, bestError, inp, gains);
      return Corrected;
    }

    /** The second half of `correct`, from the earth-frame error to the flushed batch. */
    method Apply(m: Libm, errorEf: Vec, bestError: real, inp: DriftInputs, gains: DriftGains)
      modifies this
      ensures State() == Applied(m, old(State()), errorEf, bestError, inp, gains)
    {
      var error := ZERO;
      if inp.insHealthy {
        error := inp.dcmMatrix.MulTranspose(errorEf);
      }
      errorRp := 0.8 * errorRp + 0.2 * bestError;
      var spinRate := m.Length(inp.omega);
      var kp := gains.kp;
      if gains.kp < RP_P_MIN {
        kp := RP_P_MIN;
      }
      omegaP := error.Times(Mul(PGain(spinRate), kp));
      if gains.fastGains {
        omegaP := omegaP.Times(8.0);
      }
      Integrate(spinRate, error, inp.raDeltat);
      FlushBatch(gains.gyroDriftRate);
    }

    /** The integral stage of `correct`, skipped above the spin limit. */
    method Integrate(spinRate: real, error: Vec, raDeltat: real)
      modifies this`omegaISum, this`omegaISumTime
      ensures State() == Summed(old(State()), spinRate, error, raDeltat)
    {
      if spinRate < Radians(SPIN_RATE_LIMIT_DEG) {
        omegaISum := omegaISum.Plus(error.Times(Mul(KI, raDeltat)));
        omegaISumTime := omegaISumTime + raDeltat;
      }
    }

    /** The last stage of `correct`: close a five-second batch. */
    method FlushBatch(gyroDriftRate: real)
      modifies this
      ensures State() == Flushed(old(State()), gyroDriftRate)
    {
      if omegaISumTime >= BATCH_SECONDS {
        var limit := Mul(gyroDriftRate, omegaISumTime);
        omegaISum := omegaISum.(x := ConstrainValue(omegaISum.x, -limit, limit));
        omegaISum := omegaISum.(y := ConstrainValue(omegaISum.y, -limit, limit));
        omegaISum := omegaISum.(z := ConstrainValue(omegaISum.z, -limit, limit));
        omegaI := omegaI.Plus(omegaISum);
        omegaISum := ZERO;
        omegaISumTime := 0.0;
      }
    }

    method AddYawIntegralZ(delta: real)
      modifies this`omegaISum
      ensures omegaISum == old(omegaISum).(z := old(omegaISum.z) + delta)
    {
      omegaISum := omegaISum.(z := omegaISum.z + delta);
    }
  }
}
