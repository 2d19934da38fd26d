/** `YawDriftCorrector`: yaw correction from the compass, falling back to GPS heading. */
module YawDrift {
  import opened Vectors
  import opened MathLibrary
  import opened Wrappers
  import opened WindEstimation
  import Drift

  const GPS_SPEED_MIN := 3.0
  const YAW_P_MIN := 0.05
  const KI_YAW := 0.01
  const YAW_P_DECAY := 0.97
  const STALE_HEADING_MS: nat := 2000

  datatype YawDriftGains = YawDriftGains(kpYaw: real, fastGains: bool)

  datatype YawCompassSample = YawCompassSample(
    magBody: Vec, declinationRad: real, updateIntervalS: Option<real>, calibrating: bool)

  datatype YawGpsSample = YawGpsSample(
    groundCourseDeg: real, groundSpeed: real, lastFixTimeMs: u32, gpsYawDeg: Option<real>)

  datatype YawDriftContext = YawDriftContext(
    flyForward: bool, haveGps: bool, compassUseForYaw: bool, estimatedYawRad: real, windSpeedXy: real, nowMs: u32)

  datatype YawDriftInputs = YawDriftInputs(
    dcmMatrix: Mat, omega: Vec, accelEfXyMag: real, compass: Option<YawCompassSample>, gps: Option<YawGpsSample>,
    rollRad: real, pitchRad: real, ctx: YawDriftContext)

  datatype YawDriftOutcome = Corrected | Decayed | Skipped

  datatype YawMatrixAction = NoAction | ResetAttitude(roll: real, pitch: real, yaw: real)

  datatype YawDriftResult = YawDriftResult(outcome: YawDriftOutcome, omegaIZ: real, matrixAction: YawMatrixAction)

  datatype YawState = YawState(
    omegaYawP: Vec, errorYaw: real, gpsLastUpdateMs: u32, lastConsistentHeadingMs: u32, haveInitialYaw: bool)

  const FRESH_YAW := YawState(ZERO, 0.0, 0, 0, false)

  // ---- specification ----------------------------------------------------

  function SaturatingSub(a: u32, b: u32): u32 { if a < b then 0 else a - b }

  /** Sine of the angle from the measured horizontal field to magnetic north; zero for a field
      with no usable horizontal part. */
  function YawErrorCompass(m: Libm, r: Mat, magBody: Vec, declinationRad: real): real {
    var x, y := r.a.Dot(magBody), r.b.Dot(magBody);
    var length := m.SafeSqrt(Square(x) + Square(y));
    if Square(x) + Square(y) < FLT_EPSILON || IsZero(length) then 0.0
    else
      assert length != 0.0;
      Mul(x / length, m.sin(declinationRad)) - Mul(y / length, m.cos(declinationRad))
  }

  /** Heading error against a GPS course: its sine, and the error itself in radians. */
  function YawErrorGps(m: Libm, courseDeg: real, yawRad: real): (real, real) {
    var error := WrapHalf(Radians(courseDeg) - yawRad, PI);
    (m.sin(error), error)
  }

  /** Whether this cycle compares the compass heading with the ground course at all. */
  predicate ComparesHeading(ctx: YawDriftContext, gps: Option<YawGpsSample>) {
    ctx.compassUseForYaw && ctx.flyForward && ctx.haveGps && gps.Some? && gps.value.groundSpeed >= GPS_SPEED_MIN
  }

  /** Heading and course agree, or the wind is strong enough to explain the difference. */
  predicate HeadingAgrees(ctx: YawDriftContext, gps: YawGpsSample) {
    || Abs(WrapHalf(Degrees(ctx.estimatedYawRad) - gps.groundCourseDeg, 180.0)) <= 45.0
    || ctx.windSpeedXy >= gps.groundSpeed * 0.8
  }

  /** The verdict of `use_compass`, and the time of the last agreement afterwards. */
  function CompassVerdict(last: u32, ctx: YawDriftContext, gps: Option<YawGpsSample>): (bool, u32) {
    if !ctx.compassUseForYaw then (false, last)
    else if !ComparesHeading(ctx, gps) then (true, last)
    else if HeadingAgrees(ctx, gps.value) then (true, ctx.nowMs)
    else (SaturatingSub(ctx.nowMs, last) <= STALE_HEADING_MS, last)
  }

  function YawGain(accelEfXyMag: real): real {
    if accelEfXyMag <= 4.0 then 0.2 * (4.5 - accelEfXyMag) else 0.1
  }

  /** The yaw reference one cycle found: its error, the seconds it covers, and the hard reset it
      asks for, if any. */
  datatype YawReference =
    | NoReference
    | ByCompass(error: real, deltat: real)
    | ByGps(error: real, deltat: real, headingRad: real, hardReset: bool)

  predicate HardReset(haveInitialYaw: bool, deltat: real, gps: YawGpsSample, errorRad: real) {
    || !haveInitialYaw
    || deltat > 20.0
    || (gps.gpsYawDeg.Some? && Abs(errorRad) >= 0.35)
    || (gps.groundSpeed >= 3.0 * GPS_SPEED_MIN && Abs(errorRad) >= 1.047)
  }

  function GpsHeading(gps: YawGpsSample): real {
    if gps.gpsYawDeg.Some? then gps.gpsYawDeg.value else gps.groundCourseDeg
  }

  function Reference(m: Libm, s: YawState, inp: YawDriftInputs): (reference: YawReference)
    ensures reference.ByCompass? ==> inp.compass.Some?
    ensures reference.ByGps? ==> inp.gps.Some?
  {
    if CompassVerdict(s.lastConsistentHeadingMs, inp.ctx, inp.gps).0 then
      if inp.compass.Some? && inp.compass.value.updateIntervalS.Some? then
        ByCompass(YawErrorCompass(m, inp.dcmMatrix, inp.compass.value.magBody, inp.compass.value.declinationRad),
                  inp.compass.value.updateIntervalS.value)
      else NoReference
    else if inp.ctx.flyForward && inp.ctx.haveGps && inp.gps.Some?
            && inp.gps.value.lastFixTimeMs != s.gpsLastUpdateMs
            && (inp.gps.value.gpsYawDeg.Some? || inp.gps.value.groundSpeed >= GPS_SPEED_MIN) then
      var gps := inp.gps.value;
      var deltat := SaturatingSub(gps.lastFixTimeMs, s.gpsLastUpdateMs) as real * 0.001;
      var (error, errorRad) := YawErrorGps(m, GpsHeading(gps), inp.ctx.estimatedYawRad);
      var hard := HardReset(s.haveInitialYaw, deltat, gps, errorRad);
      ByGps(if hard then 0.0 else error, deltat, Radians(GpsHeading(gps)), hard)
    else NoReference
  }

  /** The proportional term an error produces. */
  function YawPull(m: Libm, errorZ: real, inp: YawDriftInputs, gains: YawDriftGains): real {
    var pull := Mul(Mul(Mul(errorZ, Drift.PGain(m.Length(inp.omega))), Drift.FlooredGain(gains.kpYaw, YAW_P_MIN)),
                    YawGain(inp.accelEfXyMag));
    if gains.fastGains then pull * 8.0 else pull
  }

  /** The share of the integral an error earns: none across long gaps or fast spins. */
  function YawIntegral(m: Libm, errorZ: real, deltat: real, omega: Vec): real {
    if deltat < 2.0 && m.Length(omega) < Radians(Drift.SPIN_RATE_LIMIT_DEG)
    then Mul(Mul(errorZ, KI_YAW), deltat) else 0.0
  }

  predicate Calibrating(inp: YawDriftInputs) {
    inp.compass.Some? && inp.compass.value.calibrating
  }

  /** State and result of one `drift_correction_yaw` cycle. */
  function YawCorrection(m: Libm, s: YawState, inp: YawDriftInputs, gains: YawDriftGains): (YawState, YawDriftResult) {
    if Calibrating(inp) then (s, YawDriftResult(Skipped, 0.0, NoAction))
    else
      var checked := s.(lastConsistentHeadingMs := CompassVerdict(s.lastConsistentHeadingMs, inp.ctx, inp.gps).1);
      var reference := Reference(m, s, inp);
      if reference == NoReference then
        (checked.(omegaYawP := s.omegaYawP.Times(YAW_P_DECAY)), YawDriftResult(Decayed, 0.0, NoAction))
      else
        var errorZ := Mul(inp.dcmMatrix.c.z, reference.error);
        var hard := reference.ByGps? && reference.hardReset;
        (checked.(omegaYawP := Vec(0.0, 0.0, YawPull(m, errorZ, inp, gains)),
                  errorYaw := 0.8 * s.errorYaw + 0.2 * Abs(reference.error),
                  gpsLastUpdateMs := if inp.gps.Some? then inp.gps.value.lastFixTimeMs else s.gpsLastUpdateMs,
                  haveInitialYaw := s.haveInitialYaw || hard),
         YawDriftResult(Corrected,
                        YawIntegral(m, errorZ, reference.deltat, inp.omega),
                        if hard then ResetAttitude(inp.rollRad, inp.pitchRad, reference.headingRad) else NoAction))
  }

  // ---- the stateful form ------------------------------------------------

  class YawDriftCorrector {
    var omegaYawP: Vec
    var errorYaw: real
    var gpsLastUpdateMs: u32
    var lastConsistentHeadingMs: u32
    var haveInitialYaw: bool

    function State(): YawState
      reads this
    {
      YawState(omegaYawP, errorYaw, gpsLastUpdateMs, lastConsistentHeadingMs, haveInitialYaw)
    }

    constructor ()
      ensures State() == FRESH_YAW
    {
      omegaYawP, errorYaw, gpsLastUpdateMs, lastConsistentHeadingMs, haveInitialYaw := ZERO, 0.0, 0, 0, false;
    }

    method UseCompass(ctx: YawDriftContext, gps: Option<YawGpsSample>) returns (use: bool)
      modifies this`lastConsistentHeadingMs
      ensures (use, lastConsistentHeadingMs) == CompassVerdict(old(lastConsistentHeadingMs), ctx, gps)
    {
      if !ctx.compassUseForYaw {
        return false;
      }
      if !ctx.flyForward || !ctx.haveGps {
        return true;
      }
      if gps == None {
        return true;
      }
      if gps.value.groundSpeed < GPS_SPEED_MIN {
        return true;
      }
      var error := Abs(WrapHalf(Degrees(ctx.estimatedYawRad) - gps.value.groundCourseDeg, 180.0));
      if error > 45.0 && ctx.windSpeedXy < gps.value.groundSpeed * 0.8 {
        if SaturatingSub(ctx.nowMs, lastConsistentHeadingMs) > STALE_HEADING_MS {
          return false;
        }
      } else {
        lastConsistentHeadingMs := ctx.nowMs;
      }
      return true;
    }

    method DriftCorrectionYaw(m: Libm, inputs: YawDriftInputs, gains: YawDriftGains) returns (result: YawDriftResult)
      modifies this
      ensures (State(), result) == YawCorrection(m, old(State()), inputs, gains)
    {
      hide Mul, Vec.Times, Radians, YawPull, YawIntegral, YawErrorCompass, YawErrorGps, CompassVerdict;
      if inputs.compass.Some? && inputs.compass.value.calibrating {
        return YawDriftResult(Skipped, 0.0, NoAction);
      }
      var newValue := false;
      var yawError := 0.0;
      var yawDeltat := 0.0;
      var matrixAction := NoAction;

      var useCompass := UseCompass(inputs.ctx, inputs.gps);
      if useCompass {
        if inputs.compass.Some? && inputs.compass.value.updateIntervalS.Some? {
          var compass := inputs.compass.value;
          yawDeltat := compass.updateIntervalS.value;
          newValue := true;
          yawError := YawErrorCompass(m, inputs.dcmMatrix, compass.magBody, compass.declinationRad);
          if inputs.gps.Some? {
            gpsLastUpdateMs := inputs.gps.value.lastFixTimeMs;
          }
        }
      } else if inputs.ctx.flyForward && inputs.ctx.haveGps {
        if inputs.gps.Some? {
          var gps := inputs.gps.value;
          var headingDeg := if gps.gpsYawDeg.Some? then gps.gpsYawDeg.value else gps.groundCourseDeg;
          var haveDirectYaw := gps.gpsYawDeg.Some?;
          var speedOk := haveDirectYaw || gps.groundSpeed >= GPS_SPEED_MIN;
          if gps.lastFixTimeMs != gpsLastUpdateMs && speedOk {
            yawDeltat := SaturatingSub(gps.lastFixTimeMs, gpsLastUpdateMs) as real * 0.001;
            gpsLastUpdateMs := gps.lastFixTimeMs;
            newValue := true;
            var gpsCourseRad := Radians(headingDeg);
            var (error, yawErrorRad) := YawErrorGps(m, headingDeg, inputs.ctx.estimatedYawRad);
            var hardReset := !haveInitialYaw
              || yawDeltat > 20.0
              || (haveDirectYaw && Abs(yawErrorRad) >= 0.35)
              || (gps.groundSpeed >= 3.0 * GPS_SPEED_MIN && Abs(yawErrorRad) >= 1.047);
            if hardReset {
              matrixAction := ResetAttitude(inputs.rollRad, inputs.pitchRad, gpsCourseRad);
              omegaYawP := ZERO;
              haveInitialYaw := true;
              yawError := 0.0;
            } else {
              yawError := error;
            }
          }
        }
      }

      if !newValue {
        omegaYawP := omegaYawP.Times(YAW_P_DECAY);
        return YawDriftResult(Decayed, 0.0, NoAction);
      }

      var omegaIZ := ApplyReference(m, inputs, gains, yawError, yawDeltat);
      return YawDriftResult(Corrected, omegaIZ, matrixAction);
    }

    /** The second half of `drift_correction_yaw`, once a reference was found. */
    method ApplyReference(m: Libm, inputs: YawDriftInputs, gains: YawDriftGains, yawError: real, yawDeltat: real)
      returns (omegaIZ: real)
      modifies this`omegaYawP, this`errorYaw
      ensures var errorZ := Mul(inputs.dcmMatrix.c.z, yawError);
        && omegaYawP == Vec(0.0, 0.0, YawPull(m, errorZ, inputs, gains))
        && omegaIZ == YawIntegral(m, errorZ, yawDeltat, inputs.omega)
      ensures errorYaw == 0.8 * old(errorYaw) + 0.2 * Abs(yawError)
    {
      hide Mul, Radians, Libm.Length, Drift.PGain, YawGain;
      var errorZ := Mul(inputs.dcmMatrix.c.z, yawError);
      var spinRate := m.Length(inputs.omega);
      var kpYaw := gains.kpYaw;
      if gains.kpYaw < YAW_P_MIN {
        kpYaw := YAW_P_MIN;
      }
      var omegaYawPZ := Mul(Mul(Mul(errorZ, Drift.PGain(spinRate)), kpYaw), YawGain(inputs.accelEfXyMag));
      if gains.fastGains {
        omegaYawPZ := omegaYawPZ * 8.0;
      }
      omegaYawP := Vec(0.0, 0.0, omegaYawPZ);
      errorYaw := 0.8 * errorYaw + 0.2 * Abs(yawError);
      omegaIZ := 0.0;
      if yawDeltat < 2.0 && spinRate < Radians(Drift.SPIN_RATE_LIMIT_DEG) {
        omegaIZ := Mul(Mul(errorZ, KI_YAW), yawDeltat);
      }
    }
  }
}
