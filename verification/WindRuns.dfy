/** What runs of wind estimation achieve: recovery of a constant wind, bounded growth, and a
    rate limit that survives the wrap of the millisecond clock. */
module WindRuns {
  import opened Vectors
  import opened MathLibrary
  import opened WindEstimation

  // ---- constant wind ----------------------------------------------------

  /** A velocity that is `speed` along the fuselage plus the wind `w`. */
  predicate Drifting(velocity: Vec, fuselage: Vec, speed: real, w: Vec) {
    velocity == fuselage.Times(speed).Plus(w)
  }

  /** A call made in wind `w` at true airspeed `speed`, with exact readings. */
  predicate ExactCall(inp: WindEstimateInputs, speed: real, w: Vec) {
    && Drifting(inp.velocity, inp.fuselageDirection, speed, w)
    && (inp.airspeedEas.Some? ==> Mul(inp.airspeedEas.value, inp.eas2tas) == speed)
  }

  /** The turning triangle solves for a constant wind exactly. */
  lemma TurningSampleExact(m: Libm, s: WindState, inp: WindEstimateInputs, speed: real, w: Vec)
    requires m.Lawful() && speed >= 0.0
    requires Drifting(inp.velocity, inp.fuselageDirection, speed, w) && Drifting(s.lastVel, s.lastFuse, speed, w)
    requires m.Length(inp.fuselageDirection.Minus(s.lastFuse)) > TURN_FUSE_DIFF_MIN
    ensures TurningSample(m, s, inp) == w
  {
    hide Triangle, Libm.Length;
    var fuseDiff, velDiff := inp.fuselageDirection.Minus(s.lastFuse), inp.velocity.Minus(s.lastVel);
    var fuseSum, velSum := inp.fuselageDirection.Plus(s.lastFuse), inp.velocity.Plus(s.lastVel);
    DriftDifference(inp.fuselageDirection, s.lastFuse, speed, w);
    DriftSum(inp.fuselageDirection, s.lastFuse, speed, w);
    ScaledLength(m, fuseDiff, speed);
    var l := m.Length(fuseDiff);
    QuotientOfProduct(speed, l);
    assert m.Length(velDiff) / l == speed;
    var theta := m.atan2(velDiff.y, velDiff.x) - m.atan2(fuseDiff.y, fuseDiff.x);
    if speed > 0.0 {
      assert m.DirectionLaw(fuseDiff, speed);
      assert theta == 0.0;
    }
    TriangleExact(speed, m.sin(theta), m.cos(theta), fuseSum, w);
  }

  lemma QuotientOfProduct(x: real, k: real)
    requires k != 0.0
    ensures Mul(x, k) / k == x
  {
  }

  lemma DriftDifference(f: Vec, f': Vec, speed: real, w: Vec)
    ensures f.Times(speed).Plus(w).Minus(f'.Times(speed).Plus(w)) == f.Minus(f').Times(speed)
  {
  }

  lemma DriftSum(f: Vec, f': Vec, speed: real, w: Vec)
    ensures f.Times(speed).Plus(w).Plus(f'.Times(speed).Plus(w)) == f.Plus(f').Times(speed).Plus(w.Plus(w))
  {
  }

  lemma TriangleExact(speed: real, sinTheta: real, cosTheta: real, fuseSum: Vec, w: Vec)
    requires speed == 0.0 || (sinTheta == 0.0 && cosTheta == 1.0)
    ensures Triangle(speed, sinTheta, cosTheta, fuseSum, fuseSum.Times(speed).Plus(w.Plus(w))) == w
  {
  }

  lemma StraightSampleExact(inp: WindEstimateInputs, speed: real, w: Vec)
    requires ExactCall(inp, speed, w) && inp.airspeedEas.Some?
    ensures StraightSample(inp) == w
  {
  }

  /** Blending an exact sample shrinks the error by exactly the kept share. */
  lemma BlendError(wind: Vec, w: Vec, keep: real, take: real)
    requires keep + take == 1.0
    ensures Blend(wind, keep, w, take).Minus(w) == wind.Minus(w).Times(keep)
  {
    hide Blend, Vec.Minus, Vec.Times, Mul;
    BlendParts(wind, keep, w, take);
    ShrunkParts(wind, w, keep);
    BlendComponent(wind.x, w.x, keep, take);
    BlendComponent(wind.y, w.y, keep, take);
    BlendComponent(wind.z, w.z, keep, take);
  }

  lemma BlendComponent(x: real, w: real, keep: real, take: real)
    requires keep + take == 1.0
    ensures Mul(x, keep) + Mul(w, take) - w == Mul(x - w, keep)
  {
    assert w * take == w * (1.0 - keep);
  }

  lemma BlendParts(v: Vec, keep: real, w: Vec, take: real)
    ensures Blend(v, keep, w, take).Minus(w)
         == Vec(Mul(v.x, keep) + Mul(w.x, take) - w.x, Mul(v.y, keep) + Mul(w.y, take) - w.y,
                Mul(v.z, keep) + Mul(w.z, take) - w.z)
  {
    hide Vec.Times, Mul;
    TimesParts(v, keep);
    TimesParts(w, take);
  }

  lemma ShrunkParts(v: Vec, w: Vec, keep: real)
    ensures v.Minus(w).Times(keep) == Vec(Mul(v.x - w.x, keep), Mul(v.y - w.y, keep), Mul(v.z - w.z, keep))
  {
    hide Vec.Times, Mul;
    TimesParts(v.Minus(w), keep);
  }

  /** The factor one call applies to the error of the estimate. */
  function Shrink(outcome: WindOutcome): real {
    match outcome
    case TurnBlended => 0.95
    case StraightBlended => 0.92
    case _ => 1.0
  }

  /** One call in constant wind: the error is scaled by exactly 0.95, 0.92 or 1, the stored pair
      stays consistent, and a turning sample is rejected exactly when the wind itself is at
      least the margin beyond the estimate. */
  lemma ConstantWindStep(m: Libm, s: WindState, inp: WindEstimateInputs, speed: real, w: Vec)
    requires m.Lawful() && speed >= 0.0
    requires ExactCall(inp, speed, w) && Drifting(s.lastVel, s.lastFuse, speed, w)
    ensures var (next, outcome) := Estimated(m, s, inp);
      && Drifting(next.lastVel, next.lastFuse, speed, w)
      && next.wind.Minus(w) == s.wind.Minus(w).Times(Shrink(outcome))
      && (outcome == TurnRejected ==> m.Length(w) >= m.Length(s.wind) + WIND_SPIKE_MARGIN_M_S)
      && (outcome == TurnBlended ==> m.Length(w) < m.Length(s.wind) + WIND_SPIKE_MARGIN_M_S)
  {
    hide Libm.Length, Libm.Lawful, TurningSample, StraightSample, Blend, Vec.Plus;
    TimesOne(s.wind.Minus(w));
    BlendError(s.wind, w, 0.95, 0.05);
    BlendError(s.wind, w, 0.92, 0.08);
    if inp.airspeedEas.Some? {
      StraightSampleExact(inp, speed, w);
    }
    if m.Length(inp.fuselageDirection.Minus(s.lastFuse)) > TURN_FUSE_DIFF_MIN {
      TurningSampleExact(m, s, inp, speed, w);
    }
  }

  /** The stored pair need not be consistent to begin with: any exact call that refreshes the wind
      time makes it so. */
  lemma RefreshPairs(m: Libm, s: WindState, inp: WindEstimateInputs, speed: real, w: Vec)
    requires ExactCall(inp, speed, w) && Refreshes(Estimated(m, s, inp).1)
    ensures var next := Estimated(m, s, inp).0;
      Drifting(next.lastVel, next.lastFuse, speed, w) && next.lastWindTimeMs == next.lastEstimateMs == inp.nowMs
  {
    hide Libm.Length, TurningSample, StraightSample, Blend, Vec.Plus, Vec.Times;
  }

  datatype WindLog = WindLog(state: WindState, turns: nat, straights: nat, rejected: nat)

  /** The state after a run of calls, with how many were blended each way and how many rejected. */
  function WindRun(m: Libm, s: WindState, calls: seq<WindEstimateInputs>): WindLog
    decreases |calls|
  {
    if calls == [] then WindLog(s, 0, 0, 0)
    else
      var (next, outcome) := Estimated(m, s, calls[0]);
      var rest := WindRun(m, next, calls[1..]);
      WindLog(rest.state,
              rest.turns + if outcome == TurnBlended then 1 else 0,
              rest.straights + if outcome == StraightBlended then 1 else 0,
              rest.rejected + if outcome == TurnRejected then 1 else 0)
  }

  /** Wind recovery: over any run in constant wind the error of the estimate is the initial
      error times exactly 0.95 per turning blend and 0.92 per straight blend, and no turning
      sample is ever rejected if the wind is under the 20 m/s margin. */
  lemma {:induction false} WindRecovery(m: Libm, s: WindState, calls: seq<WindEstimateInputs>, speed: real, w: Vec)
    requires m.Lawful() && speed >= 0.0
    requires Drifting(s.lastVel, s.lastFuse, speed, w)
    requires forall i :: 0 <= i < |calls| ==> ExactCall(calls[i], speed, w)
    ensures var log := WindRun(m, s, calls);
      && log.state.wind.Minus(w) == s.wind.Minus(w).Times(Mul(Pow(0.95, log.turns), Pow(0.92, log.straights)))
      && Drifting(log.state.lastVel, log.state.lastFuse, speed, w)
      && (m.Length(w) < WIND_SPIKE_MARGIN_M_S ==> log.rejected == 0)
    decreases |calls|
  {
    hide Vec.Minus, Vec.Times, Vec.Plus, Vec.Dot, Estimated, Libm.Lawful, Libm.Length, ExactCall;
    var e := s.wind.Minus(w);
    if calls == [] {
      TimesOne(e);
    } else {
      var (next, outcome) := Estimated(m, s, calls[0]);
      var rest := WindRun(m, next, calls[1..]);
      ConstantWindStep(m, s, calls[0], speed, w);
      WindRecovery(m, next, calls[1..], speed, w);
      var p, q := Pow(0.95, rest.turns), Pow(0.92, rest.straights);
      TimesTwice(e, Shrink(outcome), Mul(p, q));
      MulRegroups(p, q);
      LengthSpec(m, s.wind);
    }
  }

  lemma MulRegroups(p: real, q: real)
    ensures Mul(0.95, Mul(p, q)) == Mul(Mul(0.95, p), q)
    ensures Mul(0.92, Mul(p, q)) == Mul(p, Mul(0.92, q))
    ensures Mul(1.0, Mul(p, q)) == Mul(p, q)
  {
  }

  lemma {:induction false} RunSplits(m: Libm, s: WindState, calls: seq<WindEstimateInputs>, k: nat)
    requires k <= |calls|
    ensures WindRun(m, s, calls).state == WindRun(m, WindRun(m, s, calls[..k]).state, calls[k..]).state
    decreases k
  {
    hide Estimated;
    if k == 0 {
      assert calls[..0] == [] && calls[0..] == calls;
    } else {
      assert calls[..k][0] == calls[0] && calls[..k][1..] == calls[1..][..k - 1] && calls[1..][k - 1..] == calls[k..];
      RunSplits(m, Estimated(m, s, calls[0]).0, calls[1..], k - 1);
    }
  }

  /** Recovery from any state and after any calls at all: if the calls from `k` on are exact and call `k`
      refreshes the wind time, then whatever wind that call leaves, the error shrinks from there as
      `WindRecovery` says. */
  lemma RecoveryAfterRefresh(m: Libm, s: WindState, calls: seq<WindEstimateInputs>, k: nat, speed: real, w: Vec)
    requires m.Lawful() && speed >= 0.0 && k < |calls|
    requires forall i :: k <= i < |calls| ==> ExactCall(calls[i], speed, w)
    requires Refreshes(Estimated(m, WindRun(m, s, calls[..k]).state, calls[k]).1)
    ensures var start := Estimated(m, WindRun(m, s, calls[..k]).state, calls[k]).0;
      var log := WindRun(m, start, calls[k + 1..]);
      && WindRun(m, s, calls).state == log.state
      && log.state.wind.Minus(w) == start.wind.Minus(w).Times(Mul(Pow(0.95, log.turns), Pow(0.92, log.straights)))
      && (m.Length(w) < WIND_SPIKE_MARGIN_M_S ==> log.rejected == 0)
  {
    hide Vec.Minus, Vec.Times, Estimated, Libm.Lawful, Libm.Length, ExactCall, Drifting;
    var before := WindRun(m, s, calls[..k]).state;
    RunSplits(m, s, calls, k);
    RefreshPairs(m, before, calls[k], speed, w);
    assert calls[k..][0] == calls[k] && calls[k..][1..] == calls[k + 1..];
    WindRecovery(m, Estimated(m, before, calls[k]).0, calls[k + 1..], speed, w);
  }

  /** In particular from a new estimator, if its first call comes more than ten seconds after start-up:
      that call only restarts the turning state, so the error shrinks from the wind itself. */
  lemma FreshRecovery(m: Libm, calls: seq<WindEstimateInputs>, speed: real, w: Vec)
    requires m.Lawful() && speed >= 0.0 && calls != []
    requires forall i :: 0 <= i < |calls| ==> ExactCall(calls[i], speed, w)
    requires calls[0].enabled && calls[0].nowMs > TURN_STATE_TIMEOUT_MS
    ensures var log := WindRun(m, Estimated(m, CALM_WIND, calls[0]).0, calls[1..]);
      && WindRun(m, CALM_WIND, calls).state == log.state
      && log.state.wind.Minus(w) == ZERO.Minus(w).Times(Mul(Pow(0.95, log.turns), Pow(0.92, log.straights)))
      && (m.Length(w) < WIND_SPIKE_MARGIN_M_S ==> log.rejected == 0)
  {
    hide Vec.Minus, Vec.Times, Libm.Lawful, Libm.Length, ExactCall, TurningSample, StraightSample, Blend;
    assert calls[..0] == [] && calls[0 + 1..] == calls[1..];
    assert Estimated(m, CALM_WIND, calls[0]).1 == Restarted;
    RecoveryAfterRefresh(m, CALM_WIND, calls, 0, speed, w);
  }

  // ---- growth -----------------------------------------------------------

  /** An accepted turning sample raises the length of the estimate by less than one. */
  lemma TurningGrowth(m: Libm, s: WindState, inp: WindEstimateInputs)
    requires m.Lawful() && Estimated(m, s, inp).1 == TurnBlended
    ensures m.Length(Estimated(m, s, inp).0.wind) < m.Length(s.wind) + 1.0
  {
    hide Libm.Length, Libm.Lawful, TurningSample, StraightSample, Vec.Plus, Vec.Times;
    var sample := TurningSample(m, s, inp);
    TriangleInequality(m, s.wind.Times(0.95), sample.Times(0.05));
    ScaledLength(m, s.wind, 0.95);
    ScaledLength(m, sample, 0.05);
  }

  // ---- the clock --------------------------------------------------------

  /** An enabled call made at an unwrapped time. */
  datatype TimedCall = TimedCall(time: nat, inp: WindEstimateInputs)

  predicate OnClock(call: TimedCall) {
    call.inp.enabled && call.inp.nowMs == call.time % CLOCK
  }

  /** Unwrapped readings of the two stored times. */
  predicate Unwrapped(s: WindState, windTime: nat, estimateTime: nat) {
    && s.lastWindTimeMs == windTime % CLOCK && s.lastEstimateMs == estimateTime % CLOCK
    && windTime <= estimateTime
  }

  lemma WrappedElapsed(now: nat, before: nat)
    requires before <= now
    ensures WrappingSub(now % CLOCK, before % CLOCK) == (now - before) % CLOCK
    ensures WrappingSub(now % CLOCK, before % CLOCK) <= now - before
    ensures now - before < CLOCK ==> WrappingSub(now % CLOCK, before % CLOCK) == now - before
  {
    var p, q := now / CLOCK, before / CLOCK;
    assert now % CLOCK - before % CLOCK == now - before - CLOCK * (p - q);
    ModShift(now - before, p - q);
  }

  lemma ModShift(x: nat, k: int)
    ensures (x - CLOCK * k) % CLOCK == x % CLOCK
  {
    var d := x - CLOCK * k;
    assert x == CLOCK * (d / CLOCK + k) + d % CLOCK;
    QuotientUnique(x, d / CLOCK + k, d % CLOCK);
  }

  lemma QuotientUnique(x: int, q: int, r: int)
    requires x == CLOCK * q + r && 0 <= r < CLOCK
    ensures x % CLOCK == r
  {
  }

  predicate Refreshes(outcome: WindOutcome) {
    outcome == Restarted || outcome == TurnRejected || outcome == TurnBlended
  }

  /** The unwrapped times of the calls that pass the gate. */
  function PassTimes(m: Libm, s: WindState, calls: seq<TimedCall>): seq<nat>
    decreases |calls|
  {
    if calls == [] then []
    else
      var rest := PassTimes(m, Estimated(m, s, calls[0].inp).0, calls[1..]);
      if GatePasses(s, calls[0].inp) then [calls[0].time] + rest else rest
  }

  predicate Ordered(calls: seq<TimedCall>, from: nat) {
    (forall i :: 0 <= i < |calls| ==> OnClock(calls[i]) && from <= calls[i].time)
    && forall i, j :: 0 <= i < j < |calls| ==> calls[i].time <= calls[j].time
  }

  /** Rate limit: however often the 32-bit clock wraps, two calls that pass the gate are at least
      100 ms apart in real time, and the first is at least 100 ms after the stored estimate. */
  lemma {:induction false} GateSpacing(m: Libm, s: WindState, calls: seq<TimedCall>, estimateTime: nat)
    requires s.lastEstimateMs == estimateTime % CLOCK && Ordered(calls, estimateTime)
    ensures var times := PassTimes(m, s, calls);
      && (times != [] ==> times[0] >= estimateTime + MIN_ESTIMATE_INTERVAL_MS)
      && forall i :: 0 <= i < |times| - 1 ==> times[i + 1] >= times[i] + MIN_ESTIMATE_INTERVAL_MS
    decreases |calls|
  {
    hide TurningSample, Triangle, StraightSample, Blend, Libm.Length;
    if calls != [] {
      var call := calls[0];
      WrappedElapsed(call.time, estimateTime);
      var next := Estimated(m, s, call.inp).0;
      GateSpacing(m, next, calls[1..], if GatePasses(s, call.inp) then call.time else estimateTime);
    }
  }

  /** How many straight samples a run blends, and whether it never refreshes the wind time. */
  function Straights(m: Libm, s: WindState, calls: seq<TimedCall>): nat
    decreases |calls|
  {
    if calls == [] then 0
    else
      var (next, outcome) := Estimated(m, s, calls[0].inp);
      Straights(m, next, calls[1..]) + if outcome == StraightBlended then 1 else 0
  }

  predicate NeverRefreshes(m: Libm, s: WindState, calls: seq<TimedCall>)
    decreases |calls|
  {
    calls != [] ==>
      var (next, outcome) := Estimated(m, s, calls[0].inp);
      !Refreshes(outcome) && NeverRefreshes(m, next, calls[1..])
  }

  /** Successive calls are at most half a clock period apart. */
  predicate Frequent(calls: seq<TimedCall>, from: nat)
    decreases |calls|
  {
    calls != [] ==> from <= calls[0].time <= from + CLOCK / 2 && Frequent(calls[1..], calls[0].time)
  }

  /** Straight blends so far, read off the time of the last estimate: they start 2001 ms after
      the wind time and are 100 ms apart. */
  predicate Paced(straights: nat, windTime: nat, estimateTime: nat) {
    straights == 0 || 2001 + 100 * (straights - 1) <= estimateTime - windTime
  }

  lemma {:induction false} PacedRun(m: Libm, s: WindState, calls: seq<TimedCall>,
                                    windTime: nat, estimateTime: nat, lastCall: nat, straights: nat)
    requires Unwrapped(s, windTime, estimateTime) && estimateTime - windTime <= TURN_STATE_TIMEOUT_MS
    requires estimateTime <= lastCall <= estimateTime + MIN_ESTIMATE_INTERVAL_MS
    requires Frequent(calls, lastCall) && NeverRefreshes(m, s, calls)
    requires forall i :: 0 <= i < |calls| ==> OnClock(calls[i])
    requires Paced(straights, windTime, estimateTime)
    ensures straights + Straights(m, s, calls) <= 80
    decreases |calls|
  {
    hide TurningSample, Triangle, StraightSample, Blend, Libm.Length;
    if calls != [] {
      var call := calls[0];
      var (next, outcome) := Estimated(m, s, call.inp);
      WrappedElapsed(call.time, estimateTime);
      WrappedElapsed(call.time, windTime);
      if GatePasses(s, call.inp) {
        PacedRun(m, next, calls[1..], windTime, call.time, call.time,
                 straights + if outcome == StraightBlended then 1 else 0);
      } else {
        PacedRun(m, next, calls[1..], windTime, estimateTime, call.time, straights);
      }
    }
  }

  /** With calls at most half a clock period apart, at most 80 straight samples are blended
      before the wind time is refreshed, across any number of clock wraps. */
  lemma StraightBlendsBetweenRefreshes(m: Libm, s: WindState, calls: seq<TimedCall>, refreshTime: nat)
    requires s.lastWindTimeMs == s.lastEstimateMs == refreshTime % CLOCK
    requires Frequent(calls, refreshTime) && NeverRefreshes(m, s, calls)
    requires forall i :: 0 <= i < |calls| ==> OnClock(calls[i])
    ensures Straights(m, s, calls) <= 80
  {
    PacedRun(m, s, calls, refreshTime, refreshTime, refreshTime, 0);
  }
}
