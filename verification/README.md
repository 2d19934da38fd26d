# The DCM attitude estimator, in exact arithmetic

This project models `crates/ap-ahrs`, the port of ArduPilot's fallback attitude estimator, and two
small tools of the repository, and proves properties of that model.

DCM carries the attitude as a 3x3 matrix. Every sensor sample rotates it to first order and then
renormalises it. A proportional and integral corrector compares the measured direction of gravity
with the expected one and feeds rates back into the next rotation; the integral part grows in clamped
five-second batches. A wind estimator, a choice among accelerometers, a one-sample delay line and a
yaw corrector supply its inputs, and `DcmDriftLoop` runs all of them, with a dead-reckoned position,
on every tick.

| module | models |
|---|---|
| `Vectors`, `MathLibrary`, `Angles`, `Wrappers` | ap-math's vectors, matrices, scalar helpers and angles |
| `DcmMatrix`, `Attitude` | the matrix, its renormalisation, what renormalisation achieves |
| `DcmLoop` | rotate-then-normalise steps and runs of them |
| `GpsLag`, `MultiAccel` | the delay line and the accelerometer selection |
| `Drift`, `DriftBounds`, `BiasRuns` | drift correction, its bounds, and which way it moves the bias |
| `WindEstimation`, `WindRuns`, `AirRuns` | wind estimation and what runs of it achieve, alone and in the loop |
| `YawDrift`, `YawRuns`, `Heading`, `ResetRuns` | yaw correction, its run properties, that it turns the right way, and what a hard reset leaves |
| `DeadReckoning`, `PositionRuns` | the offset since the last position fix, and how far off it runs |
| `DriftLoop`, `LoopRuns`, `SelectionRuns`, `SensorLoss`, `ClosedLoop` | the composed tick and runs of whole ticks |
| `BodyFrame`, `Alignment`, `Rates` | that the correction turns the attitude toward the reference, and reaches it on the next tick |
| `Centrifugal`, `SumRuns` | when a turn is kept from being read as an attitude error, in one attempt and over a whole wait |
| `Frames`, `Braces` | the conditional filter and brace matcher of `tools/parity/gen_frames.py` |
| `ReferenceCompare` | the circle distance and order statistics of `tools/sitl_diff/reference_compare.py` |

How it is laid out. The stateful structs are classes. Each method is proved equal to a function on
state values (`Normalization`, `Correction`, `Estimated`, `YawCorrection`, `Attempt`, `Step`, ...), so a
body that skipped or swapped a step would not meet its contract. The theorems are about those
functions and about runs of them, and pin their signs, factors and order in turn: what is corrected
moves toward what it should be, what is summed adds up, what is reset is reset to the angles read.

Arithmetic. Single-precision floats become exact reals; the repository states that bit-exact float
parity is not a goal (README.md:58-59). Epsilons, gains and thresholds are kept, millisecond clocks
are exact 32-bit numbers, wrapping in the wind code and saturating in the yaw code. Inverting a zero
length is the one infinity kept, in `DcmMatrix.Tally`.

Assumptions about libm. The elementary functions are a parameter, a `Libm` value. `Lawful` is
everything assumed of it: a real square root, sin^2 + cos^2 = 1, sin 0 = 0, cos 0 = 1, and `atan2`
depending on direction only. `Angular` adds, where angles are summed or read off vectors (`Heading` for
GPS courses, `ResetRuns`, `AirRuns` for a crab angle): the laws of sums, of polar coordinates and of the arc
sine, with the code's own pi for half a turn.

Where the code and its documentation part:

- `try_correct` is documented to reset its accumulator on success (dcm_drift_loop.rs:225-226). It also
  resets on the exit taken before the first velocity; `AttemptAccumulators` states every exit.
- A correction is meant to rest on an accelerometer. When none is usable, the delay line can still hand
  out an earlier cycle's vector, and the cycle counts as corrected: its sums and seconds are gone.
  `TickCorrectsWithoutSensorIff` gives the exact condition on the state and readings before the tick,
  `StarvingTick` what such a tick does (no pull, only the filtered error moves), `StaleVectorRun` a run
  from a new estimator that ends in one.
- The dead-reckoned offset is documented as integrated velocity. Each tick integrates over all seconds
  pending since the last correction (dcm_drift_loop.rs:220-221). `OffsetMatchesTickIff` says exactly when
  a tick moves the offset by velocity times its own interval: earlier seconds still pending, a second
  contributing accelerometer, or none, each make it miss. `WaitOvercounts` gives the total over a wait
  for a correction, `OutageRun` a run from a new estimator that flies two metres and records three.
- `ra_deltat` is documented as the seconds the accumulation covers (drift.rs:98). It grows once per
  contributing accelerometer, not once per tick (dcm_drift_loop.rs:147-167), so with n of them it is n
  times that, and the reference is tilted by an n-th of what was flown: a turn is read as an attitude
  error, which the correction exists to prevent (drift.rs:17-22). `AddsOwnIntervalIff` and
  `PendingSeconds` say how the seconds grow, `TurnReadIff` and `TurnPullsIff` exactly when a turn with
  exact readings leaves no error and no pull (`LevelTurnPullsIff` with the delay line), `WaitPullsIff` the
  same over every tick of a wait, and `TurnRun` a run in which one accelerometer leaves none and a second
  one that reads the same does.
- The compass correction is meant to turn the vehicle toward north. On a level attitude it always does
  (`LevelSwing`). On a tilted one in a steep field it can turn away, however upright: `CompassTurnsTowardIff`
  gives the exact condition on attitude and field, `SteepField` an instance. GPS corrections always turn the
  right way (`GpsTurnsTowardIff`).
- `check_matrix` accepts |c.x| up to 10 after a repair (lib.rs:212-214). Once the repair succeeds it is at
  most 1, so that test never decides (`Dcm.CheckMatrix`).
- `preprocess` resolves conditionals as a build does, but passes over `#elif`: `ElifIgnored`. Well-nested
  text in the sense of the theorems about it has none.

## Model

| member | source | states |
|---|---|---|
| ClosedLoop.ClosedLoopSafe | crates/ap-ahrs/src/dcm_drift_loop.rs:397-419 | For every run of full ticks whose measured turns leave room, up to gamma <= 1/2, for the corrections possible in the accumulated time: all matrix steps are accepted, skew stays under gamma^4, and bias, both proportional terms and both filtered errors stay in bounds together |
| ClosedLoop.StepSafe | crates/ap-ahrs/src/dcm_drift_loop.rs:397-419 | One full tick keeps the joint invariant of attitude, roll/pitch correction and yaw correction |
| ClosedLoop.FreshIsSafe | crates/ap-ahrs/src/dcm_drift_loop.rs:109-125 | A newly built estimator satisfies the joint invariant with nothing owed |
| ClosedLoop.TickTurn | crates/ap-ahrs/src/lib.rs:134-140 | The rotation of a tick is at most gamma when its measured turn plus every correction at its bound is |
| ClosedLoop.BiasWithinAccumulatedTime | crates/ap-ahrs/src/drift.rs:264-284 | Over any run of ticks, whatever the sensors read, each component of the bias is at most the drift rate times all time ever accumulated |
| ClosedLoop.AttemptPreselection | crates/ap-ahrs/src/dcm_drift_loop.rs:267-306 | When a cycle corrects, the error selected against the loop's own reference is at most one long |
| LoopRuns.TimeConsumedOnce | crates/ap-ahrs/src/dcm_drift_loop.rs:227-315 | Over any run: time added = time of corrected cycles + time discarded before the first velocity + pending time; nothing is corrected before a velocity is known, and nothing is discarded after |
| LoopRuns.AttemptAccumulators | crates/ap-ahrs/src/dcm_drift_loop.rs:238-314 | Which exits empty the accumulators and which leave them untouched, and that only an offered velocity initialises |
| LoopRuns.DuplicateCallsHarmless | crates/ap-ahrs/src/dcm_drift_loop.rs:246-247 | The second wind update and velocity resolution of a tick change nothing and return the same velocity |
| LoopRuns.EstimateIdempotent | crates/ap-ahrs/src/wind_estimation.rs:54-57 | Estimating twice at one instant is estimating once |
| PositionRuns.OffsetMatchesTickIff | crates/ap-ahrs/src/dcm_drift_loop.rs:213-223 | Without GPS the offset moves by velocity times all pending seconds; it moves by velocity times the interval of the tick iff these are equal (none pending counting as zero) or the velocity is vertical |
| PositionRuns.FixTaken | crates/ap-ahrs/src/dcm_drift_loop.rs:213-223 | A tick with a new fix stores that fix, latitude and longitude in place, with no offset |
| PositionRuns.WaitOvercounts | crates/ap-ahrs/src/dcm_drift_loop.rs:213-223 | Over n ticks that wait for a correction without GPS the offset moves 1 + 2 + ... + n times what one tick flies, not n times |
| PositionRuns.OutageRun | crates/ap-ahrs/src/dcm_drift_loop.rs:397-419 | A run from a new estimator whose second tick without GPS counts twice what it flies |
| Centrifugal.TurnReadIff | crates/ap-ahrs/src/drift.rs:203-236 | On exact readings over t seconds, without the delay line, the error vanishes iff the accumulated seconds are the GPS gain times t or the velocity change is vertical |
| Centrifugal.TurnPullsIff | crates/ap-ahrs/src/dcm_drift_loop.rs:253-306 | The same for the pull a whole attempt leaves, on whichever accelerometer it selected and any attitude a normalisation leaves |
| Centrifugal.LevelTurnPullsIff | crates/ap-ahrs/src/drift.rs:218-236 | With the delay line and one accelerometer, a level turn leaves no pull iff the velocity changed at the same rate in the cycle the line holds and in this one, the seconds taken at the GPS gain |
| Centrifugal.CompensatedOnlyByOne | crates/ap-ahrs/src/dcm_drift_loop.rs:147-167 | At unit GPS gain, n times the real seconds compensate a horizontal change iff n = 1 |
| Centrifugal.AddsOwnIntervalIff | crates/ap-ahrs/src/dcm_drift_loop.rs:147-167 | A tick adds its own interval iff that is zero or exactly one accelerometer contributes |
| Centrifugal.PendingSeconds | crates/ap-ahrs/src/dcm_drift_loop.rs:147-167 | Over ticks that wait with n contributors the pending seconds grow by n times the elapsed time |
| Centrifugal.TurnRun | crates/ap-ahrs/src/dcm_drift_loop.rs:397-419 | A run from a new estimator through an exact level turn: no pull with one accelerometer, a pull with two that agree |
| LoopRuns.VelocityRules | crates/ap-ahrs/src/dcm_drift_loop.rs:192-210 | When a tick offers a velocity, that it then has a lock or flies forward, and that its change is used iff centrifugal correction is on |
| LoopRuns.ChangeUsedIff | crates/ap-ahrs/src/dcm_drift_loop.rs:259-265 | A change of velocity is used iff it is asked for and there is a lock or forward flight, and it is the change since the last velocity |
| LoopRuns.RegainedLockSeesNoChange | crates/ap-ahrs/src/dcm_drift_loop.rs:198-200 | On the tick that regains GPS lock the velocity change is zero or absent |
| SelectionRuns.SelectsArgmin | crates/ap-ahrs/src/multi_accel.rs:57-93 | Without GPS corrections: the lowest-numbered usable instance of least error length, none exactly when none is usable |
| SelectionRuns.ActiveIsArgmin | crates/ap-ahrs/src/dcm_drift_loop.rs:288-293 | Without the delay line the recorded instance is the lowest-numbered usable one of least error, unchanged when none is usable |
| SelectionRuns.PreselectionAgrees | crates/ap-ahrs/src/drift.rs:226-236 | Without GPS corrections the preselected error gives the same outcome, state and delay line as recomputing it |
| SelectionRuns.OneCycleDelay | crates/ap-ahrs/src/gps_lag.rs:18-27 | Of any two GPS cycles of a run, each on one accelerometer of its own, with only ticks between them that wait for a fix or have lost GPS: the later is scored on the earlier one's vector and leaves its own in the line |
| SelectionRuns.QuietTick | crates/ap-ahrs/src/dcm_drift_loop.rs:238-244 | A tick that waits for a fix, or has no GPS, leaves the line alone, whether or not it corrects |
| SelectionRuns.GpsCycleDelay | crates/ap-ahrs/src/dcm_drift_loop.rs:278-306 | One cycle passes the line twice and still leaves it holding this cycle's vector, whatever the corrector concludes |
| SensorLoss.CorrectsWithoutSensorIff | crates/ap-ahrs/src/dcm_drift_loop.rs:288-306 | An attempt selects no accelerometer and still corrects iff none is usable, seconds are pending, GPS is in use, the line is not empty and the reference does not vanish |
| SensorLoss.TickCorrectsWithoutSensorIff | crates/ap-ahrs/src/dcm_drift_loop.rs:397-419 | The same for a whole tick, on the state and readings before it |
| SensorLoss.SensorlessCycle | crates/ap-ahrs/src/dcm_drift_loop.rs:288-314 | Such an attempt empties sums, seconds and line; with a counted primary it leaves no pull and feeds only the filtered error |
| SensorLoss.StarvingTick | crates/ap-ahrs/src/dcm_drift_loop.rs:397-419 | The same for a whole tick |
| SensorLoss.StaleVectorRun | crates/ap-ahrs/src/dcm_drift_loop.rs:278-314 | A run of four ticks from a new estimator that ends in such a tick, and its exact effect |
| SensorLoss.HeldVectorWasMeasured | crates/ap-ahrs/src/multi_accel.rs:57-93 | Over any run from a new estimator, a non-zero vector in the line implies that some cycle selected an accelerometer |
| SensorLoss.HeldIsScored | crates/ap-ahrs/src/multi_accel.rs:57-83 | A scan that leaves a non-zero vector in the line has scored an instance, unless none was usable and the line was left alone |
| Rates.CorrectionArrives | crates/ap-ahrs/src/dcm_drift_loop.rs:397-419 | After a healthy tick that corrects on a selected accelerometer and keeps its attitude, the attitude the next tick's update makes, when nothing else turns, carries the scored direction toward the reference |
| Rates.BiasCancelled | crates/ap-ahrs/src/lib.rs:134-140 | A sample measured at a rate less a bias, with that bias in the integral, turns the attitude at the true rate plus both pulls |
| Rates.PublishedRate | crates/ap-ahrs/src/lib.rs:143-145 | The published rate is the true one and leaves both pulls out |
| Rates.PullAlone | crates/ap-ahrs/src/lib.rs:134-140 | While the gyros measure the opposite of the other corrections, the attitude turns by one pull alone |
| Rates.NoSampleNoTurn | crates/ap-ahrs/src/lib.rs:134-140 | Without a sample, or over no time, the attitude does not turn |
| Rates.YawCorrectionArrives | crates/ap-ahrs/src/dcm_drift_loop.rs:397-419 | After a yaw cycle the next tick, when nothing else turns, carries the field toward north iff the stated sign is positive, or the nose toward the GPS heading iff the vehicle is not exactly on its side |
| Rates.TickYawKept | crates/ap-ahrs/src/dcm_drift_loop.rs:318-342 | A tick keeps its yaw cycle, judged on its own attitude and heading, and adds the share to the vertical integral |
| Rates.TickYawSees | crates/ap-ahrs/src/dcm_drift_loop.rs:318-342 | The acceleration and the wind that cycle is given are the horizontal parts of what attitude and estimate show |
| Alignment.TickTurnsToward | crates/ap-ahrs/src/dcm_drift_loop.rs:397-419 | Every tick of a safe run that corrects on a healthy, selected accelerometer leaves a pull that turns the attitude toward the reference of its attempt |
| Alignment.AttemptTurnsToward | crates/ap-ahrs/src/drift.rs:226-262 | The same for every attempt, on any attitude an accepted normalisation leaves, skew included: the scored direction moves in the plane of itself and the reference with the stated weights, and its angle shrinks while gain times time is at most one less the skew |
| Alignment.PullTurnsToward | crates/ap-ahrs/src/drift.rs:238-262 | The same for any error b x e |
| Alignment.TurnedBetween | crates/ap-math/src/matrix3.rs:240-261 | Exactly where a first-order rotation by a multiple of the error takes the direction, for any skew |
| Alignment.TurnedAlignment | crates/ap-math/src/matrix3.rs:240-261 | Without skew the agreement c gains exactly k (1 - c^2) |
| BodyFrame.UnmixedBounds | crates/ap-math/src/matrix3.rs:173-179 | Skew e changes agreement and length by factors within 1 -+ abs(e) only |
| BodyFrame.CrossInBody | crates/ap-math/src/matrix3.rs:173-179 | The cross product of two vectors taken to body frame comes back as theirs times the determinant, for any matrix |
| BodyFrame.DetOfSkew | crates/ap-ahrs/src/lib.rs:179-203 | After an accepted normalisation the squared determinant is one less the squared skew |
| Alignment.UnhealthyAttempt | crates/ap-ahrs/src/drift.rs:238-244 | An attempt with an unhealthy primary gyro or accelerometer leaves no pull |
| BiasRuns.IntegralFollowsPull | crates/ap-ahrs/src/drift.rs:264-270 | Below the spin limit a correction adds to the pending integral its pull without the gain, over its seconds: both point one way |
| BiasRuns.FastCycle | crates/ap-ahrs/src/drift.rs:264-270 | Above the spin limit the integral stands still |
| BiasRuns.OpenBatch | crates/ap-ahrs/src/drift.rs:264-303 | While a batch is open all shares are pending and the bias is untouched |
| BiasRuns.BatchMovesBias | crates/ap-ahrs/src/drift.rs:276-284 | Closing a batch moves each component of the bias by the sum of all its shares, or by as much of it as the drift rate allows in its seconds |
| BiasRuns.SharesAlong | crates/ap-ahrs/src/drift.rs:264-284 | If every pull of a batch points along a direction, so does what the batch adds |
| SumRuns.SumGrows | crates/ap-ahrs/src/dcm_drift_loop.rs:139-168 | Each sum grows on a tick by the velocity change its instance read, in earth frame, scaled from its own interval to the tick's |
| SumRuns.SumsAccumulate | crates/ap-ahrs/src/dcm_drift_loop.rs:139-168 | Over ticks that wait each sum ends at its start plus everything added |
| SumRuns.ExactAttempt | crates/ap-ahrs/src/dcm_drift_loop.rs:139-168 | Exact readings over a wait add up to the total change of velocity, less gravity over the elapsed time |
| SumRuns.WaitPullsIff | crates/ap-ahrs/src/dcm_drift_loop.rs:227-315 | A turn flown over a whole wait with n exact accelerometers leaves no pull iff n times the elapsed time is the GPS gain times it or the change was vertical |
| Attitude.NormalizeOutcomes | crates/ap-ahrs/src/lib.rs:155-203 | For any matrix: the exact acceptance condition, which rows are replaced and by what, and the wrapped row count |
| Attitude.TallyOfAccepted | crates/ap-ahrs/src/lib.rs:155-170 | An accepted normalisation adds to the statistics the three factors it scaled its rows by |
| Attitude.CheckLeaves | crates/ap-ahrs/src/lib.rs:215-230 | A check changes nothing while the nose is not vertical, and accepts only abs(c.x) <= 1 |
| DcmMatrix.NormalizeGeometry | crates/ap-ahrs/src/lib.rs:172-203 | An accepted result has unit rows, an exactly perpendicular third row and positive determinant, even from a reflection |
| Attitude.FixedPoints | crates/ap-ahrs/src/lib.rs:179-203 | Accepted and unchanged if and only if orthonormal with the third row the cross product of the first two |
| Attitude.UnitPairAcceptance | crates/ap-ahrs/src/lib.rs:155-203 | From unit rows with dot product e: accepted iff (1 - e^2/4)^2 (1 - e^2) > 1e-12 |
| Attitude.CubicStep | crates/ap-ahrs/src/lib.rs:179-203 | An accepted normalisation of unit rows turns their dot product e into exactly e^3 / (4 - 3 e^2) |
| Attitude.CubicConvergence | crates/ap-ahrs/src/lib.rs:179-203 | n normalisations are all accepted and leave at most abs(e) to the power 3^n |
| Attitude.AcceptedForever | crates/ap-ahrs/src/lib.rs:179-203 | Accepted for ever iff the first rebuilt third row is longer than a millionth |
| Attitude.TiltProducts | crates/ap-ahrs/src/lib.rs:180-184 | Lengths and products of the three corrected rows for any input matrix |
| DcmMatrix.Dcm.constructor | crates/ap-ahrs/src/lib.rs:95-103 | Identity attitude, no statistics |
| DcmMatrix.Dcm.MatrixUpdate | crates/ap-ahrs/src/lib.rs:126-146 | Rotates by the sample turn plus all corrections over its interval; the published rate excludes the proportional terms |
| DcmMatrix.Dcm.Renorm | crates/ap-ahrs/src/lib.rs:155-170 | The two scale-factor tests amount to one band on the length; sum and wrapping count always advance |
| DcmMatrix.Dcm.Normalize | crates/ap-ahrs/src/lib.rs:179-203 | State and verdict, with the short-circuit at the first bad row |
| DcmMatrix.Dcm.CheckMatrix | crates/ap-ahrs/src/lib.rs:215-230 | Repairs only when c.x is out of range; accepted means abs(c.x) <= 1 |
| DcmLoop.AttitudeRunSafe | crates/ap-ahrs/src/dcm_loop.rs:53-61 | Any run of steps turning at most gamma <= 1/2, with any number of Euler resets, is accepted at every step, keeps unit rows, a perpendicular third row and skew under gamma^4, and is never a reflection |
| DcmLoop.RotateThenNormalize | crates/ap-ahrs/src/dcm_loop.rs:53-61 | One such step |
| DcmLoop.RotatedPair | crates/ap-math/src/matrix3.rs:240-261 | What the first-order rotation does to row lengths and skew |
| DcmLoop.DcmMatrixUpdateFromIns | crates/ap-ahrs/src/dcm_loop.rs:33-49 | Samples with a non-positive interval are filtered out |
| DcmLoop.DcmMatrixStepFromIns | crates/ap-ahrs/src/dcm_loop.rs:53-61 | Update followed by normalisation |
| Vectors.RotatedDot | crates/ap-math/src/matrix3.rs:240-261 | The first-order rotation changes dot products by second-order terms only |
| MathLibrary.EulerIsRotation | crates/ap-math/src/matrix3.rs:195-214 | Building from Euler angles gives orthonormal rows, the third the cross product of the first two |
| Angles.WrapHalfSpec | crates/ap-math/src/scalar.rs:357-387 | Wrapping moves an angle by whole turns into the half-open turn around zero |
| Angles.DegreesAndRadians | crates/ap-math/src/scalar.rs:453-467 | The two conversions are inverse and agree on a whole turn |
| MathLibrary.LengthSpec | crates/ap-math/src/scalar.rs:505-507 | A length is the non-negative root of the squared length, zero only for the zero vector |
| MathLibrary.NormalizedIsUnit | crates/ap-math/src/vector3.rs:139-145 | A normalised vector has length exactly one |
| MathLibrary.NonZeroNormalizes | crates/ap-math/src/vector3.rs:252-254 | A vector not zero by the component test can be normalised |
| GpsLag.GpsLagBuffer.RaDelayed | crates/ap-ahrs/src/gps_lag.rs:18-27 | Hands out the held vector, or the new one while (epsilon) zero is held, and holds the new one |
| MultiAccel.MultiAccelAccumulator.Reset | crates/ap-ahrs/src/multi_accel.rs:22-26 | Every sum is zero afterwards |
| MultiAccel.Select | crates/ap-ahrs/src/multi_accel.rs:43-94 | The selection on the vectors the shared delay line hands out in order, and the line afterwards |
| MultiAccel.BestIsArgmin | crates/ap-ahrs/src/multi_accel.rs:57-83 | The scan finds the usable instance of least error length, lowest-numbered on a tie, and none exactly when none is usable |
| MultiAccel.MagnitudeMeans | crates/ap-ahrs/src/drift.rs:226-232 | The magnitude of an error is the sine of the angle up to a right angle and one beyond, and zero iff the directions agree |
| MultiAccel.MagnitudeGrows | crates/ap-ahrs/src/drift.rs:226-232 | It never falls as the directions part |
| MultiAccel.SelectionBounded | crates/ap-ahrs/src/multi_accel.rs:69-93 | Against a unit reference the selected error is at most one long and its magnitude lies in [0, 1] |
| Drift.DriftCorrector.Correct | crates/ap-ahrs/src/drift.rs:193-287 | State, delay line and outcome of a cycle on every exit |
| Drift.DriftCorrector.Apply | crates/ap-ahrs/src/drift.rs:238-284 | From the earth-frame error to the closed batch |
| Drift.DriftCorrector.Integrate | crates/ap-ahrs/src/drift.rs:267-270 | The integral stops accumulating above the spin limit |
| Drift.DriftCorrector.FlushBatch | crates/ap-ahrs/src/drift.rs:276-284 | Five-second batches are clamped by component and moved into the bias |
| Drift.DriftCorrector.AddYawIntegralZ | crates/ap-ahrs/src/drift.rs:301-303 | Only the pending vertical sum changes |
| DriftBounds.BiasBound | crates/ap-ahrs/src/drift.rs:264-303 | Over any interleaving of cycles and yaw integrals: flushed + pending seconds = integrated seconds, a pending batch is under five seconds, each bias component is at most the drift rate times the flushed seconds |
| DriftBounds.FreshBiasBound | crates/ap-ahrs/src/drift.rs:264-303 | The same from a fresh corrector, spelled out |
| DriftBounds.FlushBounded | crates/ap-ahrs/src/drift.rs:276-284 | One flush adds at most the drift rate times the batch time, whatever the sign of the rate |
| DriftBounds.CorrectedPull | crates/ap-ahrs/src/drift.rs:238-262 | The squared proportional term is at most (1 + abs(e)) times the squared gain limit, with or without preselection |
| DriftBounds.ProportionalBound | crates/ap-ahrs/src/drift.rs:252-262 | The same from any error at most one long |
| DriftBounds.TransposeLength | crates/ap-math/src/matrix3.rs:173-179 | Rotating into body frame lengthens by at most sqrt(1 + abs(e)) |
| DriftBounds.JudgedErrorBounded | crates/ap-ahrs/src/drift.rs:203-236 | The error a cycle acts on is at most one long |
| DriftBounds.FilteredErrorBounded | crates/ap-ahrs/src/drift.rs:250-250 | The filtered error stays in [0, 1] over every run |
| DriftBounds.PGainShape | crates/ap-ahrs/src/drift.rs:178-186 | One up to 50 degrees a second, ten from 500 on, in proportion in between, never falling |
| DriftBounds.PullResponse | crates/ap-ahrs/src/drift.rs:252-262 | The pull in plain numbers, slow and fast and at the floor |
| DriftBounds.FastGainsEightfold | crates/ap-ahrs/src/drift.rs:259-262 | Fast gains pull eight times as hard |
| DriftBounds.FilterFollows | crates/ap-ahrs/src/drift.rs:250-250 | Each correction leaves four fifths of the filtered error's distance to the new one |
| DriftBounds.PGainRange | crates/ap-ahrs/src/drift.rs:178-186 | The gain multiplier lies in [1, 10] for every spin rate |
| WindEstimation.WindEstimator.Estimate | crates/ap-ahrs/src/wind_estimation.rs:50-81 | State after a call on each of its exits |
| WindEstimation.WindEstimator.EstimateTurning | crates/ap-ahrs/src/wind_estimation.rs:83-113 | The turning blend with spike rejection, and the refreshed pair |
| WindRuns.WindRecovery | crates/ap-ahrs/src/wind_estimation.rs:50-113 | In constant wind the error after any run is the initial error times exactly 0.95 per turning and 0.92 per straight blend; under 20 m/s no sample is rejected |
| AirRuns.LoopRecoversWind | crates/ap-ahrs/src/dcm_drift_loop.rs:170-190 | Over any run of ticks in constant wind the error of the loop's estimate is the initial error times 0.95 and 0.92 per blend |
| AirRuns.LoopCallsExact | crates/ap-ahrs/src/dcm_drift_loop.rs:177-189 | The equivalent airspeed the loop derives scales back to the true one |
| AirRuns.TickWindGate | crates/ap-ahrs/src/dcm_drift_loop.rs:170-190 | A tick leaves the wind alone with estimation off or within 100 ms of the last estimate, and any other new fix is an estimate at its time |
| AirRuns.OfferedVelocityError | crates/ap-ahrs/src/dcm_drift_loop.rs:203-208 | Without GPS the offered velocity is off by exactly the error of the wind estimate |
| AirRuns.TurningSampleCrabbing | crates/ap-ahrs/src/wind_estimation.rs:89-107 | The turning triangle solves for a constant wind also at a constant angle between nose and airspeed |
| WindRuns.RecoveryAfterRefresh | crates/ap-ahrs/src/wind_estimation.rs:50-113 | From any state and after any calls, recovery starts with the first exact call that refreshes the wind time |
| WindRuns.FreshRecovery | crates/ap-ahrs/src/wind_estimation.rs:62-67 | From a new estimator first called over ten seconds after start-up the error is the wind itself times those factors |
| WindRuns.ConstantWindStep | crates/ap-ahrs/src/wind_estimation.rs:50-113 | One call in constant wind, with the condition on which a sample is rejected |
| WindRuns.TurningSampleExact | crates/ap-ahrs/src/wind_estimation.rs:89-107 | The turning triangle solves for a constant wind exactly, at zero airspeed too |
| WindRuns.StraightSampleExact | crates/ap-ahrs/src/wind_estimation.rs:76-77 | So does the straight sample |
| WindRuns.RefreshPairs | crates/ap-ahrs/src/wind_estimation.rs:62-67 | Any refreshing call makes the stored pair consistent |
| WindRuns.TurningGrowth | crates/ap-ahrs/src/wind_estimation.rs:109-111 | An accepted turning sample lengthens the estimate by less than one |
| WindRuns.GateSpacing | crates/ap-ahrs/src/wind_estimation.rs:54-57 | Passing calls are at least 100 ms apart in unwrapped time across any number of clock wraps |
| WindRuns.StraightBlendsBetweenRefreshes | crates/ap-ahrs/src/wind_estimation.rs:62-79 | At most 80 straight blends between refreshes of the wind time, across clock wraps |
| WindRuns.WrappedElapsed | crates/ap-ahrs/src/wind_estimation.rs:54-54 | What the wrapping difference says about elapsed time |
| YawDrift.YawDriftCorrector.UseCompass | crates/ap-ahrs/src/yaw_drift.rs:206-229 | The verdict and the stored time of agreement |
| YawDrift.YawDriftCorrector.DriftCorrectionYaw | crates/ap-ahrs/src/yaw_drift.rs:242-350 | State and result of a cycle on every path |
| YawDrift.YawDriftCorrector.ApplyReference | crates/ap-ahrs/src/yaw_drift.rs:323-343 | The second half, once a reference was found |
| YawRuns.YawTermBounded | crates/ap-ahrs/src/yaw_drift.rs:323-338 | Over any run the yaw term is vertical and at most 72 (9 without fast gains) times the floored gain, the filtered error in [0, 1] |
| YawRuns.YawPullBounded | crates/ap-ahrs/src/yaw_drift.rs:233-239 | The pull of one error at most one |
| YawRuns.CompassErrorBounded | crates/ap-ahrs/src/yaw_drift.rs:183-194 | The compass error is at most one for every field |
| YawRuns.ReferenceErrorBounded | crates/ap-ahrs/src/yaw_drift.rs:258-312 | So is every reference error, from compass or GPS |
| Heading.CompassTurnsTowardIff | crates/ap-ahrs/src/yaw_drift.rs:183-194 | Turning by the pull a compass cycle leaves, without swinging past, brings the horizontal field closer to the declination iff c.z and the swing of the field agree in sign |
| Heading.LevelSwing | crates/ap-ahrs/src/yaw_drift.rs:183-194 | On a level attitude with a usable field they always do |
| Heading.SteepField | crates/ap-ahrs/src/yaw_drift.rs:183-194 | An upright attitude and a usable field for which they do not |
| Heading.GpsTurnsTowardIff | crates/ap-ahrs/src/yaw_drift.rs:198-203 | Turning by the pull a GPS cycle leaves, without swinging past, brings the nose closer to the GPS heading, upright or inverted, unless the vehicle is exactly on its side |
| Heading.SwungCloserIff | crates/ap-math/src/matrix3.rs:240-261 | Which turns about the body's vertical bring a vector closer to a heading |
| Heading.NotPast | crates/ap-math/src/matrix3.rs:240-261 | How small a turn does not swing past |
| Heading.IntegralFollowsYawPull | crates/ap-ahrs/src/yaw_drift.rs:335-343 | The integral's share is the yaw pull without its gain, over the seconds of the reference, and nothing across long gaps and fast spins |
| ResetRuns.ResetKeepsTilt | crates/ap-ahrs/src/dcm_drift_loop.rs:334-338 | A tick that asks for a hard reset keeps the third row its matrix step made, and points the nose along the GPS heading |
| ResetRuns.NoResetKeepsMatrix | crates/ap-ahrs/src/dcm_drift_loop.rs:334-338 | Any other tick leaves the attitude its matrix step made |
| ResetRuns.EulerKeepsTilt | crates/ap-math/src/matrix3.rs:195-227 | Building from the roll and pitch read off an attitude, with any heading, keeps its tilt |
| YawRuns.YawPullResponse | crates/ap-ahrs/src/yaw_drift.rs:323-333 | The yaw pull in plain numbers, slow and fast, straight and accelerating, with and without fast gains |
| YawRuns.YawGainShape | crates/ap-ahrs/src/yaw_drift.rs:233-239 | From nine tenths in straight flight the gain falls to one tenth at 4 m/s^2 and stays there |
| YawRuns.YawFilterFollows | crates/ap-ahrs/src/yaw_drift.rs:334-334 | Each correction leaves four fifths of the filtered error's distance to the new one |
| YawRuns.HeadingAgreesIff | crates/ap-ahrs/src/yaw_drift.rs:220-227 | Heading and course agree iff within 45 degrees on the circle, or the wind is at least four fifths of the ground speed |
| YawRuns.ReferenceRules | crates/ap-ahrs/src/yaw_drift.rs:258-312 | The compass comes first, a slow course is not used, a fix is corrected by at most once, and which seconds a reference covers |
| YawRuns.DecayRun | crates/ap-ahrs/src/yaw_drift.rs:314-321 | k cycles without a reference scale the term by exactly 0.97^k; skipped cycles change nothing |
| YawRuns.CompassRefusedIff | crates/ap-ahrs/src/yaw_drift.rs:206-229 | An enabled compass is refused iff this check disagrees and start-up and every earlier agreement are over two seconds old |
| YawRuns.StoredAgreement | crates/ap-ahrs/src/yaw_drift.rs:220-227 | The stored time reflects the latest agreement of a whole run |
| YawRuns.HardResets | crates/ap-ahrs/src/yaw_drift.rs:278-349 | Exactly which cycle of a run asks for a hard reset (the first GPS correction always does), to which angles, leaving no yaw term and no integral |
| YawRuns.InitialYawIff | crates/ap-ahrs/src/yaw_drift.rs:293-305 | A yaw reference counts as applied iff an earlier cycle corrected by GPS |
| DriftLoop.DcmDriftLoop.constructor | crates/ap-ahrs/src/dcm_drift_loop.rs:109-125 | The initial state of every part |
| DriftLoop.DcmDriftLoop.AccumulateFromIns | crates/ap-ahrs/src/dcm_drift_loop.rs:139-168 | Each contributing instance gains its own earth-frame acceleration; time grows once per contributor |
| DriftLoop.DcmDriftLoop.UpdateWind | crates/ap-ahrs/src/dcm_drift_loop.rs:170-190 | Wind is estimated only on a new fix that carries a velocity |
| DriftLoop.DcmDriftLoop.ResolveVelocity | crates/ap-ahrs/src/dcm_drift_loop.rs:192-210 | The velocity offered, the lock flag, and the reference set when lock is gained |
| DriftLoop.DcmDriftLoop.UpdatePosition | crates/ap-ahrs/src/dcm_drift_loop.rs:213-223 | A new fix starts the position over, a velocity without one is integrated over the pending seconds |
| DeadReckoning.DeadReckoningPosition.OnGpsFix | crates/ap-ahrs/src/dead_reckoning.rs:19-26 | The fix is stored and the offsets are zero |
| DeadReckoning.DeadReckoningPosition.Integrate | crates/ap-ahrs/src/dead_reckoning.rs:29-37 | Offsets grow only without GPS, from a known position, over positive time |
| DriftLoop.DcmDriftLoop.TryCorrect | crates/ap-ahrs/src/dcm_drift_loop.rs:227-315 | State and outcome on every exit |
| DriftLoop.DcmDriftLoop.SelectSensor | crates/ap-ahrs/src/dcm_drift_loop.rs:259-286 | Velocity change, reference and selection of an attempt |
| DriftLoop.DcmDriftLoop.GatherInputs | crates/ap-ahrs/src/dcm_drift_loop.rs:288-304 | What the corrector is given, and the recorded instance |
| DriftLoop.DcmDriftLoop.SelectAndCorrect | crates/ap-ahrs/src/dcm_drift_loop.rs:278-314 | The attempt proper, emptying the accumulators on success |
| DriftLoop.DcmDriftLoop.CorrectYaw | crates/ap-ahrs/src/dcm_drift_loop.rs:318-342 | The yaw cycle, its attitude reset and its integral |
| DriftLoop.DcmStepWithDriftFromInsYaw | crates/ap-ahrs/src/dcm_drift_loop.rs:397-419 | One tick equals the composed step function |
| Frames.FilteringPreservesMeaning | tools/parity/gen_frames.py:82-114 | On every well-nested text the stack loop keeps exactly what the nested evaluation keeps and drops exactly the rest |
| Frames.WellNestedIffBlock | tools/parity/gen_frames.py:93-105 | Well-nested line by line iff it is the text of a block, so the theorem above covers all such text |
| Frames.ElifIgnored | tools/parity/gen_frames.py:104-105 | Any text is scanned as if its #elif lines were not there |
| Frames.NothingLost | tools/parity/gen_frames.py:106-113 | For any text at all, kept and dropped lines together are the non-directive lines |
| Frames.ConditionMeans | tools/parity/gen_frames.py:94-97 | A condition opens its first branch iff the line does not contain the plane marker |
| Frames.OccursIff | tools/parity/gen_frames.py:96-96 | What containing means |
| Frames.LStripSpec | tools/parity/gen_frames.py:92-92 | Stripping takes all blanks off the front and nothing else |
| Frames.IndentationIgnored | tools/parity/gen_frames.py:92-92 | Indentation does not change what a line is |
| Frames.KindsOfLines | tools/parity/gen_frames.py:93-105 | What the directives are, and what is text |
| Frames.RecordedIff | tools/parity/gen_frames.py:108-113 | The labels recorded are exactly those of the dropped lines |
| Frames.FilteredTextMeaning | tools/parity/gen_frames.py:91-114 | On whole texts: splitting the filtered text again gives the lines the block keeps, except a last empty one |
| Frames.SplitOfJoin | tools/parity/gen_frames.py:91-114 | Joined lines split into the same lines, except that a last empty line is lost |
| Frames.Preprocess | tools/parity/gen_frames.py:82-114 | Splits the text, keeps what the scan keeps and joins it again; records the case labels of the dropped lines |
| Braces.BodyOf | tools/parity/gen_frames.py:66-79 | The balanced text between the first brace after the name and its match, or which of name, brace and match is missing |
| Braces.MatchUnique | tools/parity/gen_frames.py:72-78 | A brace has at most one match |
| Braces.GroupMatches | tools/parity/gen_frames.py:72-78 | Round trip: any text with matched braces is found again between its braces |
| Braces.TextBalanced | tools/parity/gen_frames.py:71-78 | Properly nested text is balanced by count |
| Braces.BalancedIsText | tools/parity/gen_frames.py:71-78 | Text balanced by count is properly nested |
| ReferenceCompare.NearestTurn | tools/sitl_diff/reference_compare.py:53-55 | The circle distance is the least straight distance over all whole turns, and is attained |
| ReferenceCompare.DeltaRange | tools/sitl_diff/reference_compare.py:53-55 | Between 0 and 180, symmetric, zero iff whole turns apart |
| ReferenceCompare.DeltaPeriodic | tools/sitl_diff/reference_compare.py:53-55 | Whole turns added to either angle change nothing |
| ReferenceCompare.DeltaTriangle | tools/sitl_diff/reference_compare.py:53-55 | Triangle inequality |
| ReferenceCompare.QuantilesPermutationInvariant | tools/sitl_diff/reference_compare.py:75-79 | The order of the samples does not matter |
| ReferenceCompare.QuantilesOrdered | tools/sitl_diff/reference_compare.py:75-79 | median <= p99 <= max, all samples, and none above max |
| ReferenceCompare.QuantileShares | tools/sitl_diff/reference_compare.py:75-79 | More than half the samples are at most the median, more than 99% at most p99 |
| ReferenceCompare.UpperShares | tools/sitl_diff/reference_compare.py:75-79 | At least half the samples are no less than the median, at least one in a hundred no less than p99 |

## Left out

- Floating-point rounding, NaN and infinities, apart from the zero length in `renorm`. The `BadError`
  outcome (drift.rs:246-248) and the NaN tests of `check_matrix` (lib.rs:216-218,226) need them.
- The inertial frontend: a tick receives its delta angle, rates, and per-instance delta velocities and
  health as one `InsReading`, and the loop interval as a number. The health of the primary accelerometer
  is derived from these, as the frontend does (crates/ap-ins/src/frontend.rs:349-351).
- `backend.rs` and `ekf3_loop.rs`: one-branch dispatch and a stub over the same step.
- `dcm_step_with_drift_from_ins`: a wrapper that fills in default inputs.
- `wind_alignment`, `head_wind_from_yaw` and `WindVaneSample`: trigonometric one-liners.
- The reported GPS yaw accuracy: no modelled code reads it.
- MultiAccel.Select: with GPS corrections on and several usable accelerometers, what the shared delay line
  means for the choice is not characterised beyond the contract; the one-accelerometer case is.
- Attitude.CubicConvergence: stated from unit rows, which is what every earlier accepted normalisation leaves.
- ClosedLoop.ClosedLoopSafe: one set of gains for the whole run, and loop intervals that are not negative.
- Braces.BodyOf: the two Python exceptions are result values.
- Frames.Preprocess: the regular-expression search for case labels is a parameter.
- Alignment.AttemptTurnsToward: states one cycle, for the rotation by the pull alone; how the angle shrinks over
  several cycles, with the second-order change each renormalisation makes, is not bounded.
- Centrifugal.TurnPullsIff: without the delay line; with it, `LevelTurnPullsIff` covers level turns on one
  accelerometer.
- `parse_cases`, `parse_case`, `parse_scale` and `num`: regular-expression tokenising.
- `load` and `main` of the comparison: log reading and printing. All `sitl_diff` process handling and the
  fixture generators.
