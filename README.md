# Jump-event state machine of the vertical-jump analyser

This project models the core of `analisar_hud_completo` in `app.py`. That function reads a video of a vertical
jump frame by frame. For each frame in which pose estimation finds a body, it takes the knee angle and the foot
height in pixels. From these it derives four numbers: the jump height, the deepest knee flexion ("dip"), the knee
extension just after takeoff ("explosion") and the contraction time from the start of the dip to takeoff.

The state machine has three phases: `CHAO` (ground), `NO AR` (airborne) and `POUSOU` (landed).

- **Calibration.** During the first 30 frames, every frame with a pose adds its foot height to a sample list.
- **Ground level.** On the first later frame with a pose, the ground level is fixed as the largest sample.
- **On the ground.** The machine tracks the minimum knee angle. It records the first frame with an angle below
  170 degrees as the dip onset. It takes off when the foot rises more than 3% of the frame height above the
  ground level.
- **In the air.** Each pose frame increments an airborne counter. While that counter is below 10, the machine
  tracks the maximum knee angle.
- **Landing.** The machine lands on a pose frame whose foot is at or below the line 1% of the frame height above
  the ground level.
  It then computes the height as `122.6 * (airborne frames / fps)^2` cm.
- **After landing.** Nothing changes any more.
- **Frame counter.** Every frame advances it, with or without a pose.

Modules:

- `Geometry` (`geometry.dfy`): the normalisation step of `calcular_angulo`. It takes the absolute value and
  reflects anything above 180 degrees.
- `FrameRate` (`frame_rate.dfy`): the fallback to 30 fps when the video reports a rate of 0.
- `JumpSpec` (`jump_spec.dfy`): the state machine as values.
  - `State` holds the loop's locals.
  - `Observe` is the pose logic of one frame (lines 81-116).
  - `Next` is one loop iteration, frame counter included.
  - `Run` folds `Next` over a video.
  - `Inv` holds in every reachable state, and `Follows` relates a later state to an earlier one.
  - An empty calibration list makes `max()` raise in the source. Here it is the error `EmptyCalibration`.
- `JumpProperties` (`jump_properties.dfy`): per-frame lemmas about `Next` and whole-video lemmas about `Run`.
- `Analyzer` (`analyzer.dfy`): the loop as it is written.
  - Class `JumpAnalyzer` holds the mutable locals as fields.
  - Its `Step` method is one iteration. It is split into `GroundFrame` (with `TrackGround` for lines 89-103)
    and `AirborneFrame` as the source's branches are, and each is proved equal to its counterpart among
    `Next`, `Observe` and `TrackGround`.
  - `Analyze` is the driver loop, proved equal to `Run` over the whole video.
- `Hud` (`hud.dfy`): the panel's choices between a value and the `--` placeholder, and its colour thresholds.
  Python's `int()` on a float is modelled as truncation toward zero.

Some behaviours of the code are worth stating on their own:

- Calibration lasts 30 frames (app.py:83).
- The extension window is `frames_no_ar < 10`, evaluated after the increment. So only the first 9 airborne pose
  frames update the maximum extension (app.py:106-110).
- The ground level is recomputed whenever it is still 0, not only once. The sample list is frozen by then, so
  the value is the same (`Follows`, `GroundLevelIsMaxSample`).
- The airborne counter counts only frames with a pose. `MissingPoseIsNoOp` shows that a frame without a pose
  leaves it unchanged. `AirborneTracksFlight` and `LandedTracksFlight` show that it equals the number of pose
  frames after the takeoff frame, up to the landing frame once landed. A flight with missing-pose frames is
  therefore timed shorter than the frame indices would give.

## Model

| member | source | states |
|---|---|---|
| Geometry.NormalizeAngle | app.py:19-20 | for a raw difference in [-360, 360] the result lies in [0, 180]; it is the magnitude, or its reflection 360 - magnitude, and it is the magnitude exactly when the magnitude is at most 180 |
| Geometry.NormalizeAngleSymmetric | app.py:18-20 | negating the raw difference, which is what swapping the two outer points does, gives the same angle |
| Geometry.NormalizeAngleFixesInterior | app.py:19-20 | an angle already in [0, 180] is unchanged |
| Geometry.NormalizeAngleIdempotent | app.py:19-20 | normalising twice equals normalising once |
| Geometry.NormalizeAngleExplement | app.py:19-20 | a rotation and the rest of the full turn give the same interior angle |
| FrameRate.EffectiveFps | app.py:31-32 | a reported rate of 0 becomes 30; a non-zero reported rate is kept; the result is never 0; it is positive exactly when the reported rate is non-negative |
| FrameRate.EffectiveFpsIdempotent | app.py:32 | applying the fallback to its own result changes nothing |
| JumpSpec.Initial | app.py:40-53 | the initial values (ground 0, minimum 180, extension 0, counters and frames 0, no samples) satisfy the reachable-state invariant |
| JumpSpec.TakeoffLine | app.py:98 | the takeoff line (ground level minus 3% of the frame height) is at most the landing line, which is at most the ground level; with a non-zero frame height it is strictly less than the landing line |
| JumpSpec.LandingLine | app.py:113 | the landing line (ground level minus 1% of the frame height) is at most the ground level, and equals it exactly when the frame height is 0 |
| JumpSpec.Max | app.py:87 | the ground level is one of the samples and no sample exceeds it |
| JumpSpec.ContractionTime | app.py:102-103 | 0 when no dip was recorded; with a positive rate, positive exactly when the dip onset precedes the takeoff |
| JumpSpec.JumpHeight | app.py:115-116 | the height is never negative and is 0 exactly when no airborne frame was counted |
| JumpSpec.JumpHeightMonotone | app.py:115-116 | more airborne frames never give a lower height |
| JumpSpec.JumpHeightHalfSecond | app.py:115-116 | 15 airborne frames at 30 fps give 30.65 cm |
| JumpSpec.TrackGround | app.py:89-103 | after calibration on the ground: the minimum becomes at most both the old minimum and the angle, and is one of them; the dip onset changes exactly when it was unset and the angle is below 170, and then to the current frame; the phase becomes airborne exactly when the foot is above the takeoff line, and then the takeoff frame is the current one and the contraction time is (current frame - dip onset) / fps when a dip onset is recorded; otherwise the contraction time is unchanged; the ground level, samples, counters, extension and height are unchanged |
| JumpSpec.Observe | app.py:81-116 | the pose logic fails exactly on a post-calibration ground frame with ground level 0 and no sample (the `max()` of an empty list); it never moves the frame counter; during calibration it appends the foot height to the samples and otherwise leaves them alone; a landed state is unchanged |
| JumpSpec.Next | app.py:143 | every successful frame advances the counter by one, with or without a pose; only a frame with a pose (the test on line 67) can fail |
| JumpSpec.Run | app.py:55-57 | a successful run over a video advances the frame counter by the video's length |
| JumpProperties.MissingPoseIsNoOp | app.py:67 | a frame without a pose changes only the frame counter, in every phase, so it does not count as airborne |
| JumpProperties.CalibrationStep | app.py:83-85 | during calibration a pose frame only appends its foot height; no extremum, dip, takeoff or phase change |
| JumpProperties.GroundStep | app.py:87-95 | after calibration on the ground: the minimum becomes min(old, angle); the dip onset changes exactly when it was unset and the angle is below 170, and then to the current frame; the ground level is the largest sample |
| JumpProperties.TakeoffStep | app.py:97-103 | from the ground, the phase becomes airborne exactly on a post-calibration pose frame whose foot is above ground level minus 3% of the frame height; then the takeoff frame is the current one and the contraction time is (takeoff - dip) / fps, or 0 without a dip; the ground never goes straight to landed |
| JumpProperties.AirborneStep | app.py:105-110 | an airborne pose frame adds one to the airborne count; the maximum extension never decreases, changes only while the new count is below 10, and then covers the new angle |
| JumpProperties.LandingStep | app.py:112-116 | from the air, the phase becomes landed exactly on a pose frame whose foot is at or below ground level minus 1% of the frame height, with the height computed from the airborne count including the landing frame; otherwise the height is unchanged |
| JumpProperties.PhaseStep | app.py:81-114 | one frame keeps the phase or moves it one place forward: ground to airborne, or airborne to landed |
| JumpProperties.StepFollows | app.py:81-116 | one frame never moves the phase back, never raises the minimum, never lowers the maximum extension, and never overwrites the dip onset, the takeoff, the ground level or the contraction time once they are set; a landed state changes only its frame counter |
| JumpProperties.StepInv | app.py:67-143 | every frame preserves the invariant: sample count at most 30; a dip onset, when set, is at least 30, so 0 is an unambiguous "unset"; takeoff at or after the dip; contraction time consistent with both; height 0 until landed and from the airborne count once landed |
| JumpProperties.RunErrExtends | app.py:87 | once the calibration error is raised, the analysis of the whole video fails |
| JumpProperties.RunFollows | app.py:55-143 | across any number of frames the phase order, the monotone extrema and the write-once fields hold |
| JumpProperties.LandedIsTerminal | app.py:81-116 | after landing, any further frames only advance the frame counter |
| JumpProperties.RunInv | app.py:55-143 | every state reached from the start satisfies the invariant and its frame counter equals the number of frames read |
| JumpProperties.RunSamples | app.py:83-84 | the sample list is exactly the foot heights of the pose frames among the first 30 frames, in order |
| JumpProperties.GroundLevelIsMaxSample | app.py:87 | once off the ground, the ground level is the largest calibration sample |
| JumpProperties.RunErrIff | app.py:83-87 | the analysis fails exactly when no pose was seen in the first 30 frames and one is seen afterwards |
| JumpProperties.DipOnsetIsFirst | app.py:93-95 | a recorded dip onset is a pose frame at index 30 or later with an angle below 170, and no earlier post-calibration ground frame had one; without a dip, no ground frame up to the takeoff did |
| JumpProperties.MinKneeAngleIsMinimum | app.py:89-91 | the minimum knee angle is at most every post-calibration ground frame's angle, and is either the 180 sentinel or one of those angles |
| JumpProperties.NoPhaseSkipped | app.py:98-114 | a run from the ground that ends landed passes through an airborne state |
| JumpProperties.AirborneTracksFlight | app.py:105-110 | in the air, the takeoff lies in the video, the airborne count is the number of pose frames after the takeoff frame, and the maximum extension is the largest of 0 and the knee angles of the first 9 of those frames |
| JumpProperties.LandedTracksFlight | app.py:105-116 | once landed there is a landing frame after the takeoff: the run up to it was airborne, its pose has the foot at or below the landing line, the count and maximum extension are those of the pose frames from after the takeoff up to and including it, and the height is computed from that count |
| JumpProperties.FinalMetrics | app.py:40-50 | at the end of any video the height is non-negative and positive exactly when landed, so an unfinished jump reports 0; the minimum is at most 180; the extension is at least 0; no contraction time on the ground |
| Analyzer.JumpAnalyzer.constructor | app.py:29-53 | fields start at the source's initial values, with the fps fallback applied |
| Analyzer.JumpAnalyzer.Step | app.py:67-143 | the fields after the call are `Next` of the fields before; the error leaves them unchanged; a landed analyzer only advances the frame counter |
| Analyzer.JumpAnalyzer.GroundFrame | app.py:82-103 | the ground branch (calibration and the ground level here, the rest through `TrackGround`) updates the fields as `Observe` says, or reports the calibration error and leaves them unchanged |
| Analyzer.JumpAnalyzer.TrackGround | app.py:89-103 | the post-calibration ground logic updates the minimum, the dip onset and the takeoff as `JumpSpec.TrackGround` says |
| Analyzer.JumpAnalyzer.AirborneFrame | app.py:105-116 | the airborne branch updates the fields as `Observe` says |
| Analyzer.Analyze | app.py:55-157 | the loop fails exactly when `Run` does, otherwise it reports the final height, minimum, extension and contraction time of `Run`; the height is non-negative and the minimum at most 180 |
| Hud.Truncate | app.py:126 | `int()` truncates toward zero: the result is within one of the input, on the input's side of zero |
| Hud.HeightShownIffFlight | app.py:121 | a height computed from an airborne count is shown as a value exactly when at least one airborne frame was counted |
| Hud.DipText | app.py:126 | the dip is shown as the truncated minimum or as the placeholder, the placeholder appears exactly when the minimum is at least 179, and a shown non-negative minimum is a whole number of degrees below 179 within one degree of the minimum |
| Hud.DipInTargetRange | app.py:127 | a dip drawn in the "good" colour is shown as a value whose truncation lies in [80, 110] |
| Hud.ExtensionText | app.py:132 | the extension is shown as the truncated maximum or as the placeholder, the placeholder appears exactly when the maximum is not positive, and a shown value is within one degree below the maximum |
| Hud.ExtensionInTargetRange | app.py:133 | an extension drawn in the "good" colour is shown as a value whose truncation is at least 165 |
| Hud.RhythmShownIffDipPrecedesTakeoff | app.py:137 | with a positive rate, the rhythm line for a dip onset and a takeoff frame is drawn exactly when a dip onset was recorded and strictly precedes the takeoff |
| Hud.InitialPanelIsEmpty | app.py:119-138 | at the start all three metrics show the placeholder and no rhythm line is drawn |
| Hud.HeightShownIffLanded | app.py:121 | a height value is shown exactly when the jump has landed |
| Hud.DipShownIffDeepFrame | app.py:126 | a dip value is shown exactly when some post-calibration ground frame had a knee angle below 179 |
| Hud.NothingAfterTakeoffShownOnGround | app.py:132-137 | while on the ground, the height and extension show placeholders and no rhythm is drawn |
| Hud.RhythmShownIffDipBeforeTakeoff | app.py:137 | with a positive rate, the rhythm line is drawn exactly when a dip onset strictly precedes the takeoff |

## Left out

- Video input and output are not modelled: opening, reading and writing frames, colour conversion, the
  translucent panel and the text and skeleton drawing (app.py:28-35, 56-65, 85, 120-146). The model keeps only
  the value-or-placeholder and colour decisions of the panel.
- Pose estimation is not modelled: the MediaPipe model and the landmark indices (app.py:12-14, 60, 68-78). Each
  frame is given as "no pose" or as a knee angle and a foot height in pixels.
- `np.arctan2` and the radian-to-degree conversion (app.py:18-19) are transcendental floating-point operations.
  The angle step starts from a raw degree difference.
- Floating point is modelled by exact reals. Rounding and the float `1/fps` division are not modelled.
- FrameRate.EffectiveFps: only the `fps == 0` branch of the fallback is modelled. The `np.isnan(fps)` branch
  has no counterpart in the reals.
- The file-existence check, the Colab installation lines, the download and the printed text report
  (app.py:2-4, 10, 24-26, 148-161) are not modelled. `Analyze` returns the reported figures instead of printing
  them.
- The calibration length, margins, window and thresholds are constants, as in the code. They are not
  configuration parameters.
