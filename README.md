# Driver drowsiness monitor: verified model of the eye-state core

This project models the two pieces of logic that make up the drowsiness detector in
`realtime.py` and `utils.py`:

- **Eye aspect ratio** (`utils.py`, module `Utils`). Six ordered eye-contour points give
  two vertical distances, A = |p2 - p6| and B = |p3 - p5|, and the horizontal eye width
  C = |p1 - p4|. The score is (A + B) / (2 C), or exactly 0 when C is 0. The model works
  over `real`. The Euclidean norm is a function-typed parameter `dist`. Lemmas that need
  its properties require `IsDistance` (non-negative, symmetric, zero on equal points) or
  `IsHomogeneous` (scaling both points by k > 0 scales the distance by k).
- **Drowsiness counter and alert cooldown** (`realtime.py`, module `Realtime`). The frame
  loop of `main()` keeps `closed_frames` and `last_alert_time`. On each frame:
  - the two eyes' scores are averaged;
  - a below-threshold score adds one to the counter, and any other score clears it;
  - a frame with no face also clears it;
  - the banner shows when the counter reaches `CONSEC_FRAMES`;
  - a spoken alert starts only when more than `ALERT_COOLDOWN` seconds have passed since
    the last one, and it then records the time.

  `Step` is this rule as a function on values. `Run` and `Outputs` fold it over a finite
  stream of frames. The class `Monitor` keeps the two variables as mutable fields.
  `Monitor.ProcessFrame` is one iteration of the loop. `Monitor.ProcessFrames` is the loop
  itself, proved to agree with `Run`/`Outputs`. The settings are a `Config` value.
  `DefaultConfig` holds the source's constants `EAR_THRESHOLD = 0.21`,
  `CONSEC_FRAMES = 20` and `ALERT_COOLDOWN = 3.0`.

The clock reading (`time.time()`) becomes the `now` field of each `Frame`. The alert
itself is the boolean `fire` of the frame's result.

`last_alert_time` starts at 0, not at "never". The code initialises it to `0`
(realtime.py:49), and the model follows the code. With a real wall clock this makes no
difference. With a clock that starts near 0, the first alert is held back until the
clock passes `ALERT_COOLDOWN`. Take three low frames at t = 0, 1, 2 with three frames
required: the banner shows at t = 2, but no alert is spoken, because 2 - 0 is not more
than 3. `ScenarioClockNearZero` proves this behaviour. `ScenarioWallClock` proves that the
same frames on a clock far from 0 do start the alert at the third frame.

A zero score is not "no information". A contour whose corners coincide scores exactly 0
(utils.py:12-13). The threshold test (realtime.py:83-84) compares the average of both eyes
(realtime.py:70), not one eye's score. So one degenerate eye pulls the frame score down but
does not by itself make the frame low. When both eyes' contours have coinciding corners, the
frame score is 0. That is below `EAR_THRESHOLD`, so the program counts such a frame as a
closed-eye frame. `DegenerateEyesCountAsClosed` proves this.

## Model

| member | source | states |
|---|---|---|
| `Utils.EyeAspectRatio` | utils.py:7-15 | Defined for every six-point contour, with no error path. The result is 0 when the corner distance is 0. Otherwise twice the width times the result equals the sum of the two vertical distances. |
| `Utils.DegenerateWidthGivesZero` | utils.py:11-13 | If the two corner points coincide, the score is exactly 0. |
| `Utils.RatioNonNegative` | utils.py:9-14 | For any non-negative distance, the score is at least 0. |
| `Utils.ClosedEyeGivesZero` | utils.py:9-14 | If both vertical pairs coincide (a fully closed eye), the score is 0 whatever the width. |
| `Utils.SwapWithinPairInvariant` | utils.py:9-11 | Swapping the two points of any measured pair, (p2,p6), (p3,p5) or (p1,p4), leaves the score unchanged, since distance is symmetric. |
| `Utils.ScaleInvariant` | utils.py:9-14 | Scaling all six points by k > 0 leaves the score unchanged, for a homogeneous distance. |
| `Realtime.Average` | realtime.py:70 | The frame score lies between the two eye scores and is equally far from both. |
| `Realtime.AverageAgreesWithBothEyes` | realtime.py:70 | Both eyes below the threshold give a mean below it. Both at or above give a mean at or above it. |
| `Realtime.FrameScore` | realtime.py:61-70 | A score exists exactly when a face was detected. |
| `Realtime.FrameScoreNonNegative` | realtime.py:68-70 | The score of a detected face is never negative. |
| `Realtime.Step` | realtime.py:83-108 | A frame fires only when it is alerting. It alerts only when a face is present. |
| `Realtime.NoFaceResets` | realtime.py:106-108 | A no-face frame sets the counter to 0, keeps the alert time, and neither alerts nor fires, whatever the prior state. |
| `Realtime.CounterRule` | realtime.py:83-86 | With a face, a below-threshold score raises the counter by exactly 1. Any other score sets it to 0. |
| `Realtime.AlertingIffEnoughClosedFrames` | realtime.py:91 | A frame with a face alerts exactly when the new counter is at least `CONSEC_FRAMES`. |
| `Realtime.FireRule` | realtime.py:96-101 | An alert fires exactly when the frame alerts and `now - last_alert_time > ALERT_COOLDOWN`. Firing sets the alert time to `now`. Every other frame leaves it unchanged. |
| `Realtime.Run` | realtime.py:48-108 | The state after the frame loop. The counter grows by at most one per frame. For a non-negative cooldown the recorded alert time never decreases. |
| `Realtime.Outputs` | realtime.py:51-110 | The loop produces one result per frame. |
| `Realtime.FeedOneMore` | realtime.py:51 | One more frame is one more step from the state reached so far. |
| `Realtime.OutputAt` | realtime.py:51-110 | The k-th frame's result is the step on frame k from the state the first k frames lead to. |
| `Realtime.CounterIsCurrentLowRun` | realtime.py:83-108 | If every frame was a low face frame, the counter grew by one per frame. Otherwise it equals the length of the run of low frames since the last frame that was not low. |
| `Realtime.CounterFromStart` | realtime.py:48-108 | From the initial state, the counter is exactly the length of the longest run of low face frames at the end of the stream. |
| `Realtime.QuietRunKeepsAlertTime` | realtime.py:96-101 | If no frame fires, the recorded alert time is unchanged. |
| `Realtime.LowStreakAlertsAtConsecFrames` | realtime.py:83-101 | From a cleared counter, a run of low frames does not alert for its first `CONSEC_FRAMES - 1` frames and alerts from the next one on. On that frame the alert fires exactly when the cooldown since the recorded time has passed. |
| `Realtime.AlertTimeAfterFire` | realtime.py:96-101 | For a non-negative cooldown, after an alert fires the recorded alert time is never earlier than that frame's time, whatever the clock does later. |
| `Realtime.AlertsSeparatedByCooldown` | realtime.py:97-101 | For a non-negative cooldown, any two fired alerts are more than `ALERT_COOLDOWN` seconds apart. This holds even when the clock is not monotonic. |
| `Realtime.DefaultConfigAlertsOnTwentiethLowFrame` | realtime.py:10-12 | With the program's settings (`DefaultConfig`: 0.21, 20, 3.0), 19 low frames from a cleared counter show no banner and the 20th shows it. |
| `Realtime.DegenerateEyesCountAsClosed` | realtime.py:68-84 | When both eyes' contours have coinciding corners, the frame score is exactly 0. The frame then counts as low (a face present and a score below the default threshold), so it is a closed-eye frame. |
| `Realtime.ScenarioClockNearZero` | realtime.py:48-101 | Three low frames then an open one at t = 0..3 s, three frames required: the banner shows on the third frame only, and no alert fires because the alert time starts at 0. |
| `Realtime.ScenarioWallClock` | realtime.py:48-101 | The same frames at t = 1000..1003 s: the alert fires on the third frame. |
| `Realtime.ScenarioNoFaceInterruptsStreak` | realtime.py:48-108 | A lost face breaks a streak: the banner shows on frames 2 and 5 only. Frame 5 does not fire because it comes only 3 s after frame 2. |
| `Realtime.Monitor.constructor` | realtime.py:48-49 | The counter starts at 0 and the alert time at 0. |
| `Realtime.Monitor.ProcessFrame` | realtime.py:61-108 | One loop iteration updates the two fields as `Step` does and returns its `(alerting, fire)`. It states the reset, increment, alerting and firing rules on the fields directly. |
| `Realtime.Monitor.ProcessFrames` | realtime.py:51-110 | The frame loop leaves the state `Run` gives and returns the results `Outputs` gives. |

## Left out

- Camera capture, window display, drawing and key handling (OpenCV): input/output and user interface only.
- MediaPipe face-mesh setup, `landmarks_to_array` and the eye landmark index tables: these wrap a foreign model whose output cannot be specified. The model starts from the six points of each eye, or from `None` when no face is found.
- `speak_alert` and the pyttsx3 engine: a foreign call whose only logic is catch-and-print. The alert is the boolean `fire`.
- `time.time()`: it becomes the `now` value of each frame. No property of the clock is assumed.
- Floating point: the model uses exact `real` arithmetic. It leaves out the `float32` conversion, the integer truncation of pixel coordinates, NaN and rounding.
- The Euclidean norm: `dist` is a parameter, and the lemmas state what they need of it (`IsDistance`, `IsHomogeneous`). No concrete square root is modelled.
- Contour length: the model takes exactly six points. With more than six rows the source ignores the extra rows, and with fewer it raises an index error.
- Loop termination: the source loop ends when the camera read fails or a quit key is pressed. The model runs the loop over a finite sequence of frames.
- record_sample.py: a camera-capture and file-writing loop whose only state is two filename counters driven by keypresses.
