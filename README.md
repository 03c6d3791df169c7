# Drowsiness detection: the debounce state machine in Dafny

This project models the core of a webcam drowsiness detector. The detector
computes the eye aspect ratio (EAR) of each detected face from the face's eye
landmarks. A debounce counter (`FRAME_COUNTER`) and an alarm flag (`ALARM_ON`)
sound an alarm once the eyes have stayed closed for `EYE_AR_CONSEC_FRAMES`
processed faces in a row. The threshold is `EYE_AR_THRESH` = 0.25 and the frame
limit is 30.

- `eye_geometry.dfy` (module `EyeGeometry`): the pure geometry metric.
  `EyeAspectRatio` is `(A + B) / (2C)`, computed from an eye's three landmark
  distances. `CombinedEar` is the mean of the two eyes' ratios, and `FaceEar`
  computes it for one face.
- `debounce.dfy` (module `Debounce`): the state machine as pure functions.
  `Step` handles one face. `Run` and `TriggerCount` fold `Step` over a sequence
  of combined EARs. The lemmas cover whole runs: the invariant, at most one
  trigger per episode, the N−1 / N boundary, a new episode after a reset, and
  the 5-open / 30-closed / 5-open scenario.
- `monitor.dfy` (module `Monitor`): the frame loop, written imperatively. The
  class `DrowsinessMonitor` holds `frameCounter` and `alarmOn`, which its
  methods update in place. `Step` is the loop body for one face, `ProcessFrame`
  is the `for rect in rects` loop, and `ProcessStream` is the outer `while True`
  loop over frames. Each method is proved against `Debounce.Run` /
  `Debounce.TriggerCount`.

Starting the playback thread is modelled as a returned `playback` flag. It is
true exactly when the alarm is triggered and an alarm path was given. The
"DROWSINESS ALERT!" overlay is modelled as a returned `alert` flag.

The invariant proved for every reachable state is stronger than the one the
code needs. It states `alarmOn <==> frameCounter >= EYE_AR_CONSEC_FRAMES`,
where the code only relies on `ALARM_ON ==> FRAME_COUNTER >= EYE_AR_CONSEC_FRAMES`.

Two behaviours of the code that the model keeps:
- A degenerate eye (zero horizontal distance) is not guarded in the code. The
  division then gives a non-finite float (infinity or NaN), and a comparison
  of either with the threshold is false. `EyeAspectRatio` returns `NonFinite`
  for such an eye, and a face with a degenerate eye takes the reset branch,
  exactly like an open-eye face.
- Several faces in one frame all feed the one shared counter, in detection
  order. `ProcessFrame` keeps this behaviour.

## Model

| member | source | states |
|---|---|---|
| EyeGeometry.EyeAspectRatio | drowsiness_detection.py:45-54 | The EAR is finite exactly when the eye width is non-zero. A finite EAR is the unique ratio whose product with 2C is A + B. For non-negative distances it is non-negative, and it is zero exactly when both lids are shut. |
| EyeGeometry.LensRatio | drowsiness_detection.py:53 | A symmetric eye with both lid openings v and width h > 0 has the finite EAR v / h. |
| EyeGeometry.ScaleInvariant | drowsiness_detection.py:53 | Scaling all three distances by k > 0 leaves the EAR unchanged. |
| EyeGeometry.ClosingLowersRatio | drowsiness_detection.py:47-53 | At the same eye width, smaller lid openings never give a larger EAR. |
| EyeGeometry.CombinedEar | drowsiness_detection.py:82 | The combined EAR is finite exactly when both eyes' ratios are. It is then equidistant from the two and lies between them, so it is their arithmetic mean. |
| EyeGeometry.FaceEar | drowsiness_detection.py:76-82 | A face's combined EAR is finite exactly when neither eye is degenerate. It is then the mean of its left-eye and right-eye EAR, and non-negative for non-negative distances. |
| EyeGeometry.CombinedAgreesWithBothEyes | drowsiness_detection.py:82 | If both eyes are below the threshold, so is the combined EAR. If neither is below it, the combined EAR is not below it either. |
| EyeGeometry.DegenerateFaceNeverBelow | drowsiness_detection.py:53-91 | A face with a zero-width eye has a non-finite combined EAR, which is never below any threshold. |
| Debounce.Step | drowsiness_detection.py:91-107 | A low-EAR face raises the counter by exactly 1. The alarm is on after it iff it was on already or the new counter reached EYE_AR_CONSEC_FRAMES. Any other face resets to counter 0 with the alarm off and fires no trigger. A trigger fires exactly on the alarm-off to alarm-on transition. The alert is drawn exactly for a low face whose new counter reached EYE_AR_CONSEC_FRAMES. |
| Debounce.PlaybackOnNthLowFace | drowsiness_detection.py:91-100 | From a reachable state, the playback thread is started for a face exactly when the alarm path is non-empty and the face is the N-th consecutive low-EAR face. |
| Debounce.StepPreservesInv | drowsiness_detection.py:91-107 | Every step keeps the invariant "alarm on iff counter >= EYE_AR_CONSEC_FRAMES". |
| Debounce.TriggerOnNthLowFace | drowsiness_detection.py:91-96 | From a reachable state, a face triggers the alarm exactly when it is the N-th consecutive low-EAR face. |
| Debounce.AlertIffArmed | drowsiness_detection.py:94-103 | From a reachable state, the alert text is drawn for a face exactly when the alarm is on after it. |
| Debounce.ResetIdempotent | drowsiness_detection.py:105-107 | An open-eye face after a reset leaves the state at the initial state and fires no trigger. |
| Debounce.Run | drowsiness_detection.py:71-107 | Feeding faces in order preserves the invariant. A sequence whose last face is open ends in the initial state. |
| Debounce.TriggerCount | drowsiness_detection.py:94-107 | Over any run, triggers plus the final disarmed flag are at most the initial disarmed flag plus the number of resets. (That two triggers always have a reset between them is TriggersSeparatedByReset.) |
| Debounce.TriggersSeparatedByReset | drowsiness_detection.py:94-107 | If faces y and z both trigger, with faces ys between them, then at least one face of ys is an open-eye face that reset the machine. |
| Debounce.PlaybacksFollowTriggers | drowsiness_detection.py:94-100 | Over any run, the per-face playback decisions add up to exactly the trigger count when an alarm path is given, and to 0 when it is empty. |
| Debounce.AtMostOnePlaybackPerEpisode | drowsiness_detection.py:94-100 | A run of low-EAR faces starts the alarm sound at most once, and not at all if the alarm was already on. |
| Debounce.Resets | drowsiness_detection.py:105-107 | The number of resetting faces is at most the number of faces, and zero exactly when every face is low. |
| Debounce.RunAppend | drowsiness_detection.py:62-107 | Feeding two face sequences one after the other gives the same state as feeding their concatenation, and the trigger counts add up. |
| Debounce.AtMostOneTriggerPerEpisode | drowsiness_detection.py:94-96 | A run of low-EAR faces fires at most one trigger, and none if the alarm was already on. |
| Debounce.LowRun | drowsiness_detection.py:91-96 | From a reachable state, k low faces add k to the counter. The alarm is on afterwards iff the counter reached the limit. Exactly one trigger fires iff the run crosses the limit. |
| Debounce.OpenRunResets | drowsiness_detection.py:105-107 | Open-eye faces never trigger. Any non-empty run of them ends in the initial state. |
| Debounce.BelowLimitNeverTriggers | drowsiness_detection.py:91-107 | From start-up, fewer than N low faces never trigger and leave the alarm off. One open face after them returns to counter 0 with the alarm off, still with no trigger. |
| Debounce.LimitTriggersOnce | drowsiness_detection.py:91-96 | From start-up, N low faces fire exactly one trigger, and it comes from the N-th face. They end with counter N and the alarm on. |
| Debounce.NewEpisodeAfterReset | drowsiness_detection.py:91-107 | From any reachable state, one open face followed by N low faces starts a new episode with exactly one trigger. |
| Debounce.EndToEndScenario | drowsiness_detection.py:91-107 | For EARs 0.30×5, 0.10×30, 0.30×5 there is exactly one trigger, at index 34. The alarm is on after index 34, and the sequence ends reset. |
| Monitor.FaceEars | drowsiness_detection.py:71-82 | A frame yields one combined EAR per detected face, in detection order. |
| Monitor.FrameStep | drowsiness_detection.py:71-107 | Processing face i of a frame after faces 0..i-1 is one more machine step: the state is that step's next state, and the trigger count grows by its trigger. |
| Monitor.DegenerateFaceResets | drowsiness_detection.py:53-107 | A face with a zero-width eye resets the counter and the alarm and fires no trigger, from any state. |
| Monitor.NoFacesFeedNothing | drowsiness_detection.py:62-71 | The EARs of a stream of frames are empty exactly when no frame holds a detected face. |
| Monitor.StreamEarsAppend | drowsiness_detection.py:62-71 | The EARs of a stream followed by one more frame are the stream's EARs followed by that frame's, in detection order. |
| Monitor.StreamStep | drowsiness_detection.py:62-107 | Processing frame k after frames 0..k-1 runs the machine over that frame's faces from the state reached so far, and the trigger counts add up. |
| Monitor.EmptyFrameCarriesOver | drowsiness_detection.py:69-71 | A frame with no detected face leaves the counter, the alarm flag and the trigger count unchanged, both for the frame alone and within a stream. |
| Monitor.DrowsinessMonitor.constructor | drowsiness_detection.py:36-37 | Start-up state: counter 0, alarm off, the configured alarm path. |
| Monitor.DrowsinessMonitor.Step | drowsiness_detection.py:91-107 | The in-place update of one face matches Debounce.Step in new state, trigger and alert. Playback starts iff the trigger fires and the alarm path is non-empty. |
| Monitor.DrowsinessMonitor.ProcessFrame | drowsiness_detection.py:71-107 | After a frame's faces, the fields hold Debounce.Run of their combined EARs. Triggers equal Debounce.TriggerCount, and playbacks, counted from the per-face playback flags, equal triggers, or 0 without an alarm path. |
| Monitor.DrowsinessMonitor.ProcessStream | drowsiness_detection.py:62-114 | After a stream of frames, the fields hold Debounce.Run of all their faces' EARs in order. Triggers equal Debounce.TriggerCount over those EARs. Playbacks, summed from every frame's playback count, equal triggers, or 0 without an alarm path. |

## Left out

- Command-line parsing (lines 16-19). The alarm path is a constructor parameter, and the shape-predictor path is not modelled.
- Face detection and the landmark predictor (lines 24-25, 69, 72-73), and the eye index ranges (lines 29-30). These are opaque external models. A face arrives as its eyes' landmark distances.
- Euclidean distances (lines 47-51). The square root and floating-point rounding are not modelled. Distances are exact non-negative reals, and all EAR arithmetic is exact real arithmetic.
- Infinity and NaN are not told apart. A zero eye width gives infinity (a positive lid sum) or NaN (a zero lid sum). Both are `NonFinite` in the model, and both fail the threshold test, so the face resets the machine. The EAR shown on screen for such a face is not modelled.
- Video capture, resizing, grayscale conversion and teardown (lines 59-66, 116-117). These are I/O. The stream of frames is a parameter.
- Convex hulls, contours, text drawing, the window and key handling (lines 85-88, 103, 109, 112-114). These are UI. The alert text is the returned `alert` flag, and the `x` key is the end of the input stream.
- `sound_alarm`, `playsound` and the playback thread (lines 40-41, 98-100). These are concurrency and audio I/O. A started thread is the returned `playback` flag, and playback failures are not modelled.
