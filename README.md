# Face-authentication attendance: verification core in Dafny

This project models the control logic of a face-authentication attendance
station. A camera frame is recognised as an enrolled user. The user then
passes two random liveness challenges (blink, smile, turn left, turn right)
to become *verified*, which enables the PUNCH IN / PUNCH OUT buttons.
A 30-frame hysteresis budget keeps the verified state through brief face
loss. A 30-second cooldown per user spaces punches, and a successful punch
clears the verification. Beside this, a registration mode collects 50 face
samples for a new user and starts training once. The model also covers the
deterministic parts of the face module: clamping the detector's box to the
frame, cutting the crop, shaping the recognition result, and choosing which
files of the sample directory `train_model` trains on.

Modules:

- `FaceCore` (`face_core.dfy`): `get_face_crop` and `recognize_face`, as
  functions. The detector's box and the recognizer's `predict` are inputs.
- `Dataset` (`dataset.dfy`): `train_model`'s nested loops as methods, proved
  against the specification function `DatasetSamples`. It also covers the
  `str(user_id)` / `int(name)` round trip of directory names.
- `Challenges` (`challenges.dfy`): challenge kinds, the pass rule, the
  queue, and runs of frames over a queue.
- `Verification` (`verification.dfy`): one recognition frame as a function
  `Frame` on a `Session` value, and `manual_punch`'s decision as
  `PunchDecision`.
- `Enrollment` (`enrollment.dfy`): registration state and its handlers, as
  functions on an `Enroll` value.
- `App` (`app.dfy`): class `AttendanceApp` with `AppUI`'s state fields. Its
  methods update those fields step by step, as the handlers do, and each
  method's `ensures` ties the new state to the functions above.

Time is whole seconds, passed in as `now`. The pair that `random.sample`
would draw is passed in as `draw`. The liveness signals are passed in as
booleans and an orientation. "Buttons enabled" is the field `gateOpen`.

Where the code behaves in a way one might not expect, the model follows the code:

- Registration keeps appending samples and counting after the 50th, for as
  long as training runs. Only the `is_training` guard stops a second start
  (`Enrollment.Capture`, `Enrollment.CaptureRunFacts`).
- The buttons are enabled only on the frame that completes the challenge
  queue. A user verified during cooldown stays verified with the buttons
  disabled, even after the cooldown ends, until the session reverts and the
  user is challenged again (`Verification.GateOpensOnlyOnCompletion`).
- Hysteresis exhaustion clears the verified flag, the queue and the buttons,
  but it keeps `current_user_id` (`Verification.MissFrame`).
- Starting a registration disables the buttons but leaves the verified flag
  as it was.
- `manual_punch` checks `current_user_id` for truthiness, so a user id of 0 is
  silently ignored (`Verification.Truthy`).
- The cooldown reads the in-memory `last_punch_time` dictionary, defaulting
  to 0. It does not read the storage's last event.
- Training with no usable samples only prints a message. It is the outcome
  `NoData`, not a reported error.
- A directory whose integer name does not fit 32 bits makes the label cast
  fail, so the whole training run is abandoned with "Training Error"
  (`Dataset.TrainModel`).
- Clamping a detected box that starts left of (or above) the frame moves its
  corner to 0 but does not shorten its width (or height) by the part cut off,
  so the crop reaches past the detected box's right (or bottom) edge when the
  frame allows it (`FaceCore.ClampBox`).
- While unverified, every accepted face advances the queue, whoever it is;
  the session is credited to the user of the frame that passes the last
  challenge (`Verification.VerifiedIffDrained`,
  `Verification.CompletionCreditsFrameUser`).

## Model

| member | source | states |
|---|---|---|
| FaceCore.ClampBox | src/face_core.py:38-46 | the clamped rectangle has x >= 0, y >= 0, x + w <= iw and y + h <= ih; it is never wider or taller than the detected box; a non-negative corner is kept and a negative one becomes 0; the width (height) is either the detected one or exactly what reaches the frame's edge; a box already inside the frame is returned unchanged |
| FaceCore.Crop | src/face_core.py:49-50 | the slice of a rectangle inside the frame is an h-by-w image whose pixel (i, j) is the frame's pixel (y + i, x + j) |
| FaceCore.GetFaceCrop | src/face_core.py:25-53 | no detection gives no crop; a crop is returned exactly when the clamped box has w > 0 and h > 0; its rectangle is exactly the clamped detected box, which lies inside the frame, and its image is exactly the frame's pixels under that rectangle; a detected box already inside the frame is used as is |
| FaceCore.RecognizeFace | src/face_core.py:117-136 | no crop gives (None, 0, None); a failed prediction gives (None, 100, rect); otherwise the predicted label and distance with the crop's rectangle |
| Dataset.ParseInt | src/face_core.py:85-88 | a name parses only if it is digits with an optional sign; a digit string parses to its decimal value, and a signed one to that value with the sign applied (leading zeros allowed) |
| Dataset.DirectoryNameRoundTrip | src/face_core.py:60-88 | the directory name `str(uid)` that samples are saved under parses back to `uid` |
| Dataset.TrainModel | src/face_core.py:68-115 | no dataset directory gives NoDataset; otherwise no selected sample gives NoData, a selected label outside the 32-bit range gives LabelOverflow (the `np.int32` cast fails and nothing is trained), and training happens exactly otherwise, on `faces` and `ids` of equal length whose pairs are exactly `DatasetSamples(listing)` in listing order |
| Dataset.CollectUserFiles | src/face_core.py:90-104 | the inner file loop appends, to `faces` and `ids` in lockstep, exactly the usable files of one directory labelled with its integer |
| Dataset.FileSamplesSound | src/face_core.py:90-102 | every sample from a directory carries that directory's label and the image of a `jpg` file with non-zero size and a non-empty image |
| Dataset.FileSamplesComplete | src/face_core.py:90-102 | every usable file of a directory yields a sample under that directory's label |
| Dataset.SampleProvenance | src/face_core.py:80-102 | every training sample comes from a usable file inside a directory whose name parses as the sample's id |
| Dataset.SampleCompleteness | src/face_core.py:80-102 | every usable file in a directory with an integer name is trained on under that integer |
| Challenges.ActiveQueue | src/ui.py:264-268 | with no queue, the queue tested is exactly the drawn pair of two distinct challenges; an existing queue is kept unchanged; the queue tested is never empty and stays two distinct challenges or a suffix of such a pair |
| Challenges.Advance | src/ui.py:270-293 | only the head is tested; the queue loses exactly its head when the head passes, and is otherwise unchanged |
| Challenges.NeutralPassesNothing | src/ui.py:281-289 | a frame with no blink, no smile and a centred face passes none of the four challenges |
| Challenges.DrainAtMostOnePerFrame | src/ui.py:270-298 | over n frames the queue loses at most n challenges, always from the front |
| Challenges.DrainSingle | src/ui.py:270-298 | a single remaining challenge is cleared exactly when some frame passes it |
| Challenges.DrainPair | src/ui.py:262-299 | a two-challenge queue is cleared exactly when some frame passes the first and a strictly later frame passes the second (both directions) |
| Verification.MissFrame | src/ui.py:332-358 | a missed frame leaves an unverified session unchanged; a verified one loses one frame of budget, stays verified iff budget remains, and on reverting drops the queue and the buttons; the invariant is kept |
| Verification.VerifiedFrame | src/ui.py:317-330 | while verified, the same user refills the budget to 30 and changes nothing else; a different user is exactly a missed frame |
| Verification.ChallengeFrame | src/ui.py:262-315 | the frame that empties the queue verifies this frame's user with a full budget and no queue, enabling the buttons if the user is out of cooldown (otherwise leaving them as they were); otherwise only the queue changes, to its advanced form |
| Verification.Frame | src/ui.py:240-358 | one recognition frame preserves the session invariant (buttons only while verified; verified implies a user, no queue, budget 1..30; queue well formed) |
| Verification.UnacceptedFrameIsMiss | src/ui.py:332-358 | a frame with no face, distance >= 100 or no id is a missed frame: it never verifies, never enables the buttons, and leaves an unverified session (and its queue) untouched |
| Verification.VerifiedFrameRule | src/ui.py:317-330 | while verified, an accepted frame of the verified user refills the budget; another accepted user counts as a miss |
| Verification.QueueNotReplaced | src/ui.py:264-268 | when a queue exists, the outcome of a frame does not depend on the draw |
| Verification.OneChallengePerFrame | src/ui.py:270-298 | a challenging frame advances the queue by at most one challenge, and verifies exactly when that advance empties it |
| Verification.CompletionCreditsFrameUser | src/ui.py:297-315 | verification happens only on an accepted frame that passes the last challenge of an existing one-challenge queue; it credits that frame's user, fills the budget, drops the queue, and enables the buttons iff the user is out of cooldown |
| Verification.GateOpensOnlyOnCompletion | src/ui.py:304-312 | the buttons become enabled only on a completing frame, for an accepted user out of cooldown, who becomes the current user |
| Verification.RunQueue | src/ui.py:264-268 | the queue a run of frames works through is the existing queue, or else the pair drawn on the first accepted frame, which is a draw of two distinct challenges; it is empty only when there is no queue and no accepted frame |
| Verification.VerifiedIffDrained | src/ui.py:240-358 | an unverified session becomes verified during a run of frames exactly when the accepted frames' signals, in order, drain its queue; unaccepted frames count for nothing (both directions) |
| Verification.VerifiedIffPassedInOrder | src/ui.py:262-315 | with challenges `a` then `b` to do, an unverified session becomes verified during a run exactly when an accepted frame passes `a` and a strictly later accepted frame passes `b` |
| Verification.GateNeedsVerification | src/ui.py:240-358 | the buttons are enabled at the end of a run that starts unverified only if the session was verified at some frame of it |
| Verification.MissesCountDown | src/ui.py:337-344 | k missed frames below the budget only lower it by k; the frame that uses up the budget reverts the session and disables the buttons |
| Verification.ThirtyFrameBudget | src/ui.py:337-344 | from a full budget, 29 missed frames keep the session verified with the buttons as they were; the 30th reverts it and disables the buttons |
| Verification.PunchDecision | src/ui.py:179-191 | ignored iff there is no truthy current user; refused iff that user punched less than 30 s ago, with remaining = 30 - elapsed > 0 (at most 30 when time has not gone back); committed otherwise, for that user, kind and time |
| Verification.AfterPunch | src/ui.py:204-210 | after a commit the session is unverified, without user, queue or buttons, and still satisfies the invariant |
| Verification.SecondPunchIgnored | src/ui.py:179-210 | a second punch after a committed one, without a new challenge, is ignored at any time |
| Verification.CooldownAfterCommit | src/ui.py:186-195 | within 30 s of a committed punch, a punch by the same user is refused with 30 - (later - now) seconds remaining |
| Verification.OpenGateCommits | src/ui.py:304-312 | buttons enabled by a completing frame mean that a punch by that (truthy) user at that time or later, with no punch in between, is committed |
| Verification.AcceptedMeansPredicted | src/face_core.py:121-136 | an accepted recognition always comes from a real crop and a successful prediction with distance < 100; no-face and failed-prediction results are never accepted |
| Enrollment.Start | src/ui.py:128-146 | ignored while registering, on an empty name, or when the user cannot be created; otherwise a registration for the new id and name starts with no samples and a zero count |
| Enrollment.Finish | src/ui.py:148-152 | training is started iff it is not already running, and is running afterwards |
| Enrollment.Capture | src/ui.py:221-236 | a frame with a face appends exactly its crop and adds one to the count, keeping the registration's id and name; training starts on it iff not already running and the count reaches 50; frames without a face change nothing; the invariant (samples = count, training iff count >= 50 while registering) is kept |
| Enrollment.Complete | src/ui.py:171-173 | both the registering and the training flags are cleared; samples, count, id and name are kept |
| Enrollment.CaptureRunFacts | src/ui.py:221-236 | over any run of registration frames, the samples are the old ones plus the run's faces in order, the count matches, and training starts at most once: exactly once iff not already running and the count reaches 50 |
| App.AttendanceApp.constructor | src/ui.py:28-51 | the state fields start unverified, with no queue, no user, an empty cooldown ledger, not registering and not training |
| App.AttendanceApp.OnFrame | src/ui.py:215-362 | a registration frame is exactly `Capture` of the crop and leaves the session alone; a recognition frame is exactly `Frame` of the recognition result and leaves registration alone; the ledger and log never change |
| App.AttendanceApp.CaptureFrame | src/ui.py:221-236 | the registration fields change exactly as `Capture` says |
| App.AttendanceApp.RecognitionFrame | src/ui.py:240-358 | the verification fields change exactly as `Frame` says |
| App.AttendanceApp.ChallengeStep | src/ui.py:262-315 | the verification fields change exactly as `ChallengeFrame` says |
| App.AttendanceApp.VerifiedStep | src/ui.py:317-330 | the verification fields change exactly as `VerifiedFrame` says |
| App.AttendanceApp.LoseFrame | src/ui.py:337-358 | the verification fields change exactly as `MissFrame` says |
| App.AttendanceApp.ManualPunch | src/ui.py:179-210 | callable only while the PUNCH buttons, its only callers, are enabled; returns `PunchDecision`; a commit is only for the verified current user; a refused or ignored punch changes nothing; a committed one appends one log row, stamps `last_punch_time[uid] = now` and clears the verification |
| App.AttendanceApp.RegisterUserBtn | src/ui.py:128-146 | registration fields change as `Start` says; a started registration also disables the buttons |
| App.AttendanceApp.FinishRegistration | src/ui.py:148-169 | reports a start iff training was not running; training is running afterwards; nothing else changes |
| App.AttendanceApp.RegistrationComplete | src/ui.py:171-177 | registration fields change as `Complete` says; the session is untouched |

## Left out

- Tk widgets, dialogs, status and instruction strings, the log panel, message boxes, and all OpenCV drawing and colour conversion are not modelled. They are presentation only; button state is the `gateOpen` flag.
- `current_user_name`, `reg_user_name`'s display use and the `user_map` cache are not modelled. They only feed messages and labels.
- Camera capture and the `root.after` rescheduling loop are not modelled. They are I/O and event-loop plumbing; `OnFrame` is one call per captured frame.
- The background training thread in `finish_registration` is not modelled: it is concurrency. Only the `is_training` guard is kept, with `RegistrationComplete` as the completion event. The model does not capture the thread reading `reg_samples` while frames keep appending to it.
- `save_samples` (writing files) and `load_model` are not modelled. They are file I/O; only the directory-name round trip of `save_samples` and `train_model` is.
- src/liveness.py is not part of this model. Its eye/mouth ratios and yaw estimate are floating-point numerics over face landmarks; its outputs enter as `Signals`.
- src/storage.py is not part of this model. It is SQLite I/O: `add_user`'s returned id is an input, and `log_attendance` is an append to `attendanceLog`.
- main.py is not part of this model. It only starts Tk.
- The MediaPipe detector, the LBPH recognizer, `imread` and `imwrite` are foreign library calls. The detector's box arrives already scaled to pixels, so the float multiplication `int(xmin * iw)` is not modelled. `predict` is a function parameter, and `imread` is the image (or `None`) recorded in each `FileEntry`.
- Frames are modelled as grayscale, so the BGR-to-gray conversion of the crop is not modelled.
- `random.sample` and `time.time()` are parameters (`draw`, `now`). All the `time.time()` calls in one handler are taken to be the same instant, in whole seconds.
- `challenge_start_time` is not modelled. It is written but never read, so no challenge timeout exists.
- The blanket `except Exception: pass` in `update_video` and the exception handlers in `train_model` are not modelled, except for the failing `np.int32` cast of an out-of-range label (`LabelOverflow`); a failure inside the recognizer's `train` or `write` is not modelled. Every modelled step is total, and a file whose size or image cannot be read is represented by size 0 or no image.
- Dataset.TrainModel: follows NumPy 2, where casting a label outside the 32-bit range raises; older NumPy wraps the label silently instead, which is not modelled.
- Dataset.ParseInt: accepts only an optional sign followed by ASCII digits. Python's `int()` also accepts surrounding whitespace, underscores between digits and non-ASCII digits.
- The recognizer's distance (`conf`) is modelled as an exact `real`, not a floating-point value.
