# Gesture classifier of the gesture-controlled presentation server

This project models the `GestureClassifier` of the presentation server's
backend (`backend/gesture_classifier.py`). It turns the hand landmarks of
one webcam frame into at most one presentation command: `next`, `prev`,
`start`, `pause`, `zoom_in` or `zoom_out`. Before a raw detection is
emitted, it goes through four filters:

- a hold time of 0.2 s;
- a stability vote (4 of the last 6 detections);
- a transition guard (2 neutral frames before a gesture other than the last one emitted);
- a cooldown of 1 s between commands.

Modules (one file each, no nesting):

- `Wrappers`: `Option`.
- `Commands`: the six command tokens and `get_gesture_info`.
- `Landmarks`: points, hands and the landmark predicates, including the pose exclusivity facts and single-hand detection.
- `Buffers`: the bounded deque append and the stability vote.
- `GestureDetection`: the zoom-out distance history and `_detect_current_gesture`, as pure functions of the history they update.
- `Classification`: the whole classifier state as a value, with `Classify`, the pure specification of one `classify_gesture` call.
- `Runs`: sequences of calls, and what the filters guarantee across frames.
- `Classifier`: the class `GestureClassifier` with the source's fields. Its methods update those fields step by step, in the order the source does. Each is proved to agree with the pure specification, which means the corrected step for `ClassifyGesture` (see below).

The clock (`time.time()`) is a `now` parameter. The wrist distance that the source computes with `np.linalg.norm` is a `wristDistance` parameter.

`Classify` and the class follow `classify_gesture` as written, with one exception. On a repeated real gesture that does not reach the guard and cooldown checks (no hold running, held under 0.2 s, or not yet stable), the corrected step keeps the neutral count; lines 96-97 clear it. That reset defeats the transition guard; see "## Findings". `ClassifyAsWritten` is the step exactly as written. `ClassifyBy` selects either step, and every guarantee proved over runs of frames holds for both, except `Runs.NeutralFramesAreKept`, which is the corrected step's.

## Model

| member | source | states |
|---|---|---|
| Commands.Token | backend/gesture_classifier.py:120-143 | every command is emitted as a non-empty token: `next`, `prev`, `start`, `pause`, `zoom_in`, `zoom_out` |
| Commands.ParseToken | backend/gesture_classifier.py:120-143 | each command's token parses back to the same command, so the six tokens are distinct |
| Commands.Parse | backend/gesture_classifier.py:284-295 | a token recognised as a command is exactly that command's token |
| Commands.GestureInfo | backend/gesture_classifier.py:284-295 | a known token maps to its command's description; the result is "Unknown Command" exactly when the token is not one of the six |
| Landmarks.TwoFingersRight | backend/gesture_classifier.py:195-211 | index and middle raised above their middle joints, ring and pinky folded, both raised tips more than 0.1 to the right of the wrist |
| Landmarks.OneFingerLeft | backend/gesture_classifier.py:213-226 | index raised, middle, ring and pinky folded, index tip more than 0.1 to the left of the wrist; the thumb test of line 219 is not part of the result |
| Landmarks.ThumbsUpStrict | backend/gesture_classifier.py:147-182 | thumb tip above its base, more vertical than 0.8 times its horizontal offset, more than 0.15 above the wrist, all four fingers folded |
| Landmarks.OpenPalm | backend/gesture_classifier.py:184-193 | thumb tip above its IP joint and all four fingertips above their middle joints |
| Landmarks.FrameHand | backend/gesture_classifier.py:233-241 | thumb spread sideways by more than 0.05, index raised, middle, ring and pinky folded |
| Landmarks.ThreeFingerHand | backend/gesture_classifier.py:250-258 | thumb spread sideways by more than 0.04, index and middle raised, ring and pinky folded |
| Landmarks.FrameGesture | backend/gesture_classifier.py:228-243 | exactly two hands, both frame hands |
| Landmarks.ThreeFingerPair | backend/gesture_classifier.py:247-262 | exactly two hands, both three-finger hands |
| Landmarks.SingleHandPosesExclusive | backend/gesture_classifier.py:147-226 | no hand satisfies two of two-fingers-right, one-finger-left, strict thumbs-up and open palm |
| Landmarks.TwoHandShapesExclusive | backend/gesture_classifier.py:228-262 | no hand is both a frame hand and a three-finger hand, so no pair is both a frame gesture and a three-finger pair |
| Landmarks.DetectOneHand | backend/gesture_classifier.py:126-143 | one hand gives `next` iff two fingers point right, `prev` iff one finger points left, `start` iff strict thumbs-up, `pause` iff open palm, nothing otherwise; never a zoom |
| Buffers.Append | backend/gesture_classifier.py:20-30 | the bounded deque grows by one below capacity and stays at capacity otherwise, the new item last |
| Buffers.AppendKeepsNewest | backend/gesture_classifier.py:20-30 | everything before the new item is the newest part of the old deque; only the oldest entry is dropped |
| Buffers.OccurrencesIsMultiplicity | backend/gesture_classifier.py:106-108 | the counted votes equal the multiplicity of the gesture in the window |
| Buffers.Stable | backend/gesture_classifier.py:101-111 | false below 6 entries; otherwise at least 4 of the newest 6 entries equal the gesture |
| Buffers.StableIsUnique | backend/gesture_classifier.py:101-111 | at most one gesture is stable at a time (4 of 6 votes for two different gestures cannot coexist) |
| GestureDetection.ZoomOutStep | backend/gesture_classifier.py:245-282 | no three-finger pair gives false with the history untouched; otherwise the distance is appended (at most 10 kept); true exactly when the hands are a three-finger pair and the appended history has at least 5 samples whose oldest exceeds the newest by more than 0.1, and then the history is cleared |
| GestureDetection.ZoomOutNeedsFiveSamples | backend/gesture_classifier.py:269-272 | while fewer than 5 distances have been recorded, zoom-out never fires |
| GestureDetection.Detect | backend/gesture_classifier.py:113-145 | 0 or 3+ hands give nothing; one hand gives the single-hand detection; two hands give only `zoom_in` (iff frame gesture) or `zoom_out` (iff the zoom-out step fires); the history changes only for two hands, and then it is untouched by a frame gesture and is the zoom-out step's history otherwise |
| Classification.Initial | backend/gesture_classifier.py:18-35 | the initial state satisfies the deque bounds |
| Classification.Classify | backend/gesture_classifier.py:37-99 | buffer grows by one up to 15; neutral count grows by at most one and never drops unless a command is emitted; without a command the cooldown clock and last confirmed gesture are unchanged; a command implies the cooldown has passed, stamps `now`, becomes the last confirmed gesture, clears the neutral count and the hold start; any frame with hands appends its detection to the buffer and leaves the detection's zoom history; a repeated detection that does not fire keeps the current gesture and the hold start; a frame with hands that emits nothing adds one neutral frame exactly when it repeats a detection of nothing (lines 94-95), and otherwise keeps the count (a new detection, lines 64-67, or a real gesture) |
| Classification.ClassifyAsWritten | backend/gesture_classifier.py:37-99 | the source's step: same command and same fields as `Classify` except the neutral count; on a repeated real gesture that has not reached the firing checks (lines 96-97) the count is cleared, and on every other frame the step is `Classify` |
| Classification.ClassifyBy | backend/gesture_classifier.py:37-99 | either step keeps the deque bounds, emits `Classify`'s command, leaves `Classify`'s fields apart from the neutral count, and raises that count by at most one |
| Classification.AsWrittenHoldClearsNeutralCount | backend/gesture_classifier.py:70-97 | on a repeated gesture whose hold is still short, both steps emit nothing; as written the neutral count is cleared, while the corrected step keeps it |
| Classification.AsWrittenSwitchIsATrap | backend/gesture_classifier.py:77-97 | as written, holding a gesture other than the last confirmed one with fewer than 2 neutral frames emits nothing and keeps that situation, so it never fires |
| Classification.SwitchFiresAfterNeutralFrames | backend/gesture_classifier.py:69-91 | with 2 neutral frames seen, a held, stable gesture past its hold and the cooldown fires even if it differs from the last one |
| Classification.NoHandsIsNeutral | backend/gesture_classifier.py:47-53 | no hands: no command, neutral count +1, `None` appended to the buffer, current gesture and hold start cleared, everything else unchanged |
| Classification.NewGestureNeverFires | backend/gesture_classifier.py:63-67 | a detection different from the current gesture emits nothing, becomes current and starts its hold at `now` |
| Classification.FiresExactlyWhenChecksPass | backend/gesture_classifier.py:69-91 | a command is emitted iff the detection repeats the current gesture, the hold started and lasted 0.2 s, the gesture is stable, the guard and the cooldown pass; the command is the detection |
| Classification.FiringResetsHold | backend/gesture_classifier.py:86-91 | firing sets the cooldown clock, the last confirmed gesture, clears the neutral count and the hold start, and keeps the updated buffer and history |
| Classification.TransitionGuard | backend/gesture_classifier.py:77-80 | with a last confirmed gesture and fewer than 2 neutral frames, only that same gesture can be emitted |
| Classification.NoHoldNoFire | backend/gesture_classifier.py:64-74 | with no hold running and an unchanged detection, nothing fires and no hold starts |
| Classification.NeutralCountGrowsOnlyOnNothing | backend/gesture_classifier.py:93-95 | the neutral count grows only on frames where nothing is detected |
| Runs.TraceIsRun | backend/gesture_classifier.py:37-99 | feeding frames one by one to the step function yields a run whose states stay within the deque bounds; for the source's step and the corrected one alike |
| Runs.RunIsUnique | backend/gesture_classifier.py:37-99 | the classifier is deterministic: two runs over the same frames from the same state agree on every state and command; for the source's step and the corrected one alike |
| Runs.CommandsAreCooldownApart | backend/gesture_classifier.py:82-87 | any two commands emitted in one run are at least 1 s of `now` apart, whatever the clock readings in between; for the source's step and the corrected one alike |
| Runs.HeldGestureFiresOnce | backend/gesture_classifier.py:64-91 | after a command, nothing fires again while the current gesture stays the same; for the source's step and the corrected one alike |
| Runs.DifferentCommandsNeedNeutralFrames | backend/gesture_classifier.py:77-80 | two consecutive different commands are at least 3 frames apart; for the source's step and the corrected one alike |
| Runs.NeutralFramesAreKept | backend/gesture_classifier.py:77-80 | in the corrected step, between commands the neutral count never drops, so a satisfied transition guard stays satisfied while the next gesture is held |
| Runs.HoldStartedAt | backend/gesture_classifier.py:63-70 | from a state with no hold, a running hold started at the time of an earlier call, and every call since then detected the gesture in progress; for the source's step and the corrected one alike |
| Runs.CommandWasHeld | backend/gesture_classifier.py:63-91 | every emitted command was detected on every call from one at least 0.2 s earlier up to the call that emits it; for the source's step and the corrected one alike |
| Runs.BufferFillsOnePerCall | backend/gesture_classifier.py:30 | from an empty buffer, after k calls the buffer holds min(k, 15) entries; for the source's step and the corrected one alike |
| Runs.FirstFiveFramesAreSilent | backend/gesture_classifier.py:101-104 | from the initial state, none of the first five calls emits a command; for the source's step and the corrected one alike |
| Classifier.GestureClassifier.constructor | backend/gesture_classifier.py:18-35 | a new classifier is in the initial state |
| Classifier.GestureClassifier.DetectZoomOutGesture | backend/gesture_classifier.py:245-282 | the answer and the updated history field are those of the zoom-out step on the old history |
| Classifier.GestureClassifier.DetectCurrentGesture | backend/gesture_classifier.py:113-145 | the detection and the updated history field are those of the pure detection on the old history |
| Classifier.GestureClassifier.ClassifyGesture | backend/gesture_classifier.py:37-99 | the returned command and the new fields are exactly one `Classify` step from the old fields, and the deque bounds are kept |

## Left out

- Reading the clock (`time.time()`, line 55): the time is the `now` parameter of each call.
- The Euclidean norm of the wrist vector (lines 265-267): the distance is the `wristDistance` parameter, so its relation to the landmarks is not modelled.
- IEEE floating point: coordinates, thresholds and times are `real`, so rounding is not captured.
- The landmark `z` coordinate and any landmark beyond index 20: neither is read by the classifier.
- Hands with fewer than 21 landmarks: the source may raise an IndexError on them. The model takes complete hands as a precondition (`HandsReadable`). It therefore also excludes an incomplete second hand that the source would never read, because the `and` at lines 243 and 260-261 stops after a first hand of neither two-hand shape. The hand tracker always delivers all 21 landmarks.
- The `gesture_threshold` field (line 23): it is never read.
- The computed but unused `thumb_curled` (line 219): it is not modelled.
- Console output and the webcam and WebSocket server: backend/webcam_reader.py and backend/run_server.py are not part of this model.
- `Classification.Classify`: it is the corrected step. On a repeated real gesture that does not reach the guard and cooldown checks (no hold running, held under 0.2 s, or not yet stable) it keeps the neutral count, where lines 96-97 clear it; `ClassifyAsWritten` is the step as written. See "## Findings".
- `Classifier.GestureClassifier.ClassifyGesture`: it implements the corrected step. It keeps the neutral count on a repeated real gesture that does not reach the guard and cooldown checks (no hold running, held under 0.2 s, or not yet stable), where lines 96-97 clear it; see "## Findings".

## Findings

| source | as written | input that shows it | evidently intended | confidence | as-written member | corrected member |
|---|---|---|---|---|---|---|
| backend/gesture_classifier.py:93-97 | every repeated real-gesture frame that does not reach the guard and cooldown checks (no hold running, held under 0.2 s, or not yet stable) falls through to lines 93-97 and resets `neutral_frame_count` to 0, including the frames where a new gesture is still being held | after `next` fires, the hands are lowered for two frames, then `prev` is held at 30 frames per second: its second frame, 0.033 s into the hold, clears the count; once held 0.2 s the guard at lines 78-80 returns None with the count left at 0, so `prev` never fires while held | neutral frames seen since the last command count toward the transition guard of the next gesture (the docstring's "neutral state between different gestures") | high, not executed | Classification.AsWrittenHoldClearsNeutralCount | Runs.NeutralFramesAreKept |
