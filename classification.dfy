/**
 * The filtering state machine of the gesture classifier, as a function from
 * the state before a frame to the state after it and the command (if any)
 * the frame emits. Raw detections pass a hold-duration debounce, a
 * stability vote over the recent frames, a transition guard that asks for
 * neutral frames before switching gestures, and a cooldown between commands.
 */
module Classification {
  import opened Wrappers
  import opened Commands
  import opened Landmarks
  import opened Buffers
  import opened GestureDetection

  /** Minimum time between two emitted commands. */
  const COMMAND_COOLDOWN: real := 1.0
  /** How long the same detection must last before it can fire. */
  const GESTURE_HOLD_DURATION: real := 0.2
  /** Number of recent raw detections kept for the stability vote. */
  const FRAME_BUFFER_LEN: nat := 15
  /** Neutral frames needed before a gesture other than the last confirmed one can fire. */
  const REQUIRED_NEUTRAL_FRAMES: nat := 2

  /** The classifier's mutable fields. */
  datatype ClassifierState = ClassifierState(
    previousPositions: seq<real>,
    lastCommandTime: real,
    currentGesture: Option<Command>,
    gestureStartTime: Option<real>,
    frameBuffer: seq<Option<Command>>,
    lastConfirmedGesture: Option<Command>,
    neutralFrameCount: nat)

  /** The two deques stay within their capacities. */
  predicate Bounded(s: ClassifierState) {
    |s.previousPositions| <= POSITION_HISTORY_LEN && |s.frameBuffer| <= FRAME_BUFFER_LEN
  }

  /** The state of a new classifier: empty deques, no gesture, last command at time 0. */
  function Initial(): (s: ClassifierState)
    ensures Bounded(s)
  {
    ClassifierState([], 0.0, None, None, [], None, 0)
  }

  /**
   * What one call is given: the hands seen, the distance between the two
   * wrists (read only on the zoom-out path) and the current time.
   */
  datatype Frame = Frame(hands: seq<Hand>, wristDistance: real, now: real)

  datatype Step = Step(state: ClassifierState, command: Option<Command>)

  /**
   * The start time is tested for truth, so an unset start and a start at
   * time 0 both read as "no hold in progress".
   */
  predicate Truthy(t: Option<real>) {
    t.Some? && t.value != 0.0
  }

  /** The detection a frame with hands produces from state s. */
  function DetectIn(s: ClassifierState, f: Frame): (d: Detection)
    requires Bounded(s) && HandsReadable(f.hands)
    ensures |d.history| <= POSITION_HISTORY_LEN
  {
    Detect(s.previousPositions, f.hands, f.wristDistance)
  }

  /** One call of the classifier on one frame. */
  function Classify(s: ClassifierState, f: Frame): (r: Step)
    requires Bounded(s) && HandsReadable(f.hands)
    ensures Bounded(r.state)
    ensures |r.state.frameBuffer| == if |s.frameBuffer| < FRAME_BUFFER_LEN then |s.frameBuffer| + 1 else FRAME_BUFFER_LEN
    ensures r.state.neutralFrameCount <= s.neutralFrameCount + 1
    ensures r.command.None? ==>
      r.state.neutralFrameCount >= s.neutralFrameCount
      && r.state.lastCommandTime == s.lastCommandTime
      && r.state.lastConfirmedGesture == s.lastConfirmedGesture
    ensures r.command.Some? ==>
      f.now - s.lastCommandTime >= COMMAND_COOLDOWN
      && r.state.lastCommandTime == f.now
      && r.state.lastConfirmedGesture == r.command
      && r.state.neutralFrameCount == 0
      && r.state.gestureStartTime == None
    ensures f.hands != [] ==>
      r.state.frameBuffer == Append(s.frameBuffer, DetectIn(s, f).gesture, FRAME_BUFFER_LEN)
      && r.state.previousPositions == DetectIn(s, f).history
    ensures f.hands != [] && r.command.None? && DetectIn(s, f).gesture == s.currentGesture ==>
      r.state.currentGesture == s.currentGesture && r.state.gestureStartTime == s.gestureStartTime
    ensures f.hands != [] && r.command.None? ==>
      r.state.neutralFrameCount ==
        if DetectIn(s, f).gesture.None? && s.currentGesture.None? then s.neutralFrameCount + 1
        else s.neutralFrameCount
  {
    if f.hands == [] then
      Step(s.(neutralFrameCount := s.neutralFrameCount + 1,
              frameBuffer := Append(s.frameBuffer, None, FRAME_BUFFER_LEN),
              currentGesture := None,
              gestureStartTime := None),
           None)
    else
      var d := DetectIn(s, f);
      var seen := s.(previousPositions := d.history,
                     frameBuffer := Append(s.frameBuffer, d.gesture, FRAME_BUFFER_LEN));
      if d.gesture != s.currentGesture then
        Step(seen.(currentGesture := d.gesture, gestureStartTime := Some(f.now)), None)
      else if d.gesture.Some? && Truthy(s.gestureStartTime)
              && f.now - s.gestureStartTime.value >= GESTURE_HOLD_DURATION
              && Stable(seen.frameBuffer, d.gesture) then
        if s.lastConfirmedGesture.Some? && d.gesture != s.lastConfirmedGesture
           && s.neutralFrameCount < REQUIRED_NEUTRAL_FRAMES then
          Step(seen, None)
        else if f.now - s.lastCommandTime < COMMAND_COOLDOWN then
          Step(seen, None)
        else
          Step(seen.(lastCommandTime := f.now,
                     lastConfirmedGesture := d.gesture,
                     neutralFrameCount := 0,
                     gestureStartTime := None),
               d.gesture)
      else
        Step(seen.(neutralFrameCount := if d.gesture.None? then s.neutralFrameCount + 1 else s.neutralFrameCount), None)
  }

  /**
   * The frame repeats the detection in progress, a real gesture, without
   * entering the firing checks: the hold is not running, not long enough,
   * or the gesture is not yet stable.
   */
  predicate RepeatBeforeChecks(s: ClassifierState, f: Frame)
    requires Bounded(s) && HandsReadable(f.hands)
  {
    var g := DetectIn(s, f).gesture;
    && f.hands != []
    && g.Some? && g == s.currentGesture
    && !(Truthy(s.gestureStartTime)
         && f.now - s.gestureStartTime.value >= GESTURE_HOLD_DURATION
         && Stable(Append(s.frameBuffer, g, FRAME_BUFFER_LEN), g))
  }

  /**
   * One call exactly as the source writes it: identical to Classify except
   * that a repeated gesture that has not reached the checks also clears the
   * neutral count.
   */
  function ClassifyAsWritten(s: ClassifierState, f: Frame): (r: Step)
    requires Bounded(s) && HandsReadable(f.hands)
    ensures Bounded(r.state)
    ensures r.command == Classify(s, f).command
    ensures r.state == Classify(s, f).state.(neutralFrameCount := r.state.neutralFrameCount)
    ensures RepeatBeforeChecks(s, f) ==> r.state.neutralFrameCount == 0
    ensures !RepeatBeforeChecks(s, f) ==> r == Classify(s, f)
  {
    var r := Classify(s, f);
    if RepeatBeforeChecks(s, f) then Step(r.state.(neutralFrameCount := 0), None) else r
  }

  /**
   * Either step: the source's own when asWritten holds, the corrected one
   * otherwise. Both emit the same command and leave the same fields, apart
   * from the neutral count.
   */
  function ClassifyBy(asWritten: bool, s: ClassifierState, f: Frame): (r: Step)
    requires Bounded(s) && HandsReadable(f.hands)
    ensures Bounded(r.state)
    ensures r.command == Classify(s, f).command
    ensures r.state == Classify(s, f).state.(neutralFrameCount := r.state.neutralFrameCount)
    ensures r.state.neutralFrameCount <= s.neutralFrameCount + 1
    ensures !asWritten ==> r.state.neutralFrameCount == Classify(s, f).state.neutralFrameCount
  {
    if asWritten then ClassifyAsWritten(s, f) else Classify(s, f)
  }

  /**
   * The discrepancy itself. As written, the frames in which a new gesture is
   * being held clear the neutral count, so the neutral frames seen before
   * the gesture started are forgotten before its hold completes; the
   * corrected step keeps them.
   */
  lemma AsWrittenHoldClearsNeutralCount(s: ClassifierState, f: Frame)
    requires Bounded(s) && HandsReadable(f.hands)
    requires f.hands != [] && DetectIn(s, f).gesture.Some? && DetectIn(s, f).gesture == s.currentGesture
    requires Truthy(s.gestureStartTime) && f.now - s.gestureStartTime.value < GESTURE_HOLD_DURATION
    ensures ClassifyAsWritten(s, f).command == None && Classify(s, f).command == None
    ensures ClassifyAsWritten(s, f).state.neutralFrameCount == 0
    ensures Classify(s, f).state.neutralFrameCount == s.neutralFrameCount
  {
  }

  /**
   * As written, holding a gesture other than the last confirmed one with
   * fewer than the required neutral frames is a trap: the frame emits
   * nothing and leaves the classifier in the same situation, so the gesture
   * never fires however long it is held. The corrected step keeps the same
   * situation too; the two differ in whether it arises at all, since only
   * the source's step clears neutral frames already counted during the hold
   * (AsWrittenHoldClearsNeutralCount, and Runs.NeutralFramesAreKept for the
   * corrected one).
   */
  lemma AsWrittenSwitchIsATrap(s: ClassifierState, f: Frame)
    requires Bounded(s) && HandsReadable(f.hands)
    requires s.lastConfirmedGesture.Some? && s.currentGesture.Some?
    requires s.currentGesture != s.lastConfirmedGesture
    requires s.neutralFrameCount < REQUIRED_NEUTRAL_FRAMES
    requires f.hands != [] && DetectIn(s, f).gesture == s.currentGesture
    ensures ClassifyAsWritten(s, f).command == None
    ensures ClassifyAsWritten(s, f).state.neutralFrameCount < REQUIRED_NEUTRAL_FRAMES
    ensures ClassifyAsWritten(s, f).state.currentGesture == s.currentGesture
    ensures ClassifyAsWritten(s, f).state.lastConfirmedGesture == s.lastConfirmedGesture
  {
  }

  /**
   * Once the required neutral frames are still counted when the hold ends, a
   * held gesture other than the last confirmed one fires as soon as it has
   * been held long enough, is stable and the cooldown has passed. Both steps
   * agree on this; only in the corrected one do the neutral frames survive
   * the hold.
   */
  lemma SwitchFiresAfterNeutralFrames(s: ClassifierState, f: Frame)
    requires Bounded(s) && HandsReadable(f.hands)
    requires s.neutralFrameCount >= REQUIRED_NEUTRAL_FRAMES
    requires f.hands != [] && DetectIn(s, f).gesture.Some? && DetectIn(s, f).gesture == s.currentGesture
    requires Truthy(s.gestureStartTime) && f.now - s.gestureStartTime.value >= GESTURE_HOLD_DURATION
    requires Stable(Append(s.frameBuffer, s.currentGesture, FRAME_BUFFER_LEN), s.currentGesture)
    requires f.now - s.lastCommandTime >= COMMAND_COOLDOWN
    ensures Classify(s, f).command == s.currentGesture
  {
  }

  /**
   * A frame without hands emits nothing, counts one more neutral frame,
   * records "nothing" in the frame buffer and drops the gesture in progress;
   * the other fields are untouched.
   */
  lemma NoHandsIsNeutral(s: ClassifierState, f: Frame)
    requires Bounded(s) && f.hands == []
    ensures var r := Classify(s, f);
      && r.command == None
      && r.state.neutralFrameCount == s.neutralFrameCount + 1
      && r.state.frameBuffer == Append(s.frameBuffer, None, FRAME_BUFFER_LEN)
      && r.state.currentGesture == None
      && r.state.gestureStartTime == None
      && r.state.previousPositions == s.previousPositions
      && r.state.lastCommandTime == s.lastCommandTime
      && r.state.lastConfirmedGesture == s.lastConfirmedGesture
  {
  }

  /**
   * A detection that differs from the gesture in progress never fires: it
   * becomes the gesture in progress and its hold starts now.
   */
  lemma NewGestureNeverFires(s: ClassifierState, f: Frame)
    requires Bounded(s) && HandsReadable(f.hands) && f.hands != []
    requires DetectIn(s, f).gesture != s.currentGesture
    ensures Classify(s, f).command == None
    ensures Classify(s, f).state.currentGesture == DetectIn(s, f).gesture
    ensures Classify(s, f).state.gestureStartTime == Some(f.now)
  {
  }

  /** All the checks a detection must pass to be emitted. */
  predicate ChecksPass(s: ClassifierState, f: Frame)
    requires Bounded(s) && HandsReadable(f.hands)
  {
    var g := DetectIn(s, f).gesture;
    && f.hands != []
    && g.Some? && g == s.currentGesture
    && Truthy(s.gestureStartTime)
    && f.now - s.gestureStartTime.value >= GESTURE_HOLD_DURATION
    && Stable(Append(s.frameBuffer, g, FRAME_BUFFER_LEN), g)
    && (s.lastConfirmedGesture.Some? && s.lastConfirmedGesture != g ==>
          s.neutralFrameCount >= REQUIRED_NEUTRAL_FRAMES)
    && f.now - s.lastCommandTime >= COMMAND_COOLDOWN
  }

  /**
   * A command is emitted exactly when every check passes, and it is then the
   * detected gesture, which is also the gesture in progress.
   */
  lemma FiresExactlyWhenChecksPass(s: ClassifierState, f: Frame)
    requires Bounded(s) && HandsReadable(f.hands)
    ensures Classify(s, f).command.Some? <==> ChecksPass(s, f)
    ensures Classify(s, f).command.Some? ==>
      Classify(s, f).command == DetectIn(s, f).gesture == s.currentGesture
  {
  }

  /**
   * Firing stamps the command time, remembers the command as the last
   * confirmed one, resets the neutral count and ends the hold, while the
   * gesture in progress stays what it was.
   */
  lemma FiringResetsHold(s: ClassifierState, f: Frame)
    requires Bounded(s) && HandsReadable(f.hands)
    requires Classify(s, f).command.Some?
    ensures Classify(s, f).state == s.(
      previousPositions := DetectIn(s, f).history,
      frameBuffer := Append(s.frameBuffer, Classify(s, f).command, FRAME_BUFFER_LEN),
      lastCommandTime := f.now,
      lastConfirmedGesture := Classify(s, f).command,
      neutralFrameCount := 0,
      gestureStartTime := None)
  {
  }

  /**
   * Transition guard: while fewer than the required neutral frames have
   * been seen, only the last confirmed gesture can fire again.
   */
  lemma TransitionGuard(s: ClassifierState, f: Frame)
    requires Bounded(s) && HandsReadable(f.hands)
    requires s.lastConfirmedGesture.Some? && s.neutralFrameCount < REQUIRED_NEUTRAL_FRAMES
    ensures Classify(s, f).command == None || Classify(s, f).command == s.lastConfirmedGesture
  {
  }

  /**
   * With no hold in progress, a frame that keeps the gesture in progress
   * emits nothing and starts no hold: a gesture that fired cannot fire again
   * until the gesture in progress changes.
   */
  lemma NoHoldNoFire(s: ClassifierState, f: Frame)
    requires Bounded(s) && HandsReadable(f.hands)
    requires s.gestureStartTime == None
    requires Classify(s, f).state.currentGesture == s.currentGesture
    ensures Classify(s, f).command == None
    ensures Classify(s, f).state.gestureStartTime == None
  {
  }

  /** The neutral count grows only on a frame in which nothing was detected. */
  lemma NeutralCountGrowsOnlyOnNothing(s: ClassifierState, f: Frame)
    requires Bounded(s) && HandsReadable(f.hands)
    requires Classify(s, f).state.neutralFrameCount > s.neutralFrameCount
    ensures f.hands == [] || DetectIn(s, f).gesture == None
  {
  }
}
