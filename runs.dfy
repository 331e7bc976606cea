/**
 * The classifier over a sequence of frames: the states it passes through,
 * the commands it emits, and what the filters guarantee across several
 * calls. A run follows either the source's own step (asWritten) or the
 * corrected one; every guarantee below except NeutralFramesAreKept holds
 * for both.
 */
module Runs {
  import opened Wrappers
  import opened Commands
  import opened Landmarks
  import opened Buffers
  import opened Classification

  predicate AllReadable(frames: seq<Frame>) {
    forall k :: 0 <= k < |frames| ==> HandsReadable(frames[k].hands)
  }

  /** Call k of the run takes states[k] to states[k + 1] and returns commands[k]. */
  predicate StepOk(
    asWritten: bool, frames: seq<Frame>, states: seq<ClassifierState>, commands: seq<Option<Command>>, k: nat)
    requires AllReadable(frames) && |states| == |frames| + 1 && |commands| == |frames| && k < |frames|
    requires Bounded(states[k])
  {
    ClassifyBy(asWritten, states[k], frames[k]) == Step(states[k + 1], commands[k])
  }

  /**
   * states and commands are what the classifier goes through and returns
   * when it is called on the frames in order, starting from states[0].
   */
  predicate IsRun(asWritten: bool, frames: seq<Frame>, states: seq<ClassifierState>, commands: seq<Option<Command>>) {
    && AllReadable(frames)
    && |states| == |frames| + 1
    && |commands| == |frames|
    && (forall k :: 0 <= k < |states| ==> Bounded(states[k]))
    && (forall k :: 0 <= k < |frames| ==> StepOk(asWritten, frames, states, commands, k))
  }

  /** The states before each frame and after the last, computed call by call. */
  function Trace(asWritten: bool, s: ClassifierState, frames: seq<Frame>): (t: seq<ClassifierState>)
    requires Bounded(s) && AllReadable(frames)
    ensures |t| == |frames| + 1 && t[0] == s
    ensures forall k :: 0 <= k < |t| ==> Bounded(t[k])
    decreases |frames|
  {
    if frames == [] then [s]
    else [s] + Trace(asWritten, ClassifyBy(asWritten, s, frames[0]).state, frames[1..])
  }

  /** The commands the frames emit, one entry per frame. */
  function Outputs(asWritten: bool, s: ClassifierState, frames: seq<Frame>): (out: seq<Option<Command>>)
    requires Bounded(s) && AllReadable(frames)
    ensures |out| == |frames|
    decreases |frames|
  {
    if frames == [] then []
    else
      var step := ClassifyBy(asWritten, s, frames[0]);
      [step.command] + Outputs(asWritten, step.state, frames[1..])
  }

  /** Trace and Outputs form a run: every call of it is one call of the classifier. */
  lemma {:induction false} TraceIsRun(asWritten: bool, s: ClassifierState, frames: seq<Frame>)
    requires Bounded(s) && AllReadable(frames)
    ensures IsRun(asWritten, frames, Trace(asWritten, s, frames), Outputs(asWritten, s, frames))
    decreases |frames|
  {
    if frames != [] {
      var step := ClassifyBy(asWritten, s, frames[0]);
      TraceIsRun(asWritten, step.state, frames[1..]);
      var t, out := Trace(asWritten, s, frames), Outputs(asWritten, s, frames);
      var t', out' := Trace(asWritten, step.state, frames[1..]), Outputs(asWritten, step.state, frames[1..]);
      assert t == [s] + t' && out == [step.command] + out';
      forall k | 0 <= k < |frames|
        ensures StepOk(asWritten, frames, t, out, k)
      {
        if k > 0 {
          assert StepOk(asWritten, frames[1..], t', out', k - 1);
        }
      }
    }
  }

  /** Two runs over the same frames from the same first state agree up to state k. */
  lemma {:induction false} RunsAgreeUpTo(
    asWritten: bool, frames: seq<Frame>,
    states: seq<ClassifierState>, commands: seq<Option<Command>>,
    states': seq<ClassifierState>, commands': seq<Option<Command>>, k: nat)
    requires IsRun(asWritten, frames, states, commands) && IsRun(asWritten, frames, states', commands')
    requires states[0] == states'[0] && k <= |frames|
    ensures states[k] == states'[k]
    ensures forall m :: 0 <= m < k ==> commands[m] == commands'[m]
    decreases k
  {
    if k > 0 {
      RunsAgreeUpTo(asWritten, frames, states, commands, states', commands', k - 1);
      var before := states[k - 1];
      assert states'[k - 1] == before;
      var step := ClassifyBy(asWritten, before, frames[k - 1]);
      assert StepOk(asWritten, frames, states, commands, k - 1);
      assert step == Step(states[k], commands[k - 1]);
      assert StepOk(asWritten, frames, states', commands', k - 1);
      assert step == Step(states'[k], commands'[k - 1]);
    }
  }

  /** A run is determined by its first state and its frames: the classifier is deterministic. */
  lemma RunIsUnique(
    asWritten: bool, frames: seq<Frame>,
    states: seq<ClassifierState>, commands: seq<Option<Command>>,
    states': seq<ClassifierState>, commands': seq<Option<Command>>)
    requires IsRun(asWritten, frames, states, commands) && IsRun(asWritten, frames, states', commands')
    requires states[0] == states'[0]
    ensures states == states' && commands == commands'
  {
    forall k | 0 <= k < |states|
      ensures states[k] == states'[k]
    {
      RunsAgreeUpTo(asWritten, frames, states, commands, states', commands', k);
    }
    RunsAgreeUpTo(asWritten, frames, states, commands, states', commands', |frames|);
  }

  /** What one call of a run does to the fields the multi-frame guarantees follow. */
  lemma StepFacts(asWritten: bool, frames: seq<Frame>, states: seq<ClassifierState>, commands: seq<Option<Command>>, k: nat)
    requires IsRun(asWritten, frames, states, commands) && k < |frames|
    ensures states[k + 1].neutralFrameCount <= states[k].neutralFrameCount + 1
    ensures commands[k].None? ==>
      states[k + 1].lastCommandTime == states[k].lastCommandTime
      && states[k + 1].lastConfirmedGesture == states[k].lastConfirmedGesture
    ensures commands[k].Some? ==>
      frames[k].now - states[k].lastCommandTime >= COMMAND_COOLDOWN
      && states[k + 1].lastCommandTime == frames[k].now
      && states[k + 1].lastConfirmedGesture == commands[k]
      && states[k + 1].neutralFrameCount == 0
      && states[k + 1].gestureStartTime == None
  {
    assert StepOk(asWritten, frames, states, commands, k);
  }

  /** The time of the last command never moves backwards along a run. */
  lemma {:induction false} CommandClockMonotone(
    asWritten: bool, frames: seq<Frame>, states: seq<ClassifierState>, commands: seq<Option<Command>>, a: nat, b: nat)
    requires IsRun(asWritten, frames, states, commands)
    requires a <= b <= |frames|
    ensures states[a].lastCommandTime <= states[b].lastCommandTime
    decreases b
  {
    if a < b {
      CommandClockMonotone(asWritten, frames, states, commands, a, b - 1);
      StepFacts(asWritten, frames, states, commands, b - 1);
    }
  }

  /**
   * Any two commands emitted in one run are at least the cooldown apart,
   * whatever the clock readings in between.
   */
  lemma CommandsAreCooldownApart(
    asWritten: bool, frames: seq<Frame>, states: seq<ClassifierState>, commands: seq<Option<Command>>, i: nat, j: nat)
    requires IsRun(asWritten, frames, states, commands)
    requires i < j < |frames|
    requires commands[i].Some? && commands[j].Some?
    ensures frames[j].now - frames[i].now >= COMMAND_COOLDOWN
  {
    StepFacts(asWritten, frames, states, commands, i);
    CommandClockMonotone(asWritten, frames, states, commands, i + 1, j);
    StepFacts(asWritten, frames, states, commands, j);
  }

  /** With no hold in progress, a call that keeps the gesture emits nothing and starts no hold. */
  lemma HoldStep(asWritten: bool, frames: seq<Frame>, states: seq<ClassifierState>, commands: seq<Option<Command>>, k: nat)
    requires IsRun(asWritten, frames, states, commands) && k < |frames|
    requires states[k].gestureStartTime == None
    requires states[k + 1].currentGesture == states[k].currentGesture
    ensures commands[k] == None
    ensures states[k + 1].gestureStartTime == None
  {
    assert StepOk(asWritten, frames, states, commands, k);
    NoHoldNoFire(states[k], frames[k]);
  }

  /** After a command, no hold is in progress for as long as the gesture stays the same. */
  lemma {:induction false} NoHoldSince(
    asWritten: bool, frames: seq<Frame>, states: seq<ClassifierState>, commands: seq<Option<Command>>, i: nat, k: nat)
    requires IsRun(asWritten, frames, states, commands)
    requires i < k <= |frames|
    requires commands[i].Some?
    requires forall m :: i < m < k ==> states[m + 1].currentGesture == states[m].currentGesture
    ensures states[k].gestureStartTime == None
    decreases k
  {
    if k == i + 1 {
      StepFacts(asWritten, frames, states, commands, i);
    } else {
      NoHoldSince(asWritten, frames, states, commands, i, k - 1);
      HoldStep(asWritten, frames, states, commands, k - 1);
    }
  }

  /**
   * A gesture that fired cannot fire again while the gesture in progress
   * stays unchanged: some call in between must replace it.
   */
  lemma HeldGestureFiresOnce(
    asWritten: bool, frames: seq<Frame>, states: seq<ClassifierState>, commands: seq<Option<Command>>, i: nat, j: nat)
    requires IsRun(asWritten, frames, states, commands)
    requires i < j < |frames|
    requires commands[i].Some?
    requires forall m :: i < m < j ==> states[m + 1].currentGesture == states[m].currentGesture
    ensures commands[j] == None
  {
    NoHoldSince(asWritten, frames, states, commands, i, j);
    assert StepOk(asWritten, frames, states, commands, j);
    FiresExactlyWhenChecksPass(states[j], frames[j]);
  }

  /**
   * Between a command and the next one, the last confirmed gesture is the
   * first command and the neutral count has grown by at most one per call.
   */
  lemma {:induction false} QuietAfterCommand(
    asWritten: bool, frames: seq<Frame>, states: seq<ClassifierState>, commands: seq<Option<Command>>, i: nat, k: nat)
    requires IsRun(asWritten, frames, states, commands)
    requires i < k <= |frames|
    requires commands[i].Some?
    requires forall m :: i < m < k ==> commands[m].None?
    ensures states[k].lastConfirmedGesture == commands[i]
    ensures states[k].neutralFrameCount <= k - i - 1
    decreases k
  {
    StepFacts(asWritten, frames, states, commands, k - 1);
    if k > i + 1 {
      QuietAfterCommand(asWritten, frames, states, commands, i, k - 1);
    }
  }

  /**
   * Two consecutive commands that differ are at least three calls apart:
   * the transition guard needs two neutral frames between them.
   */
  lemma DifferentCommandsNeedNeutralFrames(
    asWritten: bool, frames: seq<Frame>, states: seq<ClassifierState>, commands: seq<Option<Command>>, i: nat, j: nat)
    requires IsRun(asWritten, frames, states, commands)
    requires i < j < |frames|
    requires commands[i].Some? && commands[j].Some? && commands[i] != commands[j]
    requires forall m :: i < m < j ==> commands[m].None?
    ensures j - i >= REQUIRED_NEUTRAL_FRAMES + 1
  {
    QuietAfterCommand(asWritten, frames, states, commands, i, j);
    if j - i < REQUIRED_NEUTRAL_FRAMES + 1 {
      assert StepOk(asWritten, frames, states, commands, j);
      TransitionGuard(states[j], frames[j]);
      assert false;
    }
  }

  /** From a fresh classifier, the frame buffer holds one entry per call made so far, up to its capacity. */
  lemma {:induction false} BufferFillsOnePerCall(
    asWritten: bool, frames: seq<Frame>, states: seq<ClassifierState>, commands: seq<Option<Command>>, k: nat)
    requires IsRun(asWritten, frames, states, commands) && states[0].frameBuffer == []
    requires k <= |frames|
    ensures |states[k].frameBuffer| == if k < FRAME_BUFFER_LEN then k else FRAME_BUFFER_LEN
    decreases k
  {
    if k > 0 {
      BufferFillsOnePerCall(asWritten, frames, states, commands, k - 1);
      assert StepOk(asWritten, frames, states, commands, k - 1);
    }
  }

  /**
   * A fresh classifier emits nothing during its first five frames: the
   * stability vote needs six recorded detections.
   */
  lemma FirstFiveFramesAreSilent(
    asWritten: bool, frames: seq<Frame>, states: seq<ClassifierState>, commands: seq<Option<Command>>, k: nat)
    requires IsRun(asWritten, frames, states, commands) && states[0] == Initial()
    requires k < |frames| && k + 1 < STABILITY_WINDOW
    ensures commands[k] == None
  {
    BufferFillsOnePerCall(asWritten, frames, states, commands, k);
    assert StepOk(asWritten, frames, states, commands, k);
    FiresExactlyWhenChecksPass(states[k], frames[k]);
  }

  /**
   * Neutral frames are remembered until the next command: the count never
   * drops while nothing is emitted, so the transition guard, once
   * satisfied, stays satisfied while a new gesture is being held.
   */
  lemma {:induction false} NeutralFramesAreKept(
    frames: seq<Frame>, states: seq<ClassifierState>, commands: seq<Option<Command>>, a: nat, k: nat)
    requires IsRun(false, frames, states, commands)
    requires a <= k <= |frames|
    requires forall m :: a <= m < k ==> commands[m].None?
    ensures states[k].neutralFrameCount >= states[a].neutralFrameCount
    decreases k
  {
    if a < k {
      NeutralFramesAreKept(frames, states, commands, a, k - 1);
      assert StepOk(false, frames, states, commands, k - 1);
    }
  }

  /** Frame m of the run has hands and its raw detection is g. */
  predicate DetectsAt(frames: seq<Frame>, states: seq<ClassifierState>, m: nat, g: Option<Command>)
    requires AllReadable(frames) && |states| == |frames| + 1 && m < |frames|
    requires Bounded(states[m])
  {
    frames[m].hands != [] && DetectIn(states[m], frames[m]).gesture == g
  }

  /**
   * Where a running hold comes from after call k: either that call saw a new
   * detection and started the hold at its own time, or it repeated the
   * gesture in progress and kept both the gesture and the hold start.
   */
  lemma HoldFacts(asWritten: bool, frames: seq<Frame>, states: seq<ClassifierState>, commands: seq<Option<Command>>, k: nat)
    requires IsRun(asWritten, frames, states, commands) && k < |frames|
    requires states[k + 1].gestureStartTime.Some?
    ensures DetectsAt(frames, states, k, states[k + 1].currentGesture)
    ensures states[k + 1].gestureStartTime == Some(frames[k].now)
      || (states[k].currentGesture == states[k + 1].currentGesture
          && states[k].gestureStartTime == states[k + 1].gestureStartTime)
  {
    assert StepOk(asWritten, frames, states, commands, k);
    if frames[k].hands == [] {
      NoHandsIsNeutral(states[k], frames[k]);
    } else if DetectIn(states[k], frames[k]).gesture != states[k].currentGesture {
      NewGestureNeverFires(states[k], frames[k]);
    }
  }

  /**
   * A hold in progress before call j started at the time of some earlier
   * call k0, and every call from k0 on detected the gesture in progress.
   */
  lemma {:induction false} HoldStartedAt(
    asWritten: bool, frames: seq<Frame>, states: seq<ClassifierState>, commands: seq<Option<Command>>, j: nat)
    requires IsRun(asWritten, frames, states, commands) && states[0].gestureStartTime == None
    requires j <= |frames| && states[j].gestureStartTime.Some?
    ensures exists k0 :: (0 <= k0 < j && frames[k0].now == states[j].gestureStartTime.value
      && forall m :: k0 <= m < j ==> DetectsAt(frames, states, m, states[j].currentGesture))
    decreases j
  {
    HoldFacts(asWritten, frames, states, commands, j - 1);
    if states[j].gestureStartTime != Some(frames[j - 1].now) {
      HoldStartedAt(asWritten, frames, states, commands, j - 1);
    } else {
      assert frames[j - 1].now == states[j].gestureStartTime.value;
    }
  }

  /**
   * Hold-duration debounce over a run: a command was detected, without a
   * break, on every call from one at least GESTURE_HOLD_DURATION earlier up
   * to the call that emits it.
   */
  lemma CommandWasHeld(
    asWritten: bool, frames: seq<Frame>, states: seq<ClassifierState>, commands: seq<Option<Command>>, j: nat)
    requires IsRun(asWritten, frames, states, commands) && states[0].gestureStartTime == None
    requires j < |frames| && commands[j].Some?
    ensures exists k0 :: (0 <= k0 < j && frames[j].now - frames[k0].now >= GESTURE_HOLD_DURATION
      && forall m :: k0 <= m <= j ==> DetectsAt(frames, states, m, commands[j]))
  {
    assert StepOk(asWritten, frames, states, commands, j);
    FiresExactlyWhenChecksPass(states[j], frames[j]);
    HoldStartedAt(asWritten, frames, states, commands, j);
  }
}
