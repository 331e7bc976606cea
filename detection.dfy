/**
 * Raw (unfiltered) gesture detection for one frame. The two-hand zoom-out
 * test keeps a short history of the distance between the two wrists, so the
 * detection returns that history along with the gesture it saw.
 */
module GestureDetection {
  import opened Wrappers
  import opened Commands
  import opened Landmarks
  import opened Buffers

  /** Number of wrist distances the zoom-out history keeps. */
  const POSITION_HISTORY_LEN: nat := 10
  /** Samples the history needs before it can report hands moving together. */
  const MIN_ZOOM_SAMPLES: nat := 5
  /** How much the wrist distance must shrink across the history. */
  const ZOOM_THRESHOLD: real := 0.1

  datatype ZoomOutcome = ZoomOutcome(movingTogether: bool, history: seq<real>)

  /**
   * The zoom-out test: both hands in the three-finger shape and the wrists
   * closer now than at the oldest retained sample by more than the
   * threshold. Only a three-finger pair records its wrist distance, and a
   * positive answer empties the history.
   */
  function ZoomOutStep(history: seq<real>, hands: seq<Hand>, wristDistance: real): (z: ZoomOutcome)
    requires |history| <= POSITION_HISTORY_LEN && HandsReadable(hands)
    ensures |z.history| <= POSITION_HISTORY_LEN
    ensures !ThreeFingerPair(hands) ==> !z.movingTogether && z.history == history
    ensures ThreeFingerPair(hands) && !z.movingTogether ==>
      z.history == Append(history, wristDistance, POSITION_HISTORY_LEN)
    ensures z.movingTogether ==> z.history == []
    ensures z.movingTogether <==>
      ThreeFingerPair(hands)
      && |history| + 1 >= MIN_ZOOM_SAMPLES
      && (if |history| < POSITION_HISTORY_LEN then history[0] else history[1]) - wristDistance > ZOOM_THRESHOLD
  {
    if !ThreeFingerPair(hands) then ZoomOutcome(false, history)
    else
      var samples := Append(history, wristDistance, POSITION_HISTORY_LEN);
      if |samples| < MIN_ZOOM_SAMPLES then ZoomOutcome(false, samples)
      else if samples[0] - samples[|samples| - 1] > ZOOM_THRESHOLD then ZoomOutcome(true, [])
      else ZoomOutcome(false, samples)
  }

  /**
   * Once the history has been cleared by a positive answer, the next four
   * three-finger frames cannot give another one: the fifth sample is the
   * earliest that can.
   */
  lemma {:induction false} ZoomOutNeedsFiveSamples(history: seq<real>, frames: seq<(seq<Hand>, real)>)
    requires |history| + |frames| < MIN_ZOOM_SAMPLES
    requires forall k :: 0 <= k < |frames| ==> HandsReadable(frames[k].0)
    ensures forall k :: 0 <= k < |frames| ==> !ZoomOutRun(history, frames)[k]
    decreases |frames|
  {
    if frames != [] {
      var z := ZoomOutStep(history, frames[0].0, frames[0].1);
      ZoomOutNeedsFiveSamples(z.history, frames[1..]);
    }
  }

  /** The answers of the zoom-out test over a run of frames, the history carried along. */
  function ZoomOutRun(history: seq<real>, frames: seq<(seq<Hand>, real)>): (answers: seq<bool>)
    requires |history| <= POSITION_HISTORY_LEN
    requires forall k :: 0 <= k < |frames| ==> HandsReadable(frames[k].0)
    ensures |answers| == |frames|
    decreases |frames|
  {
    if frames == [] then []
    else
      var z := ZoomOutStep(history, frames[0].0, frames[0].1);
      [z.movingTogether] + ZoomOutRun(z.history, frames[1..])
  }

  datatype Detection = Detection(gesture: Option<Command>, history: seq<real>)

  /**
   * The raw detection. Two hands can only give zoom-in (tried first) or
   * zoom-out; one hand only next, prev, start or pause; no hands or more
   * than two give nothing. Only the zoom-out test touches the history.
   */
  function Detect(history: seq<real>, hands: seq<Hand>, wristDistance: real): (d: Detection)
    requires |history| <= POSITION_HISTORY_LEN && HandsReadable(hands)
    ensures |d.history| <= POSITION_HISTORY_LEN
    ensures |hands| != 2 ==> d.history == history
    ensures |hands| != 1 && |hands| != 2 ==> d.gesture == None
    ensures |hands| == 1 ==> d.gesture == DetectOneHand(hands[0])
    ensures |hands| == 2 ==> d.gesture in {None, Some(ZoomIn), Some(ZoomOut)}
    ensures |hands| == 2 ==> (d.gesture == Some(ZoomIn) <==> FrameGesture(hands))
    ensures |hands| == 2 ==>
      (d.gesture == Some(ZoomOut) <==> ZoomOutStep(history, hands, wristDistance).movingTogether)
    ensures |hands| == 2 ==>
      d.history == if FrameGesture(hands) then history else ZoomOutStep(history, hands, wristDistance).history
  {
    if |hands| == 2 && FrameGesture(hands) then Detection(Some(ZoomIn), history)
    else if |hands| == 2 then
      TwoHandShapesExclusive(hands);
      var z := ZoomOutStep(history, hands, wristDistance);
      Detection(if z.movingTogether then Some(ZoomOut) else None, z.history)
    else if |hands| == 1 then Detection(DetectOneHand(hands[0]), history)
    else Detection(None, history)
  }
}
