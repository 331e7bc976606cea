/**
 * The classifier object: its fields are updated in place, one call per
 * camera frame. Each method is proved to do what the corresponding
 * function of the specification modules says.
 */
module Classifier {
  import opened Wrappers
  import opened Commands
  import opened Landmarks
  import opened Buffers
  import opened GestureDetection
  import opened Classification

  class GestureClassifier {
    /** Recent wrist distances of the zoom-out test, oldest first. */
    var previousPositions: seq<real>
    var lastCommandTime: real
    /** The raw detection the hold timer is running for. */
    var currentGesture: Option<Command>
    var gestureStartTime: Option<real>
    /** Recent raw detections, oldest first, for the stability vote. */
    var gestureFrameBuffer: seq<Option<Command>>
    var lastConfirmedGesture: Option<Command>
    var neutralFrameCount: nat

    /** The deques stay within their capacities. */
    ghost predicate Valid()
      reads this
    {
      |previousPositions| <= POSITION_HISTORY_LEN && |gestureFrameBuffer| <= FRAME_BUFFER_LEN
    }

    /** The fields as one value. */
    function State(): (s: ClassifierState)
      reads this
      ensures Valid() ==> Bounded(s)
    {
      ClassifierState(previousPositions, lastCommandTime, currentGesture, gestureStartTime,
                      gestureFrameBuffer, lastConfirmedGesture, neutralFrameCount)
    }

    constructor ()
      ensures Valid() && State() == Initial()
    {
      previousPositions := [];
      lastCommandTime := 0.0;
      currentGesture := None;
      gestureStartTime := None;
      gestureFrameBuffer := [];
      lastConfirmedGesture := None;
      neutralFrameCount := 0;
    }

    /**
     * The zoom-out test: records the wrist distance of a three-finger pair
     * and reports the hands moving together, emptying the history when so.
     */
    method DetectZoomOutGesture(hands: seq<Hand>, wristDistance: real) returns (movingTogether: bool)
      requires Valid() && HandsReadable(hands)
      modifies this`previousPositions
      ensures Valid()
      ensures ZoomOutcome(movingTogether, previousPositions)
           == ZoomOutStep(old(previousPositions), hands, wristDistance)
    {
      if |hands| != 2 {
        return false;
      }
      if !(ThreeFingerHand(hands[0]) && ThreeFingerHand(hands[1])) {
        return false;
      }
      previousPositions := Append(previousPositions, wristDistance, POSITION_HISTORY_LEN);
      if |previousPositions| < MIN_ZOOM_SAMPLES {
        return false;
      }
      var startDistance := previousPositions[0];
      var endDistance := previousPositions[|previousPositions| - 1];
      if startDistance - endDistance > ZOOM_THRESHOLD {
        previousPositions := [];
        return true;
      }
      return false;
    }

    /** The raw detection of one frame, without any filtering. */
    method DetectCurrentGesture(hands: seq<Hand>, wristDistance: real) returns (gesture: Option<Command>)
      requires Valid() && HandsReadable(hands)
      modifies this`previousPositions
      ensures Valid()
      ensures Detection(gesture, previousPositions) == Detect(old(previousPositions), hands, wristDistance)
    {
      var numHands := |hands|;
      if numHands == 2 {
        if FrameGesture(hands) {
          return Some(ZoomIn);
        }
        TwoHandShapesExclusive(hands);
        var movingTogether := DetectZoomOutGesture(hands, wristDistance);
        if movingTogether {
          return Some(ZoomOut);
        }
      }
      if numHands == 1 {
        var landmarks := hands[0];
        if TwoFingersRight(landmarks) {
          return Some(Next);
        }
        if OneFingerLeft(landmarks) {
          return Some(Prev);
        }
        if ThumbsUpStrict(landmarks) {
          return Some(Start);
        }
        if OpenPalm(landmarks) {
          return Some(Pause);
        }
      }
      return None;
    }

    /**
     * Classifies one frame: the hands seen, the distance between the two
     * wrists and the time now. Returns a command only when the detection
     * has passed every filter.
     */
    method ClassifyGesture(hands: seq<Hand>, wristDistance: real, now: real) returns (command: Option<Command>)
      requires Valid() && HandsReadable(hands)
      modifies this
      ensures Valid()
      ensures Step(State(), command) == Classify(old(State()), Frame(hands, wristDistance, now))
    {
      if hands == [] {
        neutralFrameCount := neutralFrameCount + 1;
        gestureFrameBuffer := Append(gestureFrameBuffer, None, FRAME_BUFFER_LEN);
        currentGesture := None;
        gestureStartTime := None;
        return None;
      }

      ghost var before := State();
      var detected := DetectCurrentGesture(hands, wristDistance);
      assert Detection(detected, previousPositions) == DetectIn(before, Frame(hands, wristDistance, now));
      gestureFrameBuffer := Append(gestureFrameBuffer, detected, FRAME_BUFFER_LEN);

      if detected != currentGesture {
        currentGesture := detected;
        gestureStartTime := Some(now);
        return None;
      }

      if detected.Some? && Truthy(gestureStartTime) {
        var holdTime := now - gestureStartTime.value;
        if holdTime >= GESTURE_HOLD_DURATION {
          if Stable(gestureFrameBuffer, detected) {
            if lastConfirmedGesture.Some? && detected != lastConfirmedGesture {
              if neutralFrameCount < REQUIRED_NEUTRAL_FRAMES {
                return None;
              }
            }
            if now - lastCommandTime < COMMAND_COOLDOWN {
              return None;
            }
            lastCommandTime := now;
            lastConfirmedGesture := detected;
            neutralFrameCount := 0;
            gestureStartTime := None;
            return detected;
          }
        }
      }

      // A repeated real gesture leaves the neutral count alone, see Classify.
      if detected.None? {
        neutralFrameCount := neutralFrameCount + 1;
      }
      return None;
    }
  }
}
