/**
 * Hand landmarks and the per-frame pose tests of the gesture classifier.
 * A hand is the 21-point skeleton of the hand tracker, in normalised image
 * coordinates where y grows downwards, so "above" means a smaller y.
 */
module Landmarks {
  import opened Wrappers
  import opened Commands

  /** One landmark; the tracker's depth coordinate is never read. */
  datatype Point = Point(x: real, y: real)

  type Hand = seq<Point>

  const WRIST: nat := 0
  const THUMB_MCP: nat := 2
  const THUMB_IP: nat := 3
  const THUMB_TIP: nat := 4
  const INDEX_PIP: nat := 6
  const INDEX_TIP: nat := 8
  const MIDDLE_PIP: nat := 10
  const MIDDLE_TIP: nat := 12
  const RING_PIP: nat := 14
  const RING_TIP: nat := 16
  const PINKY_PIP: nat := 18
  const PINKY_TIP: nat := 20

  /** Horizontal margin a fingertip must clear past the wrist to count as pointing. */
  const POINTING_MARGIN: real := 0.1
  /** How far the thumb tip must rise above the wrist for a thumbs-up. */
  const THUMB_RISE: real := 0.15
  /** Sideways thumb spread of a zoom-in "frame" hand. */
  const FRAME_THUMB_SPREAD: real := 0.05
  /** Sideways thumb spread of a zoom-out three-finger hand. */
  const THREE_FINGER_THUMB_SPREAD: real := 0.04

  /** Every landmark index the pose tests read exists. */
  predicate Complete(h: Hand) {
    |h| > PINKY_TIP
  }

  /** Only a frame with one or two hands has its landmarks read. */
  predicate HandsReadable(hands: seq<Hand>) {
    (|hands| == 1 || |hands| == 2) ==> forall i :: 0 <= i < |hands| ==> Complete(hands[i])
  }

  function Abs(r: real): real {
    if r < 0.0 then -r else r
  }

  /** The fingertip is above the given joint of the same finger. */
  predicate Raised(h: Hand, tip: nat, joint: nat)
    requires tip < |h| && joint < |h|
  {
    h[tip].y < h[joint].y
  }

  /** The fingertip is below the given joint of the same finger. */
  predicate Folded(h: Hand, tip: nat, joint: nat)
    requires tip < |h| && joint < |h|
  {
    h[tip].y > h[joint].y
  }

  /** Index and middle fingers up and pointing right, ring and pinky curled: "next". */
  predicate TwoFingersRight(h: Hand)
    requires Complete(h)
  {
    && Raised(h, INDEX_TIP, INDEX_PIP)
    && Raised(h, MIDDLE_TIP, MIDDLE_PIP)
    && Folded(h, RING_TIP, RING_PIP)
    && Folded(h, PINKY_TIP, PINKY_PIP)
    && h[INDEX_TIP].x > h[WRIST].x + POINTING_MARGIN
    && h[MIDDLE_TIP].x > h[WRIST].x + POINTING_MARGIN
  }

  /**
   * Only the index finger up, pointing left: "prev". The thumb position is
   * not part of the test.
   */
  predicate OneFingerLeft(h: Hand)
    requires Complete(h)
  {
    && Raised(h, INDEX_TIP, INDEX_PIP)
    && Folded(h, MIDDLE_TIP, MIDDLE_PIP)
    && Folded(h, RING_TIP, RING_PIP)
    && Folded(h, PINKY_TIP, PINKY_PIP)
    && h[INDEX_TIP].x < h[WRIST].x - POINTING_MARGIN
  }

  /**
   * A near-vertical thumb well above the wrist with all four fingers curled:
   * "start".
   */
  predicate ThumbsUpStrict(h: Hand)
    requires Complete(h)
  {
    var tip := h[THUMB_TIP];
    var base := h[THUMB_MCP];
    && tip.y < base.y
    // steeper than 0.8 horizontal per unit vertical; a literal keeps the product linear
    && Abs(tip.y - base.y) > Abs(tip.x - base.x) * 0.8
    && tip.y < h[WRIST].y - THUMB_RISE
    && Folded(h, INDEX_TIP, INDEX_PIP)
    && Folded(h, MIDDLE_TIP, MIDDLE_PIP)
    && Folded(h, RING_TIP, RING_PIP)
    && Folded(h, PINKY_TIP, PINKY_PIP)
  }

  /** Thumb and all four fingers extended: "pause". */
  predicate OpenPalm(h: Hand)
    requires Complete(h)
  {
    && Raised(h, THUMB_TIP, THUMB_IP)
    && Raised(h, INDEX_TIP, INDEX_PIP)
    && Raised(h, MIDDLE_TIP, MIDDLE_PIP)
    && Raised(h, RING_TIP, RING_PIP)
    && Raised(h, PINKY_TIP, PINKY_PIP)
  }

  /** Thumb spread sideways and only the index finger up: one half of the zoom-in frame. */
  predicate FrameHand(h: Hand)
    requires Complete(h)
  {
    && Abs(h[THUMB_TIP].x - h[THUMB_MCP].x) > FRAME_THUMB_SPREAD
    && Raised(h, INDEX_TIP, INDEX_PIP)
    && Folded(h, MIDDLE_TIP, MIDDLE_PIP)
    && Folded(h, RING_TIP, RING_PIP)
    && Folded(h, PINKY_TIP, PINKY_PIP)
  }

  /** Thumb, index and middle finger out, ring and pinky curled: one hand of the zoom-out pose. */
  predicate ThreeFingerHand(h: Hand)
    requires Complete(h)
  {
    && Abs(h[THUMB_TIP].x - h[THUMB_MCP].x) > THREE_FINGER_THUMB_SPREAD
    && Raised(h, INDEX_TIP, INDEX_PIP)
    && Raised(h, MIDDLE_TIP, MIDDLE_PIP)
    && Folded(h, RING_TIP, RING_PIP)
    && Folded(h, PINKY_TIP, PINKY_PIP)
  }

  /** Zoom-in: exactly two hands, both making the frame shape. */
  predicate FrameGesture(hands: seq<Hand>)
    requires HandsReadable(hands)
  {
    |hands| == 2 && FrameHand(hands[0]) && FrameHand(hands[1])
  }

  /** Both of exactly two hands hold the three-finger zoom-out shape. */
  predicate ThreeFingerPair(hands: seq<Hand>)
    requires HandsReadable(hands)
  {
    |hands| == 2 && ThreeFingerHand(hands[0]) && ThreeFingerHand(hands[1])
  }

  /** No hand matches two of the single-hand poses at once. */
  lemma SingleHandPosesExclusive(h: Hand)
    requires Complete(h)
    ensures TwoFingersRight(h) ==> !OneFingerLeft(h) && !ThumbsUpStrict(h) && !OpenPalm(h)
    ensures OneFingerLeft(h) ==> !ThumbsUpStrict(h) && !OpenPalm(h)
    ensures ThumbsUpStrict(h) ==> !OpenPalm(h)
  {
  }

  /** The zoom-in and zoom-out hand shapes never coincide, so neither do the two-hand poses. */
  lemma TwoHandShapesExclusive(hands: seq<Hand>)
    requires HandsReadable(hands)
    ensures !(FrameGesture(hands) && ThreeFingerPair(hands))
  {
  }

  /**
   * The single-hand detection, trying "next", "prev", "start", "pause" in
   * that order. Because the poses exclude one another, each command is
   * reported exactly when its own pose is seen, whatever the order.
   */
  function DetectOneHand(h: Hand): (g: Option<Command>)
    requires Complete(h)
    ensures g == Some(Next) <==> TwoFingersRight(h)
    ensures g == Some(Prev) <==> OneFingerLeft(h)
    ensures g == Some(Start) <==> ThumbsUpStrict(h)
    ensures g == Some(Pause) <==> OpenPalm(h)
    ensures g != Some(ZoomIn) && g != Some(ZoomOut)
  {
    if TwoFingersRight(h) then Some(Next)
    else if OneFingerLeft(h) then Some(Prev)
    else if ThumbsUpStrict(h) then Some(Start)
    else if OpenPalm(h) then Some(Pause)
    else None
  }
}
