/**
 * The horizontal swipe rule of the hero section: a touch that travels more
 * than 50 pixels switches the variant, leftwards to the next one and
 * rightwards to the previous one.
 */
module Gestures {

  const SwipeThreshold: real := 50.0

  /**
   * The direction `handleSwipe` passes to `switchVariant`, or 0 when it does
   * not switch: `diff = startX - endX`; `|diff| > 50` switches, to +1 when
   * `diff > 0` and to -1 otherwise.
   */
  function SwipeDirection(startX: real, endX: real): (direction: int)
    ensures direction == 0 <==> -SwipeThreshold <= startX - endX <= SwipeThreshold
    ensures direction == 1 <==> startX - endX > SwipeThreshold
    ensures direction == -1 <==> startX - endX < -SwipeThreshold
  {
    var diff := startX - endX;
    var distance := if diff < 0.0 then -diff else diff;
    if distance > SwipeThreshold then (if diff > 0.0 then 1 else -1) else 0
  }

  /** Swapping the start and end of a swipe reverses its direction. */
  lemma SwipeReversed(startX: real, endX: real)
    ensures SwipeDirection(endX, startX) == -SwipeDirection(startX, endX)
  {
  }

  /** Moving the start further right never turns a next-swipe into a previous one. */
  lemma SwipeMonotone(startX: real, startX': real, endX: real)
    requires startX <= startX'
    ensures SwipeDirection(startX, endX) <= SwipeDirection(startX', endX)
  {
  }
}
