/**
 Input interpretation of the carousel: classifying a finished touch gesture
 (`handleTouchEnd`) and mapping keyboard keys (`handleKeyDown`).
 */
module Gestures {
  import opened Wrappers

  /** Horizontal travel, in pixels, a swipe must strictly exceed to navigate. */
  const SwipeThreshold: int := 50

  /** Which way a finished gesture moves the carousel. */
  datatype Swipe =
    | LeftSwipe   // finger moved left: show the next slide
    | RightSwipe  // finger moved right: show the previous slide
    | NoSwipe     // too short to navigate

  /** `distance = touchStart - touchEnd` is compared strictly against the threshold. */
  function Classify(distance: int): (r: Swipe)
    ensures r == LeftSwipe <==> distance > SwipeThreshold
    ensures r == RightSwipe <==> distance < -SwipeThreshold
    ensures r == NoSwipe <==> -SwipeThreshold <= distance <= SwipeThreshold
  {
    if distance > SwipeThreshold then LeftSwipe
    else if distance < -SwipeThreshold then RightSwipe
    else NoSwipe
  }

  function Mirror(w: Swipe): (m: Swipe) {
    match w
    case LeftSwipe => RightSwipe
    case RightSwipe => LeftSwipe
    case NoSwipe => NoSwipe
  }

  /** Replaying a gesture in the opposite direction navigates the opposite way. */
  lemma ClassifyMirror(distance: int)
    ensures Classify(-distance) == Mirror(Classify(distance))
  {
  }

  /** A coordinate passes `if (!touchStart || !touchEnd)` only when it is
      non-null and non-zero: JavaScript treats the number 0 as false. */
  predicate Present(x: Option<int>) {
    x.Some? && x.value != 0
  }

  /** What `handleTouchEnd` decides: `None` when it returns early, otherwise the
      classification of `start - end`. */
  function TouchDecision(start: Option<int>, end: Option<int>): (r: Option<Swipe>)
    ensures r.None? <==> !Present(start) || !Present(end)
    ensures r.Some? ==> r.value == Classify(start.value - end.value)
  {
    if !Present(start) || !Present(end) then None
    else Some(Classify(start.value - end.value))
  }

  /** Which way a key press moves the carousel. */
  datatype Direction = Backward | Forward

  /** `"ArrowLeft"` goes back, `"ArrowRight"` goes forward, every other key is ignored. */
  function KeyDirection(key: string): (r: Option<Direction>)
    ensures r == Some(Backward) <==> key == "ArrowLeft"
    ensures r == Some(Forward) <==> key == "ArrowRight"
    ensures r == None <==> key != "ArrowLeft" && key != "ArrowRight"
  {
    if key == "ArrowLeft" then Some(Backward)
    else if key == "ArrowRight" then Some(Forward)
    else None
  }
}
