/**
 What the touch, keyboard and button handlers do to the whole state, stated
 field by field, including the fields they leave alone.
 */
module Interaction {
  import opened Wrappers
  import opened Navigation
  import opened Gestures
  import opened Controller

  /** `handleTouchEnd` in full. Without two present, non-zero coordinates it does
      nothing at all. Otherwise it schedules one re-enable timer of its own, plus
      the one `nextSlide` or `prevSlide` schedules when the swipe navigates, so a
      navigating swipe leaves two; it never clears the coordinates and never
      moves the clock. */
  lemma TouchEndEffect(s: State)
    requires Valid(s)
    ensures var r := TouchEnd(s);
      && (!Present(s.touchStart) || !Present(s.touchEnd) ==> r == s)
      && (Present(s.touchStart) && Present(s.touchEnd) ==>
            var w := Classify(s.touchStart.value - s.touchEnd.value);
            var timer := s.now + CooldownMs;
            && r.touchStart == s.touchStart && r.touchEnd == s.touchEnd
            && r.now == s.now && r.n == s.n && r.reducedMotion == s.reducedMotion
            && r.current == (match w
                             case LeftSwipe => NextIndex(s.current, s.n)
                             case RightSwipe => PrevIndex(s.current, s.n)
                             case NoSwipe => s.current)
            && r.pending == (if w == NoSwipe then s.pending + [timer] else s.pending + [timer, timer])
            && r.autoPlaying == (w == NoSwipe && s.autoPlaying)
            && r.tickDue == s.tickDue)
  {
  }

  /** A complete gesture from `a` to `b` (both non-zero): navigate forward when the
      finger travelled more than 50 px to the left, back when more than 50 px to
      the right, otherwise stay; autoplay is paused in every case. */
  lemma Swipe(s: State, a: int, b: int)
    requires Valid(s) && a != 0 && b != 0
    ensures var r := TouchEnd(TouchMove(TouchStart(s, a), b));
      && !r.autoPlaying
      && r.touchStart == Some(a) && r.touchEnd == Some(b)
      && (a - b > SwipeThreshold ==> r.current == NextIndex(s.current, s.n))
      && (a - b < -SwipeThreshold ==> r.current == PrevIndex(s.current, s.n))
      && (-SwipeThreshold <= a - b <= SwipeThreshold ==>
            r.current == s.current && r.pending == s.pending + [s.now + CooldownMs])
  {
  }

  /** A tap without a move pauses autoplay and ends without navigating and without
      a re-enable timer of its own: only older timers can bring autoplay back. */
  lemma TapWithoutMove(s: State, x: int)
    requires Valid(s)
    ensures var r := TouchEnd(TouchStart(s, x));
      !r.autoPlaying && r.current == s.current && r.pending == s.pending
  {
  }

  /** A gesture starting or ending at coordinate 0 is treated as absent and ignored. */
  lemma ZeroCoordinateIgnored(s: State, a: int, b: int)
    requires Valid(s) && (a == 0 || b == 0)
    ensures var m := TouchMove(TouchStart(s, a), b);
      TouchEnd(m) == m && m.current == s.current && m.pending == s.pending
  {
  }

  /** Since the coordinates survive `handleTouchEnd`, a second touch-end with no
      new touch-start in between repeats the same swipe. */
  lemma RepeatedTouchEndRepeatsSwipe(s: State)
    requires Valid(s) && Present(s.touchStart) && Present(s.touchEnd)
    requires Classify(s.touchStart.value - s.touchEnd.value) == LeftSwipe
    ensures TouchEnd(TouchEnd(s)).current == NextN(s.current, 2, s.n)
  {
    TouchEndEffect(s);
    TouchEndEffect(TouchEnd(s));
    assert NextN(s.current, 1, s.n) == NextIndex(s.current, s.n);
  }

  /** The arrow keys act as the buttons, any other key does nothing; under reduced
      motion the buttons are disabled but the keys still navigate. */
  lemma Keyboard(s: State, key: string)
    requires Valid(s)
    ensures Step(s, KeyPress("ArrowLeft")) == PrevSlide(s)
    ensures Step(s, KeyPress("ArrowRight")) == NextSlide(s)
    ensures key != "ArrowLeft" && key != "ArrowRight" ==> Step(s, KeyPress(key)) == s
    ensures s.reducedMotion ==> Step(s, ClickNext) == s && Step(s, ClickPrev) == s
    ensures !s.reducedMotion ==> Step(s, ClickNext) == Step(s, KeyPress("ArrowRight"))
    ensures !s.reducedMotion ==> Step(s, ClickPrev) == Step(s, KeyPress("ArrowLeft"))
  {
  }

  /** The dot buttons go to their slide, under reduced motion too. */
  lemma DotButtons(s: State, k: nat)
    requires Valid(s) && k < s.n
    ensures Step(s, ClickDot(k)) == GoToSlide(s, k)
  {
  }
}
