/**
 Concrete sessions on the four-slide table, worked through the model.
 */
module Scenarios {
  import opened Wrappers
  import opened Slides
  import opened Controller

  /** Mounted at time 0 with motion allowed: after 5000 ms autoplay shows slide 1;
      "next" shows slide 2 and pauses; 2999 ms later it is still paused, 1 ms
      later it plays again and the interval restarts, so 5000 ms after that
      autoplay shows slide 3. */
  lemma AutoplayAndCooldownSession()
    ensures var s0 := Init(SlideCount(), false, 0);
      var s1 := Step(s0, Elapse(5000));
      var s2 := Step(s1, ClickNext);
      var s3 := Step(s2, Elapse(2999));
      var s4 := Step(s3, Elapse(1));
      var s5 := Step(s4, Elapse(5000));
      && s1.current == 1 && s1.autoPlaying
      && s2.current == 2 && !s2.autoPlaying
      && s3.current == 2 && !s3.autoPlaying
      && s4.current == 2 && s4.autoPlaying
      && s5.current == 3
  {
    FirstTick();
    NextAfterFirstTick();
    StillPaused();
    CooldownFires();
    SecondTick();
  }

  /** The session's states, one per step. */
  function Session(k: nat): (s: State) {
    match k
    case 0 => State(4, false, 0, None, None, true, 0, [], 5000)
    case 1 => State(4, false, 1, None, None, true, 5000, [], 10000)
    case 2 => State(4, false, 2, None, None, false, 5000, [8000], 10000)
    case 3 => State(4, false, 2, None, None, false, 7999, [8000], 10000)
    case _ => State(4, false, 2, None, None, true, 8000, [], 13000)
  }

  // The five steps of the session, one lemma each, so that each proof stays small.

  lemma FirstTick()
    ensures Init(SlideCount(), false, 0) == Session(0)
    ensures Step(Session(0), Elapse(5000)) == Session(1)
  {
  }

  lemma NextAfterFirstTick()
    ensures Step(Session(1), ClickNext) == Session(2)
  {
  }

  lemma StillPaused()
    ensures Step(Session(2), Elapse(2999)) == Session(3)
  {
  }

  lemma CooldownFires()
    ensures Step(Session(3), Elapse(1)) == Session(4)
  {
  }

  lemma SecondTick()
    ensures Step(Session(4), Elapse(5000)).current == 3
  {
  }

  /** Under reduced motion the carousel stays on its slide however long the page
      is left alone; `isAutoPlaying` is nevertheless true from mount on. */
  lemma ReducedMotionSession()
    ensures var r := Step(Init(SlideCount(), true, 0), Elapse(30000));
      r.current == 0 && r.autoPlaying
  {
  }

  /** Touch down at `a`, move to `b`, lift. */
  function Gesture(s: State, a: int, b: int): (g: State)
    requires Valid(s)
  {
    Step(Step(Step(s, TouchStartAt(a)), TouchMoveTo(b)), TouchRelease)
  }

  /** From slide 0: a swipe from x = 100 to x = 40 shows slide 1, one from 40 to
      100 shows slide 3, and one from 100 to 80 stays on slide 0. */
  lemma SwipeSessions(t: int)
    ensures var s := Init(SlideCount(), false, t);
      && Gesture(s, 100, 40).current == 1
      && Gesture(s, 40, 100).current == 3
      && Gesture(s, 100, 80).current == 0
  {
  }
}
