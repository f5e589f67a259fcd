/**
 The `ProductShowcase` component's controller as an object whose handlers
 update its fields in place. Every method is specified by the step of the
 value model (module Controller) it performs, and its `modifies` clause names
 exactly the fields the corresponding handler sets.
 */
module Showcase {
  import opened Wrappers
  import opened Slides
  import opened Navigation
  import opened Gestures
  import Controller

  class ProductShowcase {
    const slides: seq<Slide>
    const n: nat
    const reducedMotion: bool
    var current: nat
    var touchStart: Option<int>
    var touchEnd: Option<int>
    var autoPlaying: bool
    var now: int
    var pending: seq<int>
    var tickDue: int

    /** The component's state as a value. */
    function Snapshot(): Controller.State
      reads this
    {
      Controller.State(n, reducedMotion, current, touchStart, touchEnd, autoPlaying, now, pending, tickDue)
    }

    predicate Valid()
      reads this
    {
      slides == Mockups() && n == |slides| && Controller.Valid(Snapshot())
    }

    /** Mounting: `useState` initial values and the autoplay effect's first run. */
    constructor (reducedMotion: bool, mountTime: int)
      ensures Valid()
      ensures this.reducedMotion == reducedMotion
      ensures Snapshot() == Controller.Init(SlideCount(), reducedMotion, mountTime)
    {
      slides := Mockups();
      n := SlideCount();
      this.reducedMotion := reducedMotion;
      current := 0;
      touchStart, touchEnd := None, None;
      autoPlaying := true;
      now := mountTime;
      pending := [];
      tickDue := mountTime + Controller.AutoplayPeriodMs;
    }

    /** `mockups[currentSlide]`, the slide the page renders. */
    method Active() returns (slide: Slide)
      requires Valid()
      ensures slide == Mockups()[current]
    {
      slide := slides[current];
    }

    /** `setIsAutoPlaying(false)`: clears the interval, if one runs. */
    method Pause()
      requires Valid()
      modifies this`autoPlaying
      ensures Valid()
      ensures Snapshot() == Controller.SetAutoPlaying(old(Snapshot()), false)
    {
      autoPlaying := false;
    }

    /** `setIsAutoPlaying(true)`: restarts the interval only if autoplay was off. */
    method Resume()
      requires Valid()
      modifies this`autoPlaying, this`tickDue
      ensures Valid()
      ensures Snapshot() == Controller.SetAutoPlaying(old(Snapshot()), true)
    {
      if !autoPlaying {
        autoPlaying := true;
        tickDue := now + Controller.AutoplayPeriodMs;
      }
    }

    /** `setTimeout(() => setIsAutoPlaying(true), 3000)` */
    method ScheduleResume()
      requires Valid()
      modifies this`pending
      ensures Valid()
      ensures Snapshot() == Controller.ScheduleResume(old(Snapshot()))
    {
      pending := pending + [now + Controller.CooldownMs];
    }

    /** `nextSlide` */
    method NextSlide()
      requires Valid()
      modifies this`current, this`autoPlaying, this`pending
      ensures Valid()
      ensures Snapshot() == Controller.NextSlide(old(Snapshot()))
    {
      current := NextIndex(current, n);
      Pause();
      ScheduleResume();
    }

    /** `prevSlide` */
    method PrevSlide()
      requires Valid()
      modifies this`current, this`autoPlaying, this`pending
      ensures Valid()
      ensures Snapshot() == Controller.PrevSlide(old(Snapshot()))
    {
      current := PrevIndex(current, n);
      Pause();
      ScheduleResume();
    }

    /** `goToSlide(index)`, called by the dot button of slide `index`. */
    method GoToSlide(index: nat)
      requires Valid() && index < n
      modifies this`current, this`autoPlaying, this`pending
      ensures Valid()
      ensures Snapshot() == Controller.GoToSlide(old(Snapshot()), index)
    {
      current := index;
      Pause();
      ScheduleResume();
    }

    /** The "Siguiente" button, `disabled` under reduced motion. */
    method ClickNext()
      requires Valid()
      modifies this`current, this`autoPlaying, this`pending
      ensures Valid()
      ensures Snapshot() == Controller.Step(old(Snapshot()), Controller.ClickNext)
    {
      if !reducedMotion {
        NextSlide();
      }
    }

    /** The "Anterior" button, `disabled` under reduced motion. */
    method ClickPrev()
      requires Valid()
      modifies this`current, this`autoPlaying, this`pending
      ensures Valid()
      ensures Snapshot() == Controller.Step(old(Snapshot()), Controller.ClickPrev)
    {
      if !reducedMotion {
        PrevSlide();
      }
    }

    /** `handleTouchStart` with the first touch point's `clientX`. */
    method HandleTouchStart(x: int)
      requires Valid()
      modifies this`touchStart, this`touchEnd, this`autoPlaying
      ensures Valid()
      ensures Snapshot() == Controller.TouchStart(old(Snapshot()), x)
    {
      touchEnd := None;
      touchStart := Some(x);
      Pause();
    }

    /** `handleTouchMove` with the first touch point's `clientX`. */
    method HandleTouchMove(x: int)
      requires Valid()
      modifies this`touchEnd
      ensures Valid()
      ensures Snapshot() == Controller.TouchMove(old(Snapshot()), x)
    {
      touchEnd := Some(x);
    }

    /** `handleTouchEnd` */
    method HandleTouchEnd()
      requires Valid()
      modifies this`current, this`autoPlaying, this`pending
      ensures Valid()
      ensures Snapshot() == Controller.TouchEnd(old(Snapshot()))
    {
      if !Present(touchStart) || !Present(touchEnd) {
        return;
      }
      var distance := touchStart.value - touchEnd.value;
      match Classify(distance) {
        case LeftSwipe => NextSlide();
        case RightSwipe => PrevSlide();
        case NoSwipe =>
      }
      ScheduleResume();
    }

    /** The window `keydown` listener. */
    method HandleKeyDown(key: string)
      requires Valid()
      modifies this`current, this`autoPlaying, this`pending
      ensures Valid()
      ensures Snapshot() == Controller.KeyDown(old(Snapshot()), key)
    {
      match KeyDirection(key) {
        case Some(Backward) => PrevSlide();
        case Some(Forward) => NextSlide();
        case None =>
      }
    }

    /** The event loop runs the earliest outstanding timer: a re-enable timer
        calls `setIsAutoPlaying(true)`, an interval tick advances the slide. */
    method FireTimer()
      requires Valid() && Controller.NextDue(Snapshot()).Some?
      modifies this`current, this`autoPlaying, this`now, this`pending, this`tickDue
      ensures Valid()
      ensures Snapshot() == Controller.FireTimer(old(Snapshot()))
    {
      if Controller.ResumeFirst(Snapshot()) {
        now := pending[0];
        pending := pending[1..];
        Resume();
      } else {
        now := tickDue;
        current := NextIndex(current, n);
        tickDue := tickDue + Controller.AutoplayPeriodMs;
      }
    }

    /** Time passes up to `t` while no timer falls due. */
    method AdvanceClock(t: int)
      requires Valid() && now <= t
      requires Controller.NextDue(Snapshot()).Some? ==> t < Controller.NextDue(Snapshot()).value
      modifies this`now
      ensures Valid()
      ensures Snapshot() == Controller.AdvanceClock(old(Snapshot()), t)
    {
      now := t;
    }
  }
}
