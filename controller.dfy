/**
 The carousel controller of `ProductShowcase` as a state machine on values.
 Each function below is one handler or one timer callback; the class in
 showcase.dfy performs the same steps in place and is specified by them.

 Time is an abstract millisecond clock `now`. Two kinds of timers exist:
 - the one-shot re-enable timers (`setTimeout(() => setIsAutoPlaying(true), 3000)`),
   kept as the FIFO list `pending` of their deadlines; none is ever cancelled;
 - the autoplay interval (`setInterval(..., 5000)`), which exists exactly while
   `autoPlaying && !reducedMotion`; `tickDue` is the deadline of its next tick.
 */
module Controller {
  import opened Wrappers
  import opened Navigation
  import opened Gestures

  /** Delay of every re-enable timer. */
  const CooldownMs: int := 3000
  /** Period of the autoplay interval. */
  const AutoplayPeriodMs: int := 5000

  datatype State = State(
    n: nat,               // mockups.length
    reducedMotion: bool,  // shouldReduceMotion, read but never changed
    current: nat,         // currentSlide
    touchStart: Option<int>,
    touchEnd: Option<int>,
    autoPlaying: bool,    // isAutoPlaying
    now: int,
    pending: seq<int>,    // deadlines of the outstanding re-enable timers, in scheduling order
    tickDue: int)         // next autoplay tick, meaningful only while Ticking

  /** The autoplay effect's guard `!isAutoPlaying || shouldReduceMotion` is false. */
  predicate Ticking(s: State) {
    s.autoPlaying && !s.reducedMotion
  }

  predicate Sorted(p: seq<int>) {
    forall i, j :: 0 <= i < j < |p| ==> p[i] <= p[j]
  }

  /** What holds in every reachable state: the index is a valid slide index (so
      `mockups[currentSlide]` is defined), the re-enable timers fire in the order
      they were scheduled and none is overdue or further away than one cooldown,
      and a running interval's next tick is not overdue. */
  predicate Valid(s: State) {
    && 0 < s.n
    && s.current < s.n
    && Sorted(s.pending)
    && (forall i :: 0 <= i < |s.pending| ==> s.now <= s.pending[i] <= s.now + CooldownMs)
    && (Ticking(s) ==> s.now <= s.tickDue)
  }

  /** The state at mount: slide 0, no touch, `isAutoPlaying = true` (also under
      reduced motion), and the interval started at mount time. */
  function Init(n: nat, reducedMotion: bool, mountTime: int): (s: State)
    requires 0 < n
    ensures Valid(s)
    ensures s.current == 0 && s.autoPlaying && s.touchStart == None && s.touchEnd == None
    ensures s.pending == [] && s.now == mountTime
    ensures Ticking(s) <==> !reducedMotion
    ensures Ticking(s) ==> s.tickDue == mountTime + AutoplayPeriodMs
  {
    State(n, reducedMotion, 0, None, None, true, mountTime, [], mountTime + AutoplayPeriodMs)
  }

  /** `setIsAutoPlaying(on)`. React ignores a set to the current value, so the
      interval effect re-runs, and the interval restarts from `now`, only when
      autoplay turns on; turning it off clears the interval. */
  function SetAutoPlaying(s: State, on: bool): (r: State)
    requires Valid(s)
    ensures Valid(r)
    ensures r.autoPlaying == on
    ensures r == s.(autoPlaying := on, tickDue := r.tickDue)
    ensures r.tickDue == if on && !s.autoPlaying then s.now + AutoplayPeriodMs else s.tickDue
  {
    if on && !s.autoPlaying then s.(autoPlaying := true, tickDue := s.now + AutoplayPeriodMs)
    else s.(autoPlaying := on)
  }

  /** `setTimeout(() => setIsAutoPlaying(true), 3000)`: one more re-enable timer. */
  function ScheduleResume(s: State): (r: State)
    requires Valid(s)
    ensures Valid(r)
    ensures r == s.(pending := s.pending + [s.now + CooldownMs])
  {
    s.(pending := s.pending + [s.now + CooldownMs])
  }

  /** The common shape of `nextSlide`, `prevSlide` and `goToSlide`: set the index,
      pause autoplay, schedule a re-enable. */
  function Navigate(s: State, target: nat): (r: State)
    requires Valid(s) && target < s.n
    ensures Valid(r)
    ensures r.current == target && !r.autoPlaying
    ensures r.pending == s.pending + [s.now + CooldownMs]
    ensures r == s.(current := target, autoPlaying := false, pending := r.pending)
  {
    ScheduleResume(SetAutoPlaying(s.(current := target), false))
  }

  /** `nextSlide` */
  function NextSlide(s: State): (r: State)
    requires Valid(s)
    ensures Valid(r) && r.current == NextIndex(s.current, s.n)
  {
    Navigate(s, NextIndex(s.current, s.n))
  }

  /** `prevSlide` */
  function PrevSlide(s: State): (r: State)
    requires Valid(s)
    ensures Valid(r) && r.current == PrevIndex(s.current, s.n)
  {
    Navigate(s, PrevIndex(s.current, s.n))
  }

  /** `goToSlide(index)`: no range check; its only callers are the dot buttons,
      one per slide, so the index is a valid slide index. */
  function GoToSlide(s: State, index: nat): (r: State)
    requires Valid(s) && index < s.n
    ensures Valid(r) && r.current == index
  {
    Navigate(s, index)
  }

  /** `handleTouchStart`: forget the previous end point, record the start, pause. */
  function TouchStart(s: State, x: int): (r: State)
    requires Valid(s)
    ensures Valid(r)
    ensures r == s.(touchStart := Some(x), touchEnd := None, autoPlaying := false)
  {
    SetAutoPlaying(s.(touchEnd := None, touchStart := Some(x)), false)
  }

  /** `handleTouchMove`: record the latest position and nothing else. */
  function TouchMove(s: State, x: int): (r: State)
    requires Valid(s)
    ensures Valid(r)
    ensures r == s.(touchEnd := Some(x))
  {
    s.(touchEnd := Some(x))
  }

  /** `handleTouchEnd`: return early unless both coordinates are present and
      non-zero; otherwise navigate on a long enough swipe and, in every case,
      schedule one more re-enable timer. The coordinates are not cleared. */
  function TouchEnd(s: State): (r: State)
    requires Valid(s)
    ensures Valid(r)
  {
    match TouchDecision(s.touchStart, s.touchEnd)
    case None => s
    case Some(w) =>
      var moved := match w
        case LeftSwipe => NextSlide(s)
        case RightSwipe => PrevSlide(s)
        case NoSwipe => s;
      ScheduleResume(moved)
  }

  /** The window `keydown` listener. */
  function KeyDown(s: State, key: string): (r: State)
    requires Valid(s)
    ensures Valid(r)
  {
    match KeyDirection(key)
    case Some(Backward) => PrevSlide(s)
    case Some(Forward) => NextSlide(s)
    case None => s
  }

  /** True when the earliest outstanding timer is a re-enable timer. On a tie with
      the interval the re-enable timer is taken first: at that moment autoplay is
      on, so the re-enable changes nothing and the order does not matter. */
  predicate ResumeFirst(s: State) {
    s.pending != [] && (!Ticking(s) || s.pending[0] <= s.tickDue)
  }

  /** The deadline of the earliest outstanding timer, if any. */
  function NextDue(s: State): (r: Option<int>)
    requires Valid(s)
    ensures r.None? <==> s.pending == [] && !Ticking(s)
    ensures r.Some? ==> (s.pending != [] && r.value == s.pending[0]) || (Ticking(s) && r.value == s.tickDue)
    ensures r.Some? ==> s.now <= r.value
    ensures r.Some? ==> forall i :: 0 <= i < |s.pending| ==> r.value <= s.pending[i]
    ensures r.Some? && Ticking(s) ==> r.value <= s.tickDue
  {
    if ResumeFirst(s) then Some(s.pending[0])
    else if Ticking(s) then Some(s.tickDue)
    else None
  }

  /** The event loop runs the earliest outstanding timer: either a re-enable timer
      (autoplay on) or an autoplay tick, which advances the index and changes
      no other field except the clock and the next tick's deadline. */
  function FireTimer(s: State): (r: State)
    requires Valid(s) && NextDue(s).Some?
    ensures Valid(r)
    ensures r.now == NextDue(s).value
    ensures ResumeFirst(s) ==> r == SetAutoPlaying(s.(now := r.now, pending := s.pending[1..]), true)
    ensures !ResumeFirst(s) ==>
      r == s.(now := s.tickDue, current := NextIndex(s.current, s.n), tickDue := s.tickDue + AutoplayPeriodMs)
  {
    if ResumeFirst(s) then
      SetAutoPlaying(s.(now := s.pending[0], pending := s.pending[1..]), true)
    else
      s.(now := s.tickDue, current := NextIndex(s.current, s.n), tickDue := s.tickDue + AutoplayPeriodMs)
  }

  /** Time passes without any timer falling due. */
  function AdvanceClock(s: State, t: int): (r: State)
    requires Valid(s) && s.now <= t
    requires NextDue(s).Some? ==> t < NextDue(s).value
    ensures Valid(r)
    ensures r == s.(now := t)
  {
    s.(now := t)
  }

  /** Measure for `WaitUntil`: every fired timer moves the clock forward, removes a
      re-enable timer, or moves a tick due right now into the future. */
  function TickNow(s: State): (b: nat) {
    if Ticking(s) && s.tickDue == s.now then 1 else 0
  }

  /** Let the clock run until `t`, firing, in order, every timer due at or before `t`. */
  function WaitUntil(s: State, t: int): (r: State)
    requires Valid(s) && s.now <= t
    ensures Valid(r) && r.now == t
    ensures NextDue(r).None? || t < NextDue(r).value
    ensures r.n == s.n && r.reducedMotion == s.reducedMotion
    ensures r.touchStart == s.touchStart && r.touchEnd == s.touchEnd
    decreases t - s.now, |s.pending|, TickNow(s)
  {
    match NextDue(s)
    case Some(d) => if d <= t then WaitUntil(FireTimer(s), t) else AdvanceClock(s, t)
    case None => AdvanceClock(s, t)
  }

  /** The inputs the page delivers to the controller. */
  datatype Event =
    | ClickNext                // the "Siguiente" button
    | ClickPrev                // the "Anterior" button
    | ClickDot(index: nat)     // the dot button of one slide
    | TouchStartAt(x: int)
    | TouchMoveTo(x: int)
    | TouchRelease
    | KeyPress(key: string)
    | Elapse(ms: nat)          // time passes, timers fire

  /** Dot buttons exist only for slide indices. */
  predicate Admissible(n: nat, e: Event) {
    e.ClickDot? ==> e.index < n
  }

  /** One input on the page. The arrow buttons are `disabled` under reduced
      motion, so their clicks never reach the handlers; the keyboard listener and
      the dot buttons stay active. */
  function Step(s: State, e: Event): (r: State)
    requires Valid(s) && Admissible(s.n, e)
    ensures Valid(r) && r.n == s.n && r.reducedMotion == s.reducedMotion
  {
    match e
    case ClickNext => if s.reducedMotion then s else NextSlide(s)
    case ClickPrev => if s.reducedMotion then s else PrevSlide(s)
    case ClickDot(k) => GoToSlide(s, k)
    case TouchStartAt(x) => TouchStart(s, x)
    case TouchMoveTo(x) => TouchMove(s, x)
    case TouchRelease => TouchEnd(s)
    case KeyPress(key) => KeyDown(s, key)
    case Elapse(ms) => WaitUntil(s, s.now + ms)
  }

  /** A whole session of inputs. */
  function Run(s: State, es: seq<Event>): (r: State)
    requires Valid(s)
    requires forall i :: 0 <= i < |es| ==> Admissible(s.n, es[i])
    ensures Valid(r) && r.n == s.n && r.reducedMotion == s.reducedMotion
    decreases |es|
  {
    if es == [] then s else Run(Step(s, es[0]), es[1..])
  }
}
