# Product carousel controller of the PeakMind landing page

This project models the one piece of control logic in the landing page: the
product carousel inside the `ProductShowcase` section
(`src/components/sections/ProductShowcase.tsx`). The carousel shows one of four
product mock-ups. It moves forward by itself every 5000 ms while autoplay is on
and motion is allowed. The arrow buttons, the dot buttons, the arrow keys and
horizontal swipes navigate by hand. Every manual navigation pauses autoplay and
starts a 3000 ms timer that turns it back on.

The model has two layers:

- **Value model** (module `Controller`). One `State` datatype and one function
  per handler or timer callback. A `Step` function applies one page input, and
  `Run` applies a whole session of inputs. Time is an abstract millisecond
  clock. The re-enable timers are a FIFO list of deadlines that are never
  cancelled. The autoplay interval exists only while `isAutoPlaying &&
  !shouldReduceMotion`, and `tickDue` holds its next deadline.
- **Object model** (class `Showcase.ProductShowcase`). The component's state
  held as fields that its handlers update in place. Each method's `modifies`
  clause names exactly the fields that handler sets. Its postcondition ties the
  new state to the matching step of the value model.

The supporting modules are:

- `Slides`: the `mockups` table.
- `Navigation`: the wrap-around index arithmetic.
- `Gestures`: swipe classification and the key mapping.
- `Timing` and `Interaction`: lemmas about waiting and about the input handlers.
- `Scenarios`: concrete sessions worked through the model.

Behaviour that follows the code as written:

- Re-enable timers stack. Each one sets `isAutoPlaying` to true when it fires.
  A navigating swipe schedules two of them: one from `nextSlide`/`prevSlide`
  and one from `handleTouchEnd`.
- `handleTouchEnd` leaves `touchStart` and `touchEnd` in place.
- The early return in `handleTouchEnd` is a JavaScript falsy test, so
  coordinate 0 counts as absent.
- `isAutoPlaying` starts true even under reduced motion. No interval runs
  then, so the slide does not move by itself.
- React skips a state update that sets the current value, so the interval
  effect re-runs only when the flag actually changes: turning autoplay off
  clears the interval, and turning it on restarts it from that moment. A
  re-enable timer that fires while autoplay is already on changes nothing.
- The arrow buttons carry `disabled={shouldReduceMotion}`, so under reduced
  motion their clicks never reach the handlers. The keyboard listener and the
  dot buttons stay active.

`goToSlide` does not check its index; the model requires `index < n`, which
the dot buttons (lines 574-577) always pass.

## Model

| member | source | states |
|---|---|---|
| Slides.Mockups | src/components/sections/ProductShowcase.tsx:14-46 | the table has four slides, their ids are pairwise distinct (they serve as React keys), and each lists three features |
| Slides.SlideCount | src/components/sections/ProductShowcase.tsx:367 | `mockups.length` is 4 |
| Navigation.NextIndex | src/components/sections/ProductShowcase.tsx:399-403 | `(i + 1) % n` stays in `[0, n)` and is `i + 1`, except that the last slide wraps to 0 |
| Navigation.PrevIndex | src/components/sections/ProductShowcase.tsx:405-409 | `(i - 1 + n) % n` stays in `[0, n)` and is `i - 1`, except that slide 0 wraps to `n - 1` |
| Navigation.NextPrevInverse | src/components/sections/ProductShowcase.tsx:399-409 | a step forward and a step back undo each other, in both orders |
| Navigation.NextNIsModularSum | src/components/sections/ProductShowcase.tsx:399-403 | `k` forward steps from `i` give exactly `(i + k) mod n` |
| Navigation.PrevNIsModularDifference | src/components/sections/ProductShowcase.tsx:405-409 | `k` backward steps from `i` give exactly `(i - k) mod n`, which is never negative |
| Navigation.FullCycle | src/components/sections/ProductShowcase.tsx:399-409 | `n` steps in either direction return to the starting slide |
| Gestures.Classify | src/components/sections/ProductShowcase.tsx:386-394 | a distance navigates forward if and only if it is above 50, backward if and only if it is below -50, and not at all on `[-50, 50]`, so both thresholds are strict |
| Gestures.ClassifyMirror | src/components/sections/ProductShowcase.tsx:386-388 | reversing a gesture's direction reverses its classification |
| Gestures.TouchDecision | src/components/sections/ProductShowcase.tsx:384-386 | the handler goes past its early return if and only if both coordinates are non-null and non-zero, and then classifies `touchStart - touchEnd` |
| Gestures.KeyDirection | src/components/sections/ProductShowcase.tsx:418-424 | ArrowLeft maps to back and ArrowRight to forward, each if and only if that key was pressed; every other key maps to nothing |
| Controller.Init | src/components/sections/ProductShowcase.tsx:357-371 | the mount state is valid: slide 0, both touches null, `isAutoPlaying` true, no re-enable timer, and an interval due 5000 ms after mount exactly when motion is allowed |
| Controller.SetAutoPlaying | src/components/sections/ProductShowcase.tsx:363-371 | setting the flag keeps the state valid, leaves every other field alone, and restarts the interval from now only when autoplay turns from off to on |
| Controller.ScheduleResume | src/components/sections/ProductShowcase.tsx:402 | one more re-enable timer due 3000 ms from now, and nothing else changes |
| Controller.Navigate | src/components/sections/ProductShowcase.tsx:399-415 | a manual navigation sets the index, turns autoplay off, appends one re-enable timer at now + 3000 without cancelling the others, and changes nothing else |
| Controller.NextSlide | src/components/sections/ProductShowcase.tsx:399-403 | `nextSlide` keeps the state valid and moves to the next index |
| Controller.PrevSlide | src/components/sections/ProductShowcase.tsx:405-409 | `prevSlide` keeps the state valid and moves to the previous index |
| Controller.GoToSlide | src/components/sections/ProductShowcase.tsx:411-415 | `goToSlide(k)` with a slide index `k`, as the dot buttons pass (lines 574-577), keeps the state valid and sets the index to exactly `k` |
| Controller.TouchStart | src/components/sections/ProductShowcase.tsx:373-377 | touch start records the start, clears the end, pauses, and changes nothing else (stated field by field in its ensures) |
| Controller.TouchMove | src/components/sections/ProductShowcase.tsx:379-381 | touch move changes only `touchEnd` |
| Controller.TouchEnd | src/components/sections/ProductShowcase.tsx:383-397 | touch end keeps the state valid |
| Controller.KeyDown | src/components/sections/ProductShowcase.tsx:417-424 | the key listener keeps the state valid |
| Controller.NextDue | src/components/sections/ProductShowcase.tsx:363-371 | the earliest outstanding timer: absent exactly when no re-enable timer is pending and no interval runs; otherwise it is the first re-enable deadline or the next tick, never overdue, and no later than any other timer |
| Controller.FireTimer | src/components/sections/ProductShowcase.tsx:366-368 | firing the earliest timer keeps the state valid and moves the clock to its deadline. A re-enable timer turns autoplay on. An interval tick advances the index, reschedules itself 5000 ms later, and changes nothing else |
| Controller.AdvanceClock | src/components/sections/ProductShowcase.tsx:363-371 | with no timer due, time passing changes only the clock |
| Controller.WaitUntil | src/components/sections/ProductShowcase.tsx:363-371 | running all timers due up to `t` keeps the state valid, ends at time `t` with no timer due by then (every due timer has run), and never touches the gesture fields |
| Timing.PausedFreezesIndex | src/components/sections/ProductShowcase.tsx:363-364 | while paused, the slide does not move until the earliest re-enable timer fires |
| Timing.ResumedAdvances | src/components/sections/ProductShowcase.tsx:363-371 | after the earliest re-enable timer of a paused carousel fires, the slide advances once per 5000 ms counted from that timer's deadline |
| Controller.Step | src/components/sections/ProductShowcase.tsx:469-494 | every page input keeps the state valid and leaves the slide count and the reduced-motion flag unchanged; that the arrow buttons do nothing under reduced motion (`disabled`, lines 473 and 481) is proved by `Interaction.Keyboard` |
| Controller.Run | src/components/sections/ProductShowcase.tsx:430 | after any session of inputs from a valid state the index is a valid slide index, so `mockups[currentSlide]` and its `id` (line 497) are defined |
| Timing.WaitUntilAutoPlaying | src/components/sections/ProductShowcase.tsx:396-414 | waiting never turns autoplay off, and a paused carousel is playing again at `t` if and only if its earliest re-enable timer is due by `t` |
| Timing.NavigationCooldown | src/components/sections/ProductShowcase.tsx:399-415 | after a manual navigation autoplay is off; `d` ms later it is on if and only if `d >= 3000` or an earlier, uncancelled re-enable timer is due by then |
| Timing.CooldownIsExact | src/components/sections/ProductShowcase.tsx:399-415 | with no earlier timer outstanding, autoplay is still off 2999 ms after a navigation and on at 3000 ms |
| Timing.ReducedMotionFreezesIndex | src/components/sections/ProductShowcase.tsx:363-364 | under reduced motion no amount of waiting changes the slide |
| Timing.TicksUntil | src/components/sections/ProductShowcase.tsx:366-368 | the number of 5000 ms ticks, starting at `due`, that fall at or before `t` |
| Timing.AutoplayAdvances | src/components/sections/ProductShowcase.tsx:363-371 | while the interval runs, waiting advances the slide once per tick and keeps autoplay on, whatever re-enable timers are pending |
| Timing.AutoplayPosition | src/components/sections/ProductShowcase.tsx:366-368 | the same in closed form: after `k` ticks the slide is `(i + k) mod n` |
| Timing.WaitSplit | src/components/sections/ProductShowcase.tsx:363-415 | waiting until `t1` and then until `t2` equals one wait until `t2`: a wait cancels no outstanding timer and does not move the next tick, so consecutive waits compose |
| Timing.SplitCooldown | src/components/sections/ProductShowcase.tsx:399-415 | with no earlier timer outstanding, waiting `d1` and then `d2` ms after a navigation has autoplay on again if and only if `d1 + d2 >= 3000` |
| Interaction.TouchEndEffect | src/components/sections/ProductShowcase.tsx:383-397 | touch end in full. Without two present, non-zero coordinates it changes nothing. Otherwise it navigates forward, back or not at all by the strict ±50 thresholds. It adds two timers after a navigating swipe and one otherwise, pauses only when it navigates, and keeps the coordinates, the clock and the interval |
| Interaction.Swipe | src/components/sections/ProductShowcase.tsx:373-397 | a full gesture from `a` to `b` navigates forward above 50 px, back below -50 px, otherwise stays with one new timer; autoplay is paused either way |
| Interaction.TapWithoutMove | src/components/sections/ProductShowcase.tsx:373-384 | a tap without a move pauses autoplay with no navigation and no re-enable timer of its own |
| Interaction.ZeroCoordinateIgnored | src/components/sections/ProductShowcase.tsx:384 | a gesture that starts or ends at coordinate 0 is ignored entirely |
| Interaction.RepeatedTouchEndRepeatsSwipe | src/components/sections/ProductShowcase.tsx:383-397 | the coordinates are not cleared, so a second touch end repeats a left swipe and moves two slides |
| Interaction.Keyboard | src/components/sections/ProductShowcase.tsx:417-424 | the arrow keys act as prev and next, any other key does nothing, and under reduced motion the keys still work while the buttons (lines 473 and 481) do not |
| Interaction.DotButtons | src/components/sections/ProductShowcase.tsx:574-577 | a dot button goes to its slide, exactly as `goToSlide`, under reduced motion too |
| Scenarios.AutoplayAndCooldownSession | src/components/sections/ProductShowcase.tsx:357-415 | from mount: a tick at 5000 ms shows slide 1; next shows slide 2 and pauses; still paused 2999 ms later; playing 1 ms later; one more interval later slide 3 is shown |
| Scenarios.ReducedMotionSession | src/components/sections/ProductShowcase.tsx:360-364 | under reduced motion, 30000 ms after mount the slide is still 0 while `isAutoPlaying` is true |
| Scenarios.SwipeSessions | src/components/sections/ProductShowcase.tsx:383-397 | from slide 0: a swipe from 100 to 40 shows slide 1, one from 40 to 100 shows slide 3, and one from 100 to 80 stays on slide 0 |
| Showcase.ProductShowcase.constructor | src/components/sections/ProductShowcase.tsx:356-371 | the mounted object is valid and equals the value model's mount state |
| Showcase.ProductShowcase.Active | src/components/sections/ProductShowcase.tsx:430 | the rendered slide is `mockups[currentSlide]`, which is defined in every valid state |
| Showcase.ProductShowcase.Pause | src/components/sections/ProductShowcase.tsx:376 | `setIsAutoPlaying(false)` changes only the flag |
| Showcase.ProductShowcase.Resume | src/components/sections/ProductShowcase.tsx:396 | `setIsAutoPlaying(true)` also restarts the interval only when autoplay was off |
| Showcase.ProductShowcase.ScheduleResume | src/components/sections/ProductShowcase.tsx:402 | appends one re-enable deadline and changes nothing else |
| Showcase.ProductShowcase.NextSlide | src/components/sections/ProductShowcase.tsx:399-403 | performs `Controller.NextSlide` in place, changing only the index, the flag and the timer list |
| Showcase.ProductShowcase.PrevSlide | src/components/sections/ProductShowcase.tsx:405-409 | performs `Controller.PrevSlide` in place, changing only the index, the flag and the timer list |
| Showcase.ProductShowcase.GoToSlide | src/components/sections/ProductShowcase.tsx:411-415 | performs `Controller.GoToSlide` in place, changing only the index, the flag and the timer list |
| Showcase.ProductShowcase.ClickNext | src/components/sections/ProductShowcase.tsx:477-484 | the next button performs `nextSlide` unless it is disabled under reduced motion |
| Showcase.ProductShowcase.ClickPrev | src/components/sections/ProductShowcase.tsx:469-476 | the previous button performs `prevSlide` unless it is disabled under reduced motion |
| Showcase.ProductShowcase.HandleTouchStart | src/components/sections/ProductShowcase.tsx:373-377 | performs `Controller.TouchStart` in place, changing only the two coordinates and the flag |
| Showcase.ProductShowcase.HandleTouchMove | src/components/sections/ProductShowcase.tsx:379-381 | performs `Controller.TouchMove` in place, changing only `touchEnd` |
| Showcase.ProductShowcase.HandleTouchEnd | src/components/sections/ProductShowcase.tsx:383-397 | performs `Controller.TouchEnd` in place, leaving the coordinates untouched |
| Showcase.ProductShowcase.HandleKeyDown | src/components/sections/ProductShowcase.tsx:417-428 | performs `Controller.KeyDown` in place |
| Showcase.ProductShowcase.FireTimer | src/components/sections/ProductShowcase.tsx:366-368 | performs `Controller.FireTimer` in place |
| Showcase.ProductShowcase.AdvanceClock | src/components/sections/ProductShowcase.tsx:363-371 | moves only the clock while no timer is due |

## Left out

- JSX rendering, Tailwind classes and framer-motion animation settings are left out. They are presentation only.
- The 3D viewer is left out: `Loader`, `FallbackModel`, `ModelGLB`, `Peaky3DCard` and `useGLTF.preload`. It wraps three.js and drei, which are not part of this model, and its per-frame motion is floating point.
- `ErrorBoundary` and `PhoneMockup` are left out. They are React lifecycle plumbing, floating-point size arithmetic, a resize listener and image load callbacks.
- src/components/sections/NotFound.tsx and src/App.tsx are left out. They are a static page and a declarative route table, with no state.
- The model does not schedule `setTimeout`/`setInterval` in real time. Timers fire only through the explicit `FireTimer`/`WaitUntil` steps, in deadline order.
- React state batching and stale closures are left out. Each handler runs against the state left by the previous input.
- Unmounting is left out: the model has no teardown. In the code, unmounting clears the interval (line 370) and removes the key listener (line 427), but no handle is kept for the `setTimeout` calls (lines 396, 402, 408, 414), so pending re-enable timers still fire after unmount.
- `shouldReduceMotion` is a constant. A live change of the preference, which would also re-run the interval effect, is not modelled.
- Touch coordinates are integers. `clientX` is a floating-point number in the browser. The ±50 comparisons stay strict for integers. Only the first touch point is read, as in the source, and multi-touch is not otherwise modelled.
- Controller.TouchEnd: its own contract states only that the state stays valid. Interaction.TouchEndEffect states its full effect.
- Controller.KeyDown: its own contract states only that the state stays valid. Interaction.Keyboard states its full effect.
- Controller.Step: its own contract states only validity and the constant fields. The lemmas in Timing and Interaction state the effect of each input.
