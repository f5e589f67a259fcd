/**
 What the timers do over time: when autoplay comes back after an interaction,
 how far autoplay moves the carousel, and that under reduced motion nothing
 moves by itself.
 */
module Timing {
  import opened Navigation
  import opened Controller

  /** Waiting never pauses autoplay, and a paused carousel is playing again at `t`
      exactly when its earliest re-enable timer is due by `t`. */
  lemma {:induction false} WaitUntilAutoPlaying(s: State, t: int)
    requires Valid(s) && s.now <= t
    ensures WaitUntil(s, t).autoPlaying <==> s.autoPlaying || (s.pending != [] && s.pending[0] <= t)
    decreases t - s.now, |s.pending|, TickNow(s)
  {
    match NextDue(s)
    case Some(d) =>
      if d <= t {
        WaitUntilAutoPlaying(FireTimer(s), t);
      }
    case None =>
  }

  /** After `next`, `prev` or `goTo` the carousel is paused, and it is playing
      again `d` ms later exactly when a full cooldown has passed or an earlier,
      still outstanding re-enable timer has fired: timers are never cancelled,
      so the earliest outstanding navigation decides. */
  lemma NavigationCooldown(s: State, target: nat, d: nat)
    requires Valid(s) && target < s.n
    ensures !Navigate(s, target).autoPlaying
    ensures var r := Navigate(s, target);
      WaitUntil(r, r.now + d).autoPlaying <==>
        d >= CooldownMs || (s.pending != [] && s.pending[0] <= s.now + d)
  {
    var r := Navigate(s, target);
    WaitUntilAutoPlaying(r, r.now + d);
    assert r.pending[0] == if s.pending == [] then s.now + CooldownMs else s.pending[0];
  }

  /** With no earlier interaction outstanding, a navigation keeps autoplay off for
      exactly the cooldown: still paused after `CooldownMs - 1` ms, playing after
      `CooldownMs` ms. */
  lemma CooldownIsExact(s: State, target: nat)
    requires Valid(s) && target < s.n && s.pending == []
    ensures var r := Navigate(s, target);
      && !WaitUntil(r, r.now + CooldownMs - 1).autoPlaying
      && WaitUntil(r, r.now + CooldownMs).autoPlaying
  {
  }

  /** Under reduced motion no interval exists, so no amount of waiting changes the slide. */
  lemma {:induction false} ReducedMotionFreezesIndex(s: State, t: int)
    requires Valid(s) && s.now <= t && s.reducedMotion
    ensures WaitUntil(s, t).current == s.current
    decreases t - s.now, |s.pending|, TickNow(s)
  {
    match NextDue(s)
    case Some(d) =>
      if d <= t {
        ReducedMotionFreezesIndex(FireTimer(s), t);
      }
    case None =>
  }

  /** How many interval ticks fall in `(now, t]` when the next one is due at `due`. */
  function TicksUntil(due: int, t: int): (k: nat)
    ensures k == 0 <==> t < due
    ensures 0 < k ==> due + (k - 1) * AutoplayPeriodMs <= t < due + k * AutoplayPeriodMs
  {
    if t < due then 0 else (t - due) / AutoplayPeriodMs + 1
  }

  /** After one tick at `due`, one tick fewer remains until `t`. */
  lemma TicksAfterTick(due: int, t: int)
    requires due <= t
    ensures TicksUntil(due + AutoplayPeriodMs, t) + 1 == TicksUntil(due, t)
  {
  }

  /** While autoplay runs, waiting until `t` advances the slide once per tick and
      keeps autoplay on; outstanding re-enable timers change nothing. */
  lemma {:induction false} AutoplayAdvances(s: State, t: int)
    requires Valid(s) && s.now <= t && Ticking(s)
    ensures WaitUntil(s, t).current == NextN(s.current, TicksUntil(s.tickDue, t), s.n)
    ensures WaitUntil(s, t).autoPlaying
    decreases t - s.now, |s.pending|, TickNow(s)
  {
    match NextDue(s)
    case Some(d) =>
      if d <= t {
        var f := FireTimer(s);
        AutoplayAdvances(f, t);
        if !ResumeFirst(s) {
          TicksAfterTick(s.tickDue, t);
          NextNShift(s.current, TicksUntil(f.tickDue, t), s.n);
        }
      }
    case None =>
  }

  /** The same count in closed form: `k` ticks move slide `i` to `(i + k) mod n`. */
  lemma AutoplayPosition(s: State, t: int)
    requires Valid(s) && s.now <= t && Ticking(s)
    ensures WaitUntil(s, t).current == (s.current + TicksUntil(s.tickDue, t)) % s.n
  {
    var k := TicksUntil(s.tickDue, t);
    AutoplayAdvances(s, t);
    NextNIsModularSum(s.current, k, s.n);
    assert WaitUntil(s, t).current == NextN(s.current, k, s.n);
  }

  /** A paused carousel (the state every manual navigation leaves) does not move
      before its earliest re-enable timer fires. */
  lemma PausedFreezesIndex(s: State, t: int)
    requires Valid(s) && s.now <= t && !s.autoPlaying
    requires s.pending == [] || t < s.pending[0]
    ensures WaitUntil(s, t).current == s.current
  {
  }

  /** Once the earliest re-enable timer of a paused carousel has fired, the
      interval restarts from that moment: its first tick comes 5000 ms later. */
  lemma ResumedAdvances(s: State, t: int)
    requires Valid(s) && s.now <= t && !s.autoPlaying && !s.reducedMotion
    requires s.pending != [] && s.pending[0] <= t
    ensures WaitUntil(s, t).current == NextN(s.current, TicksUntil(s.pending[0] + AutoplayPeriodMs, t), s.n)
  {
    var f := FireTimer(s);
    assert WaitUntil(s, t) == WaitUntil(f, t);
    AutoplayAdvances(f, t);
  }

  /** Starting a wait later changes nothing while no timer falls due in between. */
  lemma {:induction false} WaitFromLater(s: State, t1: int, t2: int)
    requires Valid(s) && s.now <= t1 <= t2
    requires NextDue(s).None? || t1 < NextDue(s).value
    ensures Valid(s.(now := t1))
    ensures WaitUntil(s.(now := t1), t2) == WaitUntil(s, t2)
  {
    var s' := s.(now := t1);
    assert NextDue(s') == NextDue(s);
    match NextDue(s)
    case Some(d) =>
      if d <= t2 {
        assert FireTimer(s') == FireTimer(s);
      }
    case None =>
  }

  /** Waiting until `t1` and then until `t2` is the same as waiting until `t2`:
      a wait cancels no timer and does not move the next tick. */
  lemma {:induction false} WaitSplit(s: State, t1: int, t2: int)
    requires Valid(s) && s.now <= t1 <= t2
    ensures WaitUntil(WaitUntil(s, t1), t2) == WaitUntil(s, t2)
    decreases t1 - s.now, |s.pending|, TickNow(s)
  {
    match NextDue(s)
    case Some(d) =>
      if d <= t1 {
        WaitSplit(FireTimer(s), t1, t2);
      } else {
        WaitFromLater(s, t1, t2);
      }
    case None =>
      WaitFromLater(s, t1, t2);
  }

  /** A cooldown may be waited out in pieces: after a navigation with no earlier
      timer outstanding, waiting `d1` ms and then `d2` ms brings autoplay back
      exactly when the two add up to the cooldown. */
  lemma SplitCooldown(s: State, target: nat, d1: nat, d2: nat)
    requires Valid(s) && target < s.n && s.pending == []
    ensures var r := Navigate(s, target);
      WaitUntil(WaitUntil(r, r.now + d1), r.now + d1 + d2).autoPlaying <==> d1 + d2 >= CooldownMs
  {
    var r := Navigate(s, target);
    WaitSplit(r, r.now + d1, r.now + d1 + d2);
    NavigationCooldown(s, target, d1 + d2);
  }
}
