/** The dual sliding-window rate limiter of `FinnhubClient` (data/finnhub_feed.py).

    One evaluation of the loop body is the function `Attempt`; a run is the
    sequence of clock readings at which the body was evaluated, whichever
    callers they belong to (the lock is held across the sleep, so bodies never
    overlap). The class carries out the same steps on its two deques.
  */
module RateLimiter {
  import opened Clock

  const PLAN_PER_MIN: nat := 300
  const GLOBAL_PER_SEC: nat := 30
  const MINUTE: real := 60.0
  const SECOND: real := 1.0
  const SLACK: real := 0.01

  datatype Windows = Windows(minute: seq<real>, second: seq<real>)

  /** Drops the entries at the front that are at least `span` old. */
  function Live(w: seq<real>, now: real, span: real): seq<real>
  {
    if w != [] && now - w[0] >= span then Live(w[1..], now, span) else w
  }

  function Expire(w: Windows, now: real): Windows
  {
    Windows(Live(w.minute, now, MINUTE), Live(w.second, now, SECOND))
  }

  function Longer(a: real, b: real): real { if a >= b then a else b }

  /** How long a body evaluated at `now` sleeps; zero means it grants. */
  function WaitSec(w: Windows, now: real): real
  {
    var m := if |w.minute| >= PLAN_PER_MIN then Longer(0.0, MINUTE - (now - w.minute[0])) else 0.0;
    if |w.second| >= GLOBAL_PER_SEC then Longer(m, SECOND - (now - w.second[0])) else m
  }

  /** One loop body: the new windows and the requested wait. */
  function Attempt(w: Windows, now: real): (Windows, real)
  {
    var live := Expire(w, now);
    var wait := WaitSec(live, now);
    if wait <= 0.0 then (Windows(live.minute + [now], live.second + [now]), 0.0) else (live, wait)
  }

  /** The windows and the grant times after the body ran at each reading in turn. */
  function Run(readings: seq<real>): (Windows, seq<real>)
  {
    if readings == [] then (Windows([], []), [])
    else
      var now := readings[|readings| - 1];
      var (w, g) := Run(readings[..|readings| - 1]);
      var (w', wait) := Attempt(w, now);
      (w', if wait == 0.0 then g + [now] else g)
  }

  ghost predicate NonDecreasing(s: seq<real>)
  {
    forall i, j :: 0 <= i < j < |s| ==> s[i] <= s[j]
  }

  /** How many of the times lie in [lo, hi). */
  function CountIn(g: seq<real>, lo: real, hi: real): nat
  {
    if g == [] then 0
    else CountIn(g[..|g| - 1], lo, hi) + (if lo <= g[|g| - 1] < hi then 1 else 0)
  }

  /** How many of the times are less than `span` old at `now`. */
  function CountRecent(g: seq<real>, now: real, span: real): nat
  {
    if g == [] then 0
    else CountRecent(g[..|g| - 1], now, span) + (if now - g[|g| - 1] < span then 1 else 0)
  }

  // ---------------------------------------------------------------- one window

  ghost predicate Gap(g: seq<real>, i: nat, span: real, cap: nat)
    requires i + cap < |g|
  {
    g[i + cap] - g[i] >= span
  }

  /** Any `cap + 1` consecutive grants span at least `span`. */
  ghost predicate Spaced(g: seq<real>, span: real, cap: nat)
  {
    forall i :: 0 <= i < |g| - cap ==> Gap(g, i, span, cap)
  }

  /** The window is the suffix of the history that may still be live at `now`. */
  ghost predicate Tracks(w: seq<real>, g: seq<real>, now: real, span: real, cap: nat)
  {
    && |w| <= |g| && |w| <= cap
    && w == g[|g| - |w|..]
    && NonDecreasing(g)
    && (forall i :: 0 <= i < |g| ==> g[i] <= now)
    && (forall i :: 0 <= i < |g| - |w| ==> now - g[i] >= span)
    && Spaced(g, span, cap)
  }

  lemma {:induction false} LiveTracks(w: seq<real>, g: seq<real>, before: real, now: real, span: real, cap: nat)
    requires Tracks(w, g, before, span, cap) && before <= now
    ensures Tracks(Live(w, now, span), g, now, span, cap)
    ensures forall t :: t in Live(w, now, span) ==> now - t < span
    decreases |w|
  {
    var k := |g| - |w|;
    if w != [] && now - w[0] >= span {
      assert w[0] == g[k];
      assert w[1..] == g[k + 1..];
      LiveTracks(w[1..], g, now, now, span, cap);
    } else {
      forall t | t in w ensures now - t < span {
        var i :| 0 <= i < |w| && w[i] == t;
        assert w[i] == g[k + i] && w[0] == g[k];
      }
    }
  }

  lemma GrantTracks(w: seq<real>, g: seq<real>, now: real, span: real, cap: nat)
    requires Tracks(w, g, now, span, cap) && |w| < cap
    ensures Tracks(w + [now], g + [now], now, span, cap)
  {
    var g' := g + [now];
    assert (w + [now]) == g'[|g'| - |w + [now]|..];
    forall i | 0 <= i < |g'| - cap ensures Gap(g', i, span, cap) {
      if i + cap == |g| {
        assert i < |g| - |w|;
      } else {
        assert Gap(g, i, span, cap);
      }
    }
  }

  lemma {:induction false} CountNone(g: seq<real>, lo: real, hi: real)
    requires forall i :: 0 <= i < |g| ==> g[i] < lo
    ensures CountIn(g, lo, hi) == 0
  {
    if g != [] { CountNone(g[..|g| - 1], lo, hi); }
  }

  lemma {:induction false} CountPrefix(g: seq<real>, m: nat, lo: real, hi: real)
    requires m <= |g|
    ensures CountIn(g, lo, hi) <= CountIn(g[..m], lo, hi) + (|g| - m)
  {
    if m < |g| {
      var f := g[..|g| - 1];
      assert f[..m] == g[..m];
      CountPrefix(f, m, lo, hi);
    } else {
      assert g[..m] == g;
    }
  }

  /** Spacing is what bounds every half-open interval. */
  lemma {:induction false} SpacedBounds(g: seq<real>, span: real, cap: nat, x: real)
    requires NonDecreasing(g) && Spaced(g, span, cap) && cap > 0
    ensures CountIn(g, x, x + span) <= cap
  {
    if g != [] {
      var n := |g| - 1;
      var f := g[..n];
      forall i | 0 <= i < |f| - cap ensures Gap(f, i, span, cap) {
        assert Gap(g, i, span, cap);
      }
      SpacedBounds(f, span, cap, x);
      if x <= g[n] < x + span && |g| > cap {
        var m := |g| - cap;
        forall i | 0 <= i < m ensures g[..m][i] < x {
          assert Gap(g, m - 1, span, cap);
          assert g[i] <= g[m - 1];
        }
        CountNone(g[..m], x, x + span);
        CountPrefix(g, m, x, x + span);
      } else {
        CountPrefix(g, 0, x, x + span);
      }
    }
  }

  lemma TracksFront(w: seq<real>, g: seq<real>, now: real, span: real, cap: nat)
    requires Tracks(w, g, now, span, cap) && g != []
    ensures w == [] ==> Tracks([], g[..|g| - 1], now, span, cap) && now - g[|g| - 1] >= span
    ensures w != [] ==> Tracks(w[..|w| - 1], g[..|g| - 1], now, span, cap) && w[|w| - 1] == g[|g| - 1]
  {
    var f := g[..|g| - 1];
    forall i | 0 <= i < |f| - cap ensures Gap(f, i, span, cap) {
      assert Gap(g, i, span, cap);
    }
    hide Gap;
    if w != [] { assert w[..|w| - 1] == f[|f| - |w| + 1..]; }
  }

  lemma {:induction false} RecentIsWindow(w: seq<real>, g: seq<real>, now: real, span: real, cap: nat)
    requires Tracks(w, g, now, span, cap)
    requires forall t :: t in w ==> now - t < span
    ensures CountRecent(g, now, span) == |w|
    decreases |g|
  {
    assert g == [] ==> w == [];
    hide Tracks;
    if g != [] {
      TracksFront(w, g, now, span, cap);
      if w == [] {
        RecentIsWindow([], g[..|g| - 1], now, span, cap);
      } else {
        assert w[|w| - 1] in w;
        var v := w[..|w| - 1];
        assert forall t :: t in v ==> t in w;
        RecentIsWindow(v, g[..|g| - 1], now, span, cap);
      }
    }
  }

  /** After expiry the window holds exactly the grants less than `span` old. */
  lemma WindowStep(w: seq<real>, g: seq<real>, before: real, now: real, span: real, cap: nat)
    requires Tracks(w, g, before, span, cap) && before <= now
    ensures var live := Live(w, now, span);
            && Tracks(live, g, now, span, cap)
            && CountRecent(g, now, span) == |live|
            && (live != [] ==> now - live[0] < span)
            && (|live| < cap ==> Tracks(live + [now], g + [now], now, span, cap))
  {
    var live := Live(w, now, span);
    LiveTracks(w, g, before, now, span, cap);
    RecentIsWindow(live, g, now, span, cap);
    if live != [] {
      assert live[0] in live;
    }
    if |live| < cap {
      GrantTracks(live, g, now, span, cap);
    }
  }

  // ---------------------------------------------------------------- both windows

  ghost predicate Tracked(w: Windows, g: seq<real>, now: real)
  {
    && Tracks(w.minute, g, now, MINUTE, PLAN_PER_MIN)
    && Tracks(w.second, g, now, SECOND, GLOBAL_PER_SEC)
  }

  /** What one body keeps, and exactly when it grants: a grant happens if and
      only if fewer than 300 earlier grants are less than 60 s old and fewer
      than 30 are less than 1 s old. */
  lemma AttemptStep(w: Windows, g: seq<real>, before: real, now: real)
    requires Tracked(w, g, before) && before <= now
    ensures var (w', wait) := Attempt(w, now);
            && wait >= 0.0
            && Tracked(w', if wait == 0.0 then g + [now] else g, now)
            && (wait == 0.0 <==> CountRecent(g, now, 60.0) < 300 && CountRecent(g, now, 1.0) < 30)
  {
    hide Tracks, Live, CountRecent;
    WindowStep(w.minute, g, before, now, MINUTE, PLAN_PER_MIN);
    WindowStep(w.second, g, before, now, SECOND, GLOBAL_PER_SEC);
    var live := Expire(w, now);
    assert WaitSec(live, now) > 0.0 <==> |live.minute| >= PLAN_PER_MIN || |live.second| >= GLOBAL_PER_SEC;
    if |live.minute| < PLAN_PER_MIN && |live.second| < GLOBAL_PER_SEC {
      assert Tracked(Windows(live.minute + [now], live.second + [now]), g + [now], now);
    }
  }

  lemma {:induction false} RunTracked(readings: seq<real>, now: real)
    requires NonDecreasing(readings)
    requires readings == [] || readings[|readings| - 1] <= now
    ensures Tracked(Run(readings).0, Run(readings).1, now)
  {
    if readings == [] {
    } else {
      var last := readings[|readings| - 1];
      var front := readings[..|readings| - 1];
      RunTracked(front, last);
      AttemptStep(Run(front).0, Run(front).1, last, last);
      TrackedLater(Run(readings).0, Run(readings).1, last, now);
    }
  }

  lemma TrackedLater(w: Windows, g: seq<real>, before: real, now: real)
    requires Tracked(w, g, before) && before <= now
    ensures Tracked(w, g, now)
  {
  }

  /** Both published limits follow from what every body keeps. */
  lemma TrackedLimits(w: Windows, g: seq<real>, now: real, x: real)
    requires Tracked(w, g, now)
    ensures CountIn(g, x, x + 60.0) <= 300
    ensures CountIn(g, x, x + 1.0) <= 30
  {
    SpacedBounds(g, MINUTE, PLAN_PER_MIN, x);
    SpacedBounds(g, SECOND, GLOBAL_PER_SEC, x);
  }

  /** Both published limits, over every run with a non-decreasing clock and
      every half-open interval. */
  lemma RateLimitsHold(readings: seq<real>, x: real)
    requires NonDecreasing(readings)
    ensures CountIn(Run(readings).1, x, x + 60.0) <= 300
    ensures CountIn(Run(readings).1, x, x + 1.0) <= 30
  {
    var now := if readings == [] then 0.0 else readings[|readings| - 1];
    RunTracked(readings, now);
    TrackedLimits(Run(readings).0, Run(readings).1, now, x);
  }

  lemma {:induction false} LiveShorter(w: seq<real>, now: real, span: real)
    ensures |Live(w, now, span)| <= |w|
  {
    if w != [] && now - w[0] >= span { LiveShorter(w[1..], now, span); }
  }

  lemma RoomAfterWait(live: seq<real>, g: seq<real>, now: real, later: real, span: real, cap: nat)
    requires Tracks(live, g, now, span, cap) && cap > 0
    requires |live| >= cap ==> later >= now + (span - (now - live[0]))
    ensures |Live(live, later, span)| < cap
  {
    LiveShorter(live, later, span);
    if |live| >= cap {
      LiveShorter(live[1..], later, span);
    }
  }

  /** A body that had to wait grants at its next reading, provided the clock
      has moved on by at least the time it asked for. */
  lemma OneSleepIsEnough(w: Windows, g: seq<real>, now: real, later: real)
    requires Tracked(w, g, now) && Attempt(w, now).1 > 0.0
    requires later >= now + Attempt(w, now).1
    ensures Attempt(Attempt(w, now).0, later).1 == 0.0
  {
    hide Tracks, Live, CountRecent;
    var live := Expire(w, now);
    WindowStep(w.minute, g, now, now, MINUTE, PLAN_PER_MIN);
    WindowStep(w.second, g, now, now, SECOND, GLOBAL_PER_SEC);
    RoomAfterWait(live.minute, g, now, later, MINUTE, PLAN_PER_MIN);
    RoomAfterWait(live.second, g, now, later, SECOND, GLOBAL_PER_SEC);
  }

  lemma TooEarly(live: seq<real>, later: real, span: real)
    requires live != [] && later - live[0] < span
    ensures Live(live, later, span) == live
  {
  }

  /** The wait is exact: a body that had to wait grants at a later reading if and
      only if the wait it computed is over. */
  lemma WaitIsExact(w: Windows, g: seq<real>, now: real, later: real)
    requires Tracked(w, g, now) && Attempt(w, now).1 > 0.0 && now <= later
    ensures Attempt(Attempt(w, now).0, later).1 == 0.0 <==> later >= now + Attempt(w, now).1
  {
    if later >= now + Attempt(w, now).1 {
      OneSleepIsEnough(w, g, now, later);
    } else {
      hide Tracks, Live, CountRecent;
      var live := Expire(w, now);
      if live.minute != [] && later - live.minute[0] < MINUTE { TooEarly(live.minute, later, MINUTE); }
      if live.second != [] && later - live.second[0] < SECOND { TooEarly(live.second, later, SECOND); }
    }
  }

  // ---------------------------------------------------------------- the client

  /** The `popleft` loop run on each deque. */
  method DropExpired(window: seq<real>, now: real, span: real) returns (rest: seq<real>)
    ensures rest == Live(window, now, span)
  {
    rest := window;
    while rest != [] && now - rest[0] >= span
      invariant Live(rest, now, span) == Live(window, now, span)
      decreases |rest|
    {
      rest := rest[1..];
    }
  }

  class FinnhubClient {
    var minuteWindow: seq<real>
    var secondWindow: seq<real>
    ghost var grants: seq<real>     // every grant so far, oldest first
    ghost var lastReading: real

    function State(): Windows
      reads this
    {
      Windows(minuteWindow, secondWindow)
    }

    ghost predicate Valid()
      reads this
    {
      Tracked(State(), grants, lastReading)
    }

    constructor ()
      ensures Valid() && State() == Windows([], []) && grants == []
    {
      minuteWindow, secondWindow, grants, lastReading := [], [], [], 0.0;
    }

    /** The loop body of `_wait_for_rate_capacity`, up to its return or sleep. */
    method TryAcquire(now: real) returns (waitSec: real)
      requires Valid() && lastReading <= now
      modifies this
      ensures Valid() && lastReading == now
      ensures (State(), waitSec) == Attempt(old(State()), now) && waitSec >= 0.0
      ensures grants == if waitSec == 0.0 then old(grants) + [now] else old(grants)
      ensures waitSec == 0.0 <==>
              (CountRecent(old(grants), now, MINUTE) < PLAN_PER_MIN &&
               CountRecent(old(grants), now, SECOND) < GLOBAL_PER_SEC)
    {
      ghost var w, g := State(), grants;
      ghost var granted := Attempt(w, now).1 == 0.0;
      assert Tracked(Attempt(w, now).0, if granted then g + [now] else g, now)
             && (granted <==>
                 CountRecent(g, now, MINUTE) < PLAN_PER_MIN && CountRecent(g, now, SECOND) < GLOBAL_PER_SEC)
      by {
        AttemptStep(w, g, lastReading, now);
      }
      waitSec := Step(now);
      if granted { grants := g + [now]; }
      lastReading := now;
    }

    /** The part of the body that works on the deques. */
    method Step(now: real) returns (waitSec: real)
      modifies this`minuteWindow, this`secondWindow
      ensures (State(), waitSec) == Attempt(old(State()), now)
    {
      minuteWindow := DropExpired(minuteWindow, now, MINUTE);
      secondWindow := DropExpired(secondWindow, now, SECOND);
      waitSec := 0.0;
      if |minuteWindow| >= PLAN_PER_MIN {
        waitSec := Longer(waitSec, MINUTE - (now - minuteWindow[0]));
      }
      if |secondWindow| >= GLOBAL_PER_SEC {
        waitSec := Longer(waitSec, SECOND - (now - secondWindow[0]));
      }
      if waitSec <= 0.0 {
        minuteWindow := minuteWindow + [now];
        secondWindow := secondWindow + [now];
      }
    }

    /** Returns once a request may be sent, after at most one sleep. */
    method WaitForRateCapacity(clock: MonotonicClock) returns (sleeps: nat, ghost first: real, ghost asked: real)
      requires Valid() && lastReading <= clock.now
      modifies this, clock
      ensures Valid() && lastReading <= clock.now
      ensures sleeps <= 1
      ensures old(clock.now) <= first && (sleeps == 1 ==> asked == Attempt(old(State()), first).1 + 0.01)
      ensures old(clock.now) <= lastReading && grants == old(grants) + [lastReading]
    {
      hide Attempt, Tracked, CountRecent;
      sleeps, first, asked := 0, clock.now, 0.0;
      while true
        invariant Valid() && lastReading <= clock.now && old(clock.now) <= clock.now
        invariant sleeps <= 1 && grants == old(grants)
        invariant sleeps == 0 ==> State() == old(State())
        invariant old(clock.now) <= first && (sleeps == 1 ==> asked == Attempt(old(State()), first).1 + 0.01)
        invariant sleeps == 1 ==> forall later :: clock.now <= later ==> Attempt(State(), later).1 == 0.0
        decreases 1 - sleeps
      {
        var now := clock.Monotonic();
        ghost var w, g := State(), grants;
        TrackedLater(w, g, lastReading, now);
        var waitSec := TryAcquire(now);
        if waitSec <= 0.0 {
          assert grants == old(grants) + [now];
          return;
        }
        first, asked := now, waitSec + SLACK;
        clock.Sleep(waitSec + SLACK);
        forall later | clock.now <= later ensures Attempt(State(), later).1 == 0.0 {
          OneSleepIsEnough(w, g, now, later);
        }
        sleeps := sleeps + 1;
      }
    }
  }
}
