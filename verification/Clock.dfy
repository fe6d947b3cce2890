/** Time as the event loop sees it. */
module Clock {

  /** `time.monotonic` and `asyncio.sleep`: readings never go back, and a sleep
      lasts at least as long as was asked. */
  class MonotonicClock {
    var now: real

    constructor () { now := 0.0; }

    method Monotonic() returns (t: real)
      modifies this
      ensures t == now && old(now) <= now
    {
      var d: real := *;
      if d > 0.0 { now := now + d; }
      t := now;
    }

    method Sleep(d: real)
      modifies this
      ensures now >= old(now) + d && now >= old(now)
    {
      var extra: real := *;
      if d > 0.0 { now := now + d; }
      if extra > 0.0 { now := now + extra; }
    }
  }
}
