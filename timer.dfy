/** The per-question countdown (src/timer.rs).

    The monotonic clock is not read here: every operation that the source runs
    against `Instant::now()` takes the current instant `now` as an argument.
    Instants and durations are counts of nanosecond ticks, the resolution of
    Rust's `Duration`; the clock never goes backwards, so a caller never passes
    a `now` earlier than the instant the timer was started at. */
module Timing {
  import opened Numeric

  /** Ticks in one second. */
  const NanosPerSecond: nat := 1_000_000_000

  /** `Duration::from_secs`: a whole number of seconds as a tick count. */
  function FromSecs(secs: nat): (d: nat)
    ensures d % NanosPerSecond == 0 && d / NanosPerSecond == secs
    ensures d == 0 <==> secs == 0
  {
    secs * NanosPerSecond
  }

  class Timer {
    /** The instant the countdown started at. */
    var started: nat
    /** The length of the countdown. */
    var limit: nat

    /** `Timer::new(limit_secs)` at instant `now`. A zero limit is accepted,
        and such a timer is expired from the start. */
    constructor (limitSecs: nat, now: nat)
      ensures started == now && limit == FromSecs(limitSecs)
      ensures Elapsed(now) == 0 && Remaining(now) == limit
      ensures IsExpired(now) <==> limitSecs == 0
    {
      started := now;
      limit := FromSecs(limitSecs);
    }

    /** Time since the start. */
    function Elapsed(now: nat): (d: nat)
      reads this
      requires started <= now
      ensures started + d == now
    {
      now - started
    }

    /** Time left before expiry, clamped at zero. */
    function Remaining(now: nat): (r: nat)
      reads this
      requires started <= now
      ensures r <= limit
      ensures r == 0 <==> Elapsed(now) >= limit
      ensures Elapsed(now) <= limit ==> Elapsed(now) + r == limit
    {
      SaturatingSub(limit, Elapsed(now))
    }

    /** The limit has been reached: exactly when nothing remains, i.e. once
        `now` is at or past the deadline `started + limit`. */
    predicate IsExpired(now: nat)
      reads this
      requires started <= now
      ensures IsExpired(now) <==> Remaining(now) == 0
      ensures IsExpired(now) <==> started + limit <= now
    {
      Elapsed(now) >= limit
    }

    /** `reset(limit_secs)` at instant `now`: both fields are overwritten, so
        nothing of the previous countdown survives. */
    method Reset(limitSecs: nat, now: nat)
      modifies this
      ensures started == now && limit == FromSecs(limitSecs)
      ensures Elapsed(now) == 0 && Remaining(now) == limit
      ensures IsExpired(now) <==> limitSecs == 0
    {
      started := now;
      limit := FromSecs(limitSecs);
    }
  }

  /** Once expired, a timer stays expired at every later instant until it is
      reset: time alone never brings it back. */
  lemma ExpiryIsMonotone(t: Timer, now: nat, later: nat)
    requires t.started <= now <= later
    requires t.IsExpired(now)
    ensures t.IsExpired(later)
    ensures t.Remaining(later) == 0
  {
  }
}
