/** The wait between two polls, `countdown` in dnsupater.go. Wall-clock
    time is an integer count of nanoseconds: `now` is the clock reading
    when the wait begins, a one-second `time.Sleep` moves the reading
    forward by exactly `Second`, and reading the clock takes no time. The
    "Next check in" display has no effect on the wait and is left out. */
module Scheduler {
  import opened Config

  /** Sleeps in whole seconds until the clock reaches `start + interval`,
      re-reading the remaining time before each sleep and stopping as soon
      as it is zero or negative. Returns the clock reading at wake-up and
      the number of one-second sleeps. The cadence is measured from the
      cycle's start: when the cycle's work already used the whole interval
      it returns at once, and otherwise it never oversleeps by a second or
      more. A real `time.Sleep` lasts at least the time asked for, so only
      the lower bound on the wake-up time and the immediate return carry
      over to the program; the upper bound rests on sleeps lasting exactly
      one second. */
  method Countdown(interval: int, start: int, now: int) returns (wakeAt: int, sleeps: nat)
    ensures wakeAt >= start + interval
    ensures wakeAt == now + sleeps * Second
    ensures now >= start + interval ==> sleeps == 0 && wakeAt == now
    ensures now < start + interval ==> wakeAt < start + interval + Second
  {
    var target := start + interval;
    var clock := now;
    sleeps := 0;
    var remaining := target - clock;
    while remaining > 0
      invariant clock == now + sleeps * Second
      invariant remaining == target - clock
      invariant sleeps > 0 ==> now < target && clock < target + Second
      decreases remaining
    {
      clock := clock + Second;
      sleeps := sleeps + 1;
      remaining := target - clock;
    }
    wakeAt := clock;
  }
}
