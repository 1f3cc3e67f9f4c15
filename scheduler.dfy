/** The timing arithmetic of `main`'s loop: when to push, and how long to sleep. */
module Scheduler {

  /** `CHECK_INTERVAL`: the target length of one cycle, in seconds. */
  const CheckInterval := 3600
  /** The shortest sleep between two cycles. */
  const MinSleep := 60
  /** Seconds between two pushes. */
  const PushInterval := 21600

  /** `max(CHECK_INTERVAL - elapsed, 60)`. */
  function SleepTime(elapsed: int): (s: int)
    ensures s >= MinSleep
    ensures s >= CheckInterval - elapsed
    ensures s == MinSleep || s == CheckInterval - elapsed
  {
    if CheckInterval - elapsed >= MinSleep then CheckInterval - elapsed else MinSleep
  }

  /** A cycle and its sleep together take at least an hour, and exactly an hour when the
      cycle took at most 59 minutes; a slow cycle is followed by a one-minute sleep. */
  lemma CycleCadence(elapsed: int)
    requires elapsed >= 0
    ensures elapsed + SleepTime(elapsed) >= CheckInterval
    ensures elapsed <= CheckInterval - MinSleep ==> elapsed + SleepTime(elapsed) == CheckInterval
    ensures elapsed > CheckInterval - MinSleep ==> SleepTime(elapsed) == MinSleep
  {
  }

  /** `time_since_last_push > 21600`. */
  predicate ShouldPush(now: int, lastPush: int) {
    now - lastPush > PushInterval
  }

  /** A cycle ending exactly six hours after the last push does not push; one ending a
      second later does. */
  lemma PushBoundary(lastPush: int)
    ensures !ShouldPush(lastPush + PushInterval, lastPush)
    ensures ShouldPush(lastPush + PushInterval + 1, lastPush)
  {
  }
}
