/** The redraw scheduling arithmetic of the watch face engine: when the update-time
    timer should run, and how long to wait until the next whole second. */
module RedrawSchedule {
  import JavaInt

  /** INTERACTIVE_UPDATE_RATE_MS: one redraw per second while interactive. */
  const INTERACTIVE_UPDATE_RATE_MS: int := 1000

  /** shouldTimerBeRunning(): the timer runs only while the face is visible and
      not in ambient mode. */
  predicate ShouldTimerBeRunning(visible: bool, inAmbientMode: bool) {
    visible && !inAmbientMode
  }

  /** The delay handleUpdateTimeMessage computes from the clock reading `timeMs`
      (a Java `long`, with Java's `%`). The wake-up lands on a whole second and is
      never immediate; for a clock at or after the epoch it is at most one second. */
  function RedrawDelay(timeMs: int): (delayMs: int)
    ensures 1 <= delayMs < 2 * INTERACTIVE_UPDATE_RATE_MS
    ensures timeMs >= 0 ==> delayMs <= INTERACTIVE_UPDATE_RATE_MS
    ensures (timeMs + delayMs) % INTERACTIVE_UPDATE_RATE_MS == 0
  {
    JavaInt.DivRem(timeMs, INTERACTIVE_UPDATE_RATE_MS);
    INTERACTIVE_UPDATE_RATE_MS - JavaInt.Rem(timeMs, INTERACTIVE_UPDATE_RATE_MS)
  }

  /** For a clock at or after the epoch, the delay reaches the FIRST whole second
      strictly after `timeMs`: no shorter positive delay is second-aligned. */
  lemma RedrawDelayIsNextSecond(timeMs: int, d: int)
    requires timeMs >= 0
    requires 0 < d < RedrawDelay(timeMs)
    ensures (timeMs + d) % INTERACTIVE_UPDATE_RATE_MS != 0
  {
  }

  /** The two worked cases of the redraw rhythm: 400 ms past a second waits 600 ms,
      and a clock exactly on a second waits a full second instead of zero. */
  lemma RedrawDelayExamples()
    ensures RedrawDelay(12_400) == 600
    ensures RedrawDelay(13_000) == 1000
    ensures RedrawDelay(0) == 1000
  {
  }
}
