/** The random delay that the managers and the HTTP writer share; durations are nanoseconds. */
module Jitter {
  const MILLISECOND: int := 1_000_000

  /**
   `calculateJitter`, given the drawn number; both the secure draw and the
   time-based fallback are reduced below the number of whole milliseconds.
   */
  function Calculate(maxJitter: int, drawn: nat): (jitter: int)
    ensures 0 <= jitter
    ensures jitter == 0 || jitter < maxJitter
    ensures jitter % MILLISECOND == 0
    ensures drawn < maxJitter / 1_000_000 ==> jitter == drawn * 1_000_000
  {
    var maxMs := maxJitter / MILLISECOND;
    if maxJitter <= 0 || maxMs <= 0 then 0
    else
      var ms := drawn % maxMs;
      assert (ms + 1) * MILLISECOND <= maxMs * MILLISECOND;
      ms * MILLISECOND
  }
}
