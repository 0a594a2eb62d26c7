/** Time as the source reads it: nanoseconds since the Unix epoch that fit an int64. */
module Clock {

  const SECOND := 1_000_000_000

  type Instant = t: int | 0 <= t < 0x8000_0000_0000_0000

  /** time.Time.Unix, which rounds down. */
  function Unix(t: int): int {
    t / SECOND
  }

  /** int(d.Seconds()) for a non-negative duration. */
  function WholeSeconds(d: nat): nat {
    d / SECOND
  }

  lemma UnixMonotone(a: int, b: int)
    requires 0 <= a <= b
    ensures Unix(a) <= Unix(b) && Unix(a) * 1_000_000_000 <= a < (Unix(a) + 1) * 1_000_000_000
  {
  }
}
