/** Times and durations are whole nanoseconds; a time counts from the Unix epoch. */
module Clock {

  const SECOND: int := 1_000_000_000

  /** The zero time.Time. */
  const ZERO_TIME: int := -62_135_596_800 * SECOND
}
