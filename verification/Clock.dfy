/** Units of time. */
module Clock {
  /** A second in microseconds, the resolution of the clock. */
  const SECOND := 1_000_000

  /** A minute and a day in seconds. */
  const MINUTE := 60
  const DAY := 86400
}
