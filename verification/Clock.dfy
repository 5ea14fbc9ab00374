/** Instants and durations, in nanoseconds, as Go's time package counts them. */
module Clock {
  type Time = int

  const SECOND: Time := 1_000_000_000
}
