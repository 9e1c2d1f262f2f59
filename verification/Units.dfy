/** Durations, in nanoseconds as Go counts them. */
module Units {
  const MILLISECOND := 1_000_000
  const SECOND := 1_000_000_000
}
