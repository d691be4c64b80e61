/** Go's time.Duration, shared by the checker and the configuration. */
module Time {
  /** A span of time in nanoseconds, as Go's time.Duration. */
  type Duration = int

  /** time.Second in nanoseconds. */
  const NanosPerSecond := 1_000_000_000
}
