/** What the Go code says with nil pointers and with (value, error) pairs, and its
    units of time in nanoseconds. */
module Basics {
  datatype Option<+T> = None | Some(value: T)

  const MILLISECOND := 1_000_000
  const SECOND := 1000 * MILLISECOND
  const MINUTE := 60 * SECOND
  const HOUR := 60 * MINUTE
  const DAY := 24 * HOUR
  const WEEK := 7 * DAY
}
