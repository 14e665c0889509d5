/** The one property of chrono's `TimeDelta` (alias `Duration`) the server
    depends on: its range. `TimeDelta::MAX` is `i64::MAX` milliseconds, so a
    whole number of seconds is representable up to `i64::MAX / 1000`;
    `TimeDelta::from_std` fails beyond it and `TimeDelta::seconds` panics. */
module Chrono {
  const MaxDeltaSeconds: int := 0x7FFF_FFFF_FFFF_FFFF / 1000

  /** A non-negative whole number of seconds chrono can hold as a `TimeDelta`. */
  predicate Representable(secs: int) {
    0 <= secs <= MaxDeltaSeconds
  }
}
