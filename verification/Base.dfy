/** Small values shared by every component: optional values, instants and string identifiers. */
module Base {

  datatype Option<+T> = None | Some(value: T)

  /** Instants and durations are whole nanoseconds. Go's zero time is `None`. */
  type Time = int

  const SECOND: int := 1_000_000_000
  const HOUR: int := 3600 * SECOND

  /** `time.Time.Sub` of a zero time saturates at the largest duration. */
  const MAX_DURATION: int := 0x7FFF_FFFF_FFFF_FFFF

  function Elapsed(end: Time, since: Option<Time>): int {
    match since
    case Some(t) => end - t
    case None => MAX_DURATION
  }

  function Max(a: int, b: int): int {
    if a < b then b else a
  }

  function Min(a: int, b: int): int {
    if a < b then a else b
  }

  /** A sample value; `NaN` is the explicit "no value". */
  datatype Value = NaN | Num(x: real)
}
