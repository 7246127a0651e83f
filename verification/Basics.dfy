/** Small shared datatypes: optional values, fallible results, positive clock ticks. */
module Basics {

  datatype Option<+T> = None | Some(value: T) {
    /** The value carried, or `default` when there is none (the source's `??`). */
    function GetOr(default: T): T {
      match this
      case Some(v) => v
      case None => default
    }
  }

  datatype Result<+T, +E> = Ok(value: T) | Refused(error: E)

  /** Status of one telemetry-ownership signal. */
  datatype Health = Healthy | Warning | Critical

  /** Every event of a run moves the clock strictly forward. */
  type Tick = t: int | 0 < t witness 1

  const MINUTE: int := 60000

  /** A request's payment gets at most so many attempts. */
  const MAXIMUM_ATTEMPTS: nat := 3

  function Max(a: int, b: int): int {
    if a < b then b else a
  }

  function Min(a: int, b: int): int {
    if a < b then a else b
  }

  /**
   * `Math.round(milliseconds / 60000)`: JavaScript rounds half-way values up, so the result is
   * the floor of the quotient plus one half; the divisor is positive, so `/` is the floor.
   */
  function RoundToMinutes(milliseconds: int): (minutes: int)
    ensures 60000 * minutes - 30000 <= milliseconds < 60000 * minutes + 30000
  {
    (milliseconds + MINUTE / 2) / MINUTE
  }

  function AgeMinutes(now: int, at: int): (minutes: int)
    ensures now <= at ==> minutes == 0
    ensures at <= now ==> 0 <= minutes && 60000 * minutes - 30000 <= now - at < 60000 * minutes + 30000
  {
    Max(0, RoundToMinutes(now - at))
  }
}
