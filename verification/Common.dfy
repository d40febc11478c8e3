/** Types that every component shares. */
module Common {

  datatype Option<+T> = None | Some(value: T)

  datatype Result<+T, +E> = Ok(value: T) | Err(error: E)

  // Instants and durations are in nanoseconds. An instant is counted from Go's zero
  // time, so ZERO_TIME is the value for which `IsZero` holds.
  type Time = nat
  type Duration = int

  const ZERO_TIME: Time := 0
  const SECOND: int := 1_000_000_000

  // The range of Go's `int` and `int64` on a 64-bit machine.
  const MAX_INT64: int := 0x7fff_ffff_ffff_ffff
  const TWO_TO_THE_64: int := 0x1_0000_0000_0000_0000

  /** The 64-bit two's complement value of a mathematical integer. */
  function Wrap64(n: int): (r: int)
    ensures -MAX_INT64 - 1 <= r <= MAX_INT64
    ensures (r - n) % TWO_TO_THE_64 == 0
    ensures -MAX_INT64 - 1 <= n <= MAX_INT64 ==> r == n
  {
    var m := n % TWO_TO_THE_64;
    if m <= MAX_INT64 then m else m - TWO_TO_THE_64
  }
}
