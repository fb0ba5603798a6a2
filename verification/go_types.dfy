/**
 The handful of Go runtime notions the todo service leans on: fixed-width
 integers, the comma-ok result of an error-returning call, and time.Time as
 this code uses it (whole Unix seconds plus a nanosecond offset).
 */
module GoTypes {

  const TwoTo32: int := 0x1_0000_0000
  const TwoTo63: int := 0x8000_0000_0000_0000
  const TwoTo64: int := 0x1_0000_0000_0000_0000

  type uint32 = x: int | 0 <= x < 0x1_0000_0000
  type uint64 = x: int | 0 <= x < 0x1_0000_0000_0000_0000
  type int64 = x: int | -0x8000_0000_0000_0000 <= x < 0x8000_0000_0000_0000

  /** math.MaxUint64 */
  const MaxUint64: uint64 := 0xFFFF_FFFF_FFFF_FFFF

  /** A value that may be absent; for an `error` result, None is Go's nil. */
  datatype Option<+T> = None | Some(value: T)

  /** Go's `int64(t)` on a uint64 keeps the 64 bits: values from 2^63 up
      come back negative, shifted down by 2^64. */
  function ToInt64(t: uint64): (r: int64)
    ensures (t - r) % TwoTo64 == 0
    ensures r == t <==> t < TwoTo63
    ensures r < 0 <==> t >= TwoTo63
  {
    if t < TwoTo63 then t else t - TwoTo64
  }

  type Nanos = n: int | 0 <= n < 1_000_000_000

  /** An instant as time.Time presents it here: `sec` is what `Unix()`
      returns, `nsec` the sub-second part that Go keeps in [0, 1e9).
      Locations and monotonic clock readings are not modelled. */
  datatype Time = Time(sec: int64, nsec: Nanos)

  /** The zero time.Time is January 1 of year 1, UTC. */
  const ZeroTime: Time := Time(-62135596800, 0)
}
