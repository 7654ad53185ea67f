/** The fixed-width .NET value types the breaker's fields are declared with:
    `int` (System.Int32) for the counters and `TimeSpan` (a count of
    100-nanosecond ticks held in a System.Int64) for the timeout. */
module SystemTypes {

  newtype int32 = x: int | -0x8000_0000 <= x < 0x8000_0000
  newtype int64 = x: int | -0x8000_0000_0000_0000 <= x < 0x8000_0000_0000_0000

  const MaxInt32: int32 := 0x7fff_ffff
  const MinInt32: int32 := -0x8000_0000

  /** `x++` on an `int`, in C#'s default unchecked context: the largest value
      wraps around to the smallest. */
  function UncheckedIncrement(x: int32): int32
  {
    if x == MaxInt32 then MinInt32 else x + 1
  }

  /** One tick is 100 nanoseconds. */
  const TicksPerSecond: int := 10_000_000
  const TicksPerMinute: int := 60 * TicksPerSecond

  /** C#'s integer `/`, which truncates toward zero (Dafny's is Euclidean). */
  function TruncDiv(a: int, b: int): int
    requires b > 0
  {
    if a >= 0 then a / b else -((-a) / b)
  }

  /** C#'s integer `%`, whose result takes the sign of the dividend. */
  function TruncRem(a: int, b: int): int
    requires b > 0
  {
    a - b * TruncDiv(a, b)
  }

  /** `TimeSpan.Minutes`: the minutes COMPONENT of a duration, between -59
      and 59, computed as `ticks / TicksPerMinute % 60` in C# arithmetic.
      It is not the total number of minutes: one hour has component 0. */
  function MinutesComponent(ticks: int64): (m: int)
    ensures -59 <= m <= 59
    ensures ticks >= 0 ==> m == (ticks as int / TicksPerMinute) % 60
    ensures ticks <= 0 ==> m <= 0
  {
    TruncRem(TruncDiv(ticks as int, TicksPerMinute), 60)
  }

  /** `TimeSpan.FromMinutes` for a whole number of minutes. A non-negative
      number of minutes has as its minutes component that number modulo one
      hour. */
  function FromMinutes(minutes: int): (t: int64)
    requires -0x8000_0000_0000_0000 <= minutes * TicksPerMinute < 0x8000_0000_0000_0000
    ensures minutes >= 0 ==> MinutesComponent(t) == minutes % 60
  {
    (minutes * TicksPerMinute) as int64
  }
}
