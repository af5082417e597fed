/**
 * The part of Go's `time` package used for the expiry check: `time.Unix(sec, 0)` and `Before`.
 * Go keeps an instant's seconds as a signed 64-bit count from the start of year 1, so
 * `time.Unix` adds the seconds between year 1 and the Unix epoch with int64 wrap-around.
 */
module GoTime {

  const MinInt64: int := -0x8000_0000_0000_0000
  const MaxInt64: int := 0x7fff_ffff_ffff_ffff

  type Int64 = x: int | MinInt64 <= x <= MaxInt64

  /** Two's-complement addition of two int64 values. */
  function AddInt64(a: Int64, b: Int64): Int64
  {
    var s := a + b;
    if s > MaxInt64 then s - 0x1_0000_0000_0000_0000
    else if s < MinInt64 then s + 0x1_0000_0000_0000_0000
    else s
  }

  /** Seconds from 1 January of year 1 to the Unix epoch (`unixToInternal`). */
  const UnixToInternal: Int64 := 62135596800

  /** The largest Unix second `time.Unix` represents without wrapping. */
  const MaxUnix: int := MaxInt64 - UnixToInternal

  /** Nanoseconds within a second. */
  type Nanos = n: int | 0 <= n < 1000000000

  /** An instant: seconds since the start of year 1 (Go's internal count) plus nanoseconds. */
  datatype Time = Time(ext: Int64, nsec: Nanos)

  /** The instant's seconds since the Unix epoch. */
  function UnixSeconds(t: Time): int
  {
    t.ext - UnixToInternal
  }

  /** `time.Unix(sec, 0)`. */
  function Unix(sec: Int64): Time
  {
    Time(AddInt64(sec, UnixToInternal), 0)
  }

  /** `t.Before(u)`: `t` is strictly earlier than `u`. */
  predicate Before(t: Time, u: Time)
  {
    t.ext < u.ext || (t.ext == u.ext && t.nsec < u.nsec)
  }

  /** Up to `MaxUnix`, a whole Unix second is before `now` exactly when it is earlier than `now`'s second,
      or is that second and `now` is past it by some nanoseconds. Beyond `MaxUnix` the instant wraps to
      before year 1, so it is before every instant from year 1 on. */
  lemma UnixBefore(sec: Int64, now: Time)
    ensures sec <= MaxUnix ==>
      (Before(Unix(sec), now) <==> sec < UnixSeconds(now) || (sec == UnixSeconds(now) && now.nsec > 0))
    ensures sec > MaxUnix && now.ext >= 0 ==> Before(Unix(sec), now)
  {
  }
}
