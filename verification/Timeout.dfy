/** The clock arithmetic of the idle-connection sweep. */
module Timeout {

  const CONNECTION_TIMEOUT_MILISEC := 30000

  datatype Timeval = Timeval(sec: int, usec: int)

  /** Division as the program does it: towards zero. */
  function Truncated(n: int, d: int): int
    requires d > 0
  {
    if n >= 0 then n / d else -((-n) / d)
  }

  function Micros(t: Timeval): int {
    t.sec * 1000000 + t.usec
  }

  /** The interval in milliseconds, computed from seconds and microseconds apart. */
  function Interval(base: Timeval, stamp: Timeval): int {
    (base.sec - stamp.sec) * 1000 + Truncated(base.usec - stamp.usec, 1000)
  }

  /** Truncation costs less than a millisecond, in either direction. */
  lemma IntervalIsClose(base: Timeval, stamp: Timeval)
    ensures -1000 < Interval(base, stamp) * 1000 - (Micros(base) - Micros(stamp)) < 1000
  {
    var d := base.usec - stamp.usec;
    if d >= 0 {
      assert d / 1000 * 1000 + d % 1000 == d;
    } else {
      assert (-d) / 1000 * 1000 + (-d) % 1000 == -d;
    }
  }

  predicate Stale(base: Timeval, stamp: Timeval) {
    Interval(base, stamp) >= CONNECTION_TIMEOUT_MILISEC
  }

  /** Half a minute, to a millisecond, is what makes a stamp stale. */
  lemma StaleIsHalfAMinute(base: Timeval, stamp: Timeval)
    ensures Micros(base) - Micros(stamp) >= 30_001_000 ==> Stale(base, stamp)
    ensures Micros(base) - Micros(stamp) <= 29_999_000 ==> !Stale(base, stamp)
  {
    IntervalIsClose(base, stamp);
  }

  /** When the stamping of a batch stays a millisecond short of the timeout, nothing
      stamped in it looks stale to a sweep that starts from one of its stamps. */
  lemma RecentIsNotStale(base: Timeval, stamp: Timeval, since: int)
    requires Micros(stamp) >= since
    requires Micros(base) - since <= (CONNECTION_TIMEOUT_MILISEC - 1) * 1000
    ensures !Stale(base, stamp)
  {
    IntervalIsClose(base, stamp);
  }
}
