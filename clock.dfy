/** Time-of-day and calendar-date values the scheduler computes with.
    A time is a whole number of seconds since midnight; adding or
    subtracting two times reports whether the result wrapped past a day
    boundary, the way the time wrapper's `+` and `-` return a
    `(value, wrapped)` pair. A date is a day number whose weekday is a
    function of it, with day 0 a Monday. */
module Clock {

  /** Number of seconds in a day: every time lies in [0, MAX_SECONDS). */
  const MAX_SECONDS: int := 86400

  type Time = t: int | 0 <= t < MAX_SECONDS

  type Date = int

  /** `a + b`, together with the flag that says it wrapped past midnight. */
  function Add(a: Time, b: Time): (r: (Time, bool))
    ensures r.1 <==> a + b >= MAX_SECONDS
    ensures r.0 == (a + b) % MAX_SECONDS
  {
    if a + b < MAX_SECONDS then (a + b, false) else (a + b - MAX_SECONDS, true)
  }

  /** `a - b`, together with the flag that says it wrapped before midnight. */
  function Sub(a: Time, b: Time): (r: (Time, bool))
    ensures r.1 <==> a < b
    ensures r.0 == (a - b) % MAX_SECONDS
  {
    if b <= a then (a - b, false) else (a - b + MAX_SECONDS, true)
  }

  /** Monday is 0, Sunday is 6. */
  function Weekday(d: Date): (w: int)
    ensures 0 <= w < 7
  {
    d % 7
  }
}
