/** The doctor's working window and the checks that decide whether an
    instant may be used (clinic/common.py, `check_time_base` and
    `check_time`). */
module Schedules {
  import opened Wrappers
  import opened Clock
  import opened Table

  datatype Lunch = Lunch(lunchStart: Time, lunchEnd: Time)

  /** The row of the Shedules table: working days per week (column 1),
      start of work, an optional lunch break, end of work. */
  datatype Schedule = Schedule(daysInWeek: int, start: Time, lunch: Option<Lunch>, end: Time)

  /** The ordering the working window is meant to have. */
  predicate WellFormed(s: Schedule) {
    s.start <= s.end &&
    (s.lunch.Some? ==> s.start <= s.lunch.value.lunchStart <= s.lunch.value.lunchEnd <= s.end)
  }

  predicate InLunch(t: Time, s: Schedule) {
    s.lunch.Some? && s.lunch.value.lunchStart <= t <= s.lunch.value.lunchEnd
  }

  /** `check_time_base`: the instant lies in the working window and not in
      the lunch break. Both ends of the lunch break count as lunch. */
  function CheckTimeBase(t: Time, s: Schedule): (r: bool)
    ensures t < s.start ==> !r
    ensures s.lunch.None? ==> (r <==> s.start <= t <= s.end)
    ensures InLunch(t, s) ==> !r
    ensures s.lunch.Some? && s.start <= t < s.lunch.value.lunchStart ==> r
    ensures WellFormed(s) ==> (r <==> s.start <= t <= s.end && !InLunch(t, s))
  {
    if t < s.start then false
    else if s.lunch.None? then t <= s.end
    else if t < s.lunch.value.lunchStart then true
    else if t <= s.lunch.value.lunchEnd then false
    else t <= s.end
  }

  /** The `real_end` of each finished appointment, in the order given. */
  function Ends(rows: map<int, Appointment>, finished: seq<int>): (r: seq<Time>)
    requires AllIn(finished, rows)
    ensures |r| == |finished|
    ensures forall k :: 0 <= k < |finished| ==> r[k] == rows[finished[k]].realEnd
  {
    seq(|finished|, k requires 0 <= k < |finished| => rows[finished[k]].realEnd)
  }

  /** What `check_time` accepts: an instant `check_time_base` accepts that
      is later than midnight and later than the end of every finished
      appointment. */
  predicate TimeAllowed(t: Time, s: Schedule, ends: seq<Time>) {
    CheckTimeBase(t, s) && 0 < t && forall k :: 0 <= k < |ends| ==> ends[k] < t
  }

  /** `check_time`: folds the latest finished `real_end`, starting from
      00:00:00, and accepts `t` when the window accepts it and it is
      strictly later than that fold. */
  method CheckTime(t: Time, s: Schedule, finished: seq<int>, rows: map<int, Appointment>)
    returns (ok: bool)
    requires AllIn(finished, rows)
    ensures ok <==> TimeAllowed(t, s, Ends(rows, finished))
  {
    if !CheckTimeBase(t, s) {
      return false;
    }
    var maxEnd: Time := 0;
    var i := 0;
    while i < |finished|
      invariant 0 <= i <= |finished|
      invariant forall k :: 0 <= k < i ==> rows[finished[k]].realEnd <= maxEnd
      invariant maxEnd == 0 || exists k :: 0 <= k < i && maxEnd == rows[finished[k]].realEnd
    {
      var realEnd := rows[finished[i]].realEnd;
      if realEnd > maxEnd {
        maxEnd := realEnd;
      }
      i := i + 1;
    }
    ok := t > maxEnd;
  }
}
