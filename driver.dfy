/** The day-by-day driver (clinic/common.py, `optimize_appointments`).

    It collects the distinct booked dates in ascending order, resets every
    appointment's `real_date` to its booked date, and walks the dates with
    a cursor. For the current date it searches spans for the unfinished
    appointments. When the search fails it moves the unfinished
    appointment with the highest id on by `PostponeDays` (to the
    following Monday from the last working day of the week, by one day
    otherwise), adds that date to the list if it is new, re-sorts the list
    and retries the same date;
    when it succeeds it writes the spans back and moves on. */
module Driver {
  import opened Wrappers
  import opened Clock
  import opened Ordering
  import opened Spans
  import opened Table
  import opened Schedules
  import opened WeightVector
  import opened SpanSearch
  import opened SearchFacts

  /** How far a postponed appointment moves: to the following Monday when
      its weekday is the last working day of the week, by one day
      otherwise, even when that lands on a day off. */
  function PostponeDays(d: Date, daysInWeek: int): (n: int)
    ensures 1 <= n <= 7
    ensures Weekday(d) + 1 == daysInWeek ==> Weekday(d + n) == 0
    ensures Weekday(d) + 1 != daysInWeek ==> n == 1
  {
    if Weekday(d) + 1 == daysInWeek then 8 - daysInWeek else 1
  }

  /** The spans the table holds for the given appointments. */
  function SpansOf(rows: map<int, Appointment>, ids: seq<int>): (r: seq<Span>)
    requires AllIn(ids, rows)
    ensures |r| == |ids|
    ensures forall k :: 0 <= k < |ids| ==> r[k] == Span(rows[ids[k]].realStart, rows[ids[k]].realEnd)
  {
    seq(|ids|, k requires 0 <= k < |ids| => Span(rows[ids[k]].realStart, rows[ids[k]].realEnd))
  }

  /** What the search returns for a day of the table as it stands. */
  ghost function DayResult(rows: map<int, Appointment>, day: Date, sched: Schedule): Option<Found> {
    var pending := IdsWhere(rows, Some(day), true);
    var finished := IdsWhere(rows, Some(day), false);
    Search([], Jobs(rows, pending), Weights(|pending|), sched, Ends(rows, finished), DEFAULT_PRECISION)
  }

  /** A day is settled when the search succeeds on it and the unfinished
      appointments of that day hold exactly the spans it returns. */
  ghost predicate Settled(rows: map<int, Appointment>, day: Date, sched: Schedule) {
    var r := DayResult(rows, day, sched);
    r.Some? && r.value.spans == SpansOf(rows, IdsWhere(rows, Some(day), true))
  }

  /** What a run may do to one appointment: its booked date and start, its
      `was_over` flag and its length stay; its `real_date` never falls
      before the booked date; a finished appointment keeps its span and is
      back on its booked date. */
  predicate Evolved(a0: Appointment, a: Appointment) {
    a.date == a0.date && a.wasOver == a0.wasOver && JobOf(a) == JobOf(a0) &&
    a.realDate >= a0.date &&
    (a0.wasOver ==> a.realDate == a0.date && a.realStart == a0.realStart && a.realEnd == a0.realEnd)
  }

  /** One round of the loop: lengths, flags and booked values stay, the
      `real_date` does not decrease, finished appointments do not change. */
  predicate RoundEvolved(a1: Appointment, a2: Appointment) {
    a2.date == a1.date && a2.wasOver == a1.wasOver && JobOf(a2) == JobOf(a1) &&
    a2.realDate >= a1.realDate && (a1.wasOver ==> a2 == a1)
  }

  /** Two tables agree on every appointment that is on `day` in either. */
  predicate SameDay(r1: map<int, Appointment>, r2: map<int, Appointment>, day: Date) {
    r1.Keys == r2.Keys &&
    forall id :: id in r1 && (r1[id].realDate == day || r2[id].realDate == day) ==> r1[id] == r2[id]
  }

  /** `r2` is `r1` with the `k`-th id given the `k`-th span, as far as the
      shorter of the two sequences goes. */
  predicate Written(r1: map<int, Appointment>, r2: map<int, Appointment>, ids: seq<int>, spans: seq<Span>) {
    r2.Keys == r1.Keys &&
    (forall k :: 0 <= k < |ids| && k < |spans| && ids[k] in r1 ==>
       r2[ids[k]] == r1[ids[k]].(realStart := spans[k].start, realEnd := spans[k].end)) &&
    (forall id :: id in r1 && (forall k :: 0 <= k < |ids| && k < |spans| ==> ids[k] != id) ==> r2[id] == r1[id])
  }

  /** The failure branch of one round on `day`: the search finds nothing,
      so the day has an unfinished appointment; the one with the highest id
      moves on by `PostponeDays` and nothing else changes; the new date
      joins the list, which stays ascending, and the cursor is back on
      `day`. */
  ghost predicate Postponed(r1: map<int, Appointment>, r2: map<int, Appointment>, dates: seq<Date>,
                            dates': seq<Date>, cursor': int, day: Date, sched: Schedule) {
    var pending := IdsWhere(r1, Some(day), true);
    var newDate := day + PostponeDays(day, sched.daysInWeek);
    pending != [] &&
    r2 == r1[pending[|pending| - 1] := r1[pending[|pending| - 1]].(realDate := newDate)] &&
    StrictlyAscending(dates') && (forall x :: x in dates' <==> x in dates || x == newDate) &&
    day in dates' && cursor' == IndexOf(dates', day)
  }

  /** The success branch of one round on `day`: the spans the search
      returns go to the day's unfinished appointments, in ascending id
      order. */
  ghost predicate Committed(r1: map<int, Appointment>, r2: map<int, Appointment>, day: Date, sched: Schedule) {
    var result := DayResult(r1, day, sched);
    result.Some? && Written(r1, r2, IdsWhere(r1, Some(day), true), result.value.spans)
  }

  // ---------------------------------------------------------------------
  // Facts about settled days.

  /** The search for `day` reads, of each appointment on that day, only its
      `real_date`, its `was_over` flag, its job and, when it is finished,
      its `real_end`. */
  predicate SameInputs(r1: map<int, Appointment>, r2: map<int, Appointment>, day: Date) {
    r1.Keys == r2.Keys &&
    forall id :: id in r1 && (r1[id].realDate == day || r2[id].realDate == day) ==>
      r1[id].realDate == r2[id].realDate && r1[id].wasOver == r2[id].wasOver &&
      JobOf(r1[id]) == JobOf(r2[id]) && (r1[id].wasOver ==> r1[id].realEnd == r2[id].realEnd)
  }

  lemma SameSelection(r1: map<int, Appointment>, r2: map<int, Appointment>, day: Date, unfinished: bool)
    requires r1.Keys == r2.Keys
    requires forall id :: id in r1 && (r1[id].realDate == day || r2[id].realDate == day) ==>
      r1[id].realDate == r2[id].realDate && r1[id].wasOver == r2[id].wasOver
    ensures IdsWhere(r1, Some(day), unfinished) == IdsWhere(r2, Some(day), unfinished)
  {
    var s1 := set i | i in r1 && Selected(r1[i], Some(day), unfinished);
    var s2 := set i | i in r2 && Selected(r2[i], Some(day), unfinished);
    forall i
      ensures i in s1 <==> i in s2
    {
      if i in r1 && (r1[i].realDate == day || r2[i].realDate == day) {
        assert Selected(r1[i], Some(day), unfinished) == Selected(r2[i], Some(day), unfinished);
      }
    }
    assert s1 == s2;
  }

  /** Two tables that agree on what the search reads for `day` select the
      same appointments and get the same result for it. */
  lemma DayResultFrame(r1: map<int, Appointment>, r2: map<int, Appointment>, day: Date, sched: Schedule)
    requires SameInputs(r1, r2, day)
    ensures IdsWhere(r1, Some(day), true) == IdsWhere(r2, Some(day), true)
    ensures IdsWhere(r1, Some(day), false) == IdsWhere(r2, Some(day), false)
    ensures DayResult(r1, day, sched) == DayResult(r2, day, sched)
  {
    SameSelection(r1, r2, day, true);
    SameSelection(r1, r2, day, false);
    var pending := IdsWhere(r1, Some(day), true);
    var finished := IdsWhere(r1, Some(day), false);
    forall k | 0 <= k < |pending|
      ensures JobOf(r1[pending[k]]) == JobOf(r2[pending[k]])
    {
      assert pending[k] in pending;
    }
    forall k | 0 <= k < |finished|
      ensures r1[finished[k]].realEnd == r2[finished[k]].realEnd
    {
      assert finished[k] in finished;
    }
    SameJobsAndEnds(r1, r2, pending, finished);
  }

  lemma SameJobsAndEnds(r1: map<int, Appointment>, r2: map<int, Appointment>, pending: seq<int>, finished: seq<int>)
    requires AllIn(pending, r1) && AllIn(pending, r2) && AllIn(finished, r1) && AllIn(finished, r2)
    requires forall k :: 0 <= k < |pending| ==> JobOf(r1[pending[k]]) == JobOf(r2[pending[k]])
    requires forall k :: 0 <= k < |finished| ==> r1[finished[k]].realEnd == r2[finished[k]].realEnd
    ensures Jobs(r1, pending) == Jobs(r2, pending)
    ensures Ends(r1, finished) == Ends(r2, finished)
  {
  }

  /** Whether a day is settled depends only on the appointments on it. */
  lemma SettledFrame(r1: map<int, Appointment>, r2: map<int, Appointment>, day: Date, sched: Schedule)
    requires SameDay(r1, r2, day)
    ensures Settled(r1, day, sched) == Settled(r2, day, sched)
  {
    DayResultFrame(r1, r2, day, sched);
    var pending := IdsWhere(r1, Some(day), true);
    assert SpansOf(r1, pending) == SpansOf(r2, pending);
  }

  /** Writing spans as long as the jobs of the unfinished appointments
      they go to changes no date, flag or job, and the table then holds
      exactly those spans. */
  lemma WrittenKeeps(r1: map<int, Appointment>, r2: map<int, Appointment>, ids: seq<int>, spans: seq<Span>)
    requires AllIn(ids, r1) && |spans| == |ids|
    requires forall k :: 0 <= k < |ids| ==> !r1[ids[k]].wasOver
    requires forall k :: 0 <= k < |ids| ==> spans[k].end == spans[k].start + JobOf(r1[ids[k]]).length
    requires Written(r1, r2, ids, spans)
    ensures forall id :: id in r1 ==> RoundEvolved(r1[id], r2[id]) && r2[id].realDate == r1[id].realDate
    ensures forall id :: id in r1 && id !in ids ==> r2[id] == r1[id]
    ensures SpansOf(r2, ids) == spans
  {
    forall id | id in r1
      ensures RoundEvolved(r1[id], r2[id]) && r2[id].realDate == r1[id].realDate
      ensures id !in ids ==> r2[id] == r1[id]
    {
      if id in ids {
        var k :| 0 <= k < |ids| && ids[k] == id;
        assert r2[id] == r1[id].(realStart := spans[k].start, realEnd := spans[k].end);
      }
    }
  }

  /** Writing the search's spans back settles the day and changes nothing
      the run must keep. */
  lemma CommitSettles(r1: map<int, Appointment>, r2: map<int, Appointment>, day: Date, sched: Schedule, f: Found)
    requires DayResult(r1, day, sched) == Some(f)
    requires Written(r1, r2, IdsWhere(r1, Some(day), true), f.spans)
    ensures Settled(r2, day, sched)
    ensures forall id :: id in r1 ==> RoundEvolved(r1[id], r2[id]) && r2[id].realDate == r1[id].realDate
    ensures forall d :: d != day ==> SameDay(r1, r2, d)
  {
    var pending := IdsWhere(r1, Some(day), true);
    var finished := IdsWhere(r1, Some(day), false);
    var jobs := Jobs(r1, pending);
    SearchPlacement(jobs, Weights(|pending|), sched, Ends(r1, finished), DEFAULT_PRECISION);
    WrittenKeeps(r1, r2, pending, f.spans);
    DayResultFrame(r1, r2, day, sched);
    forall id | id in r1 && r1[id].realDate != day
      ensures r2[id] == r1[id]
    {
      assert id !in pending;
    }
  }

  /** Postponing an appointment of the current date keeps every earlier
      date settled, wherever the current date now sits in the list. */
  lemma PostponeKeepsSettled(r1: map<int, Appointment>, r2: map<int, Appointment>, sched: Schedule,
                             dates1: seq<Date>, dates2: seq<Date>, cursor: int, id: int, newDate: Date)
    requires StrictlyAscending(dates1) && StrictlyAscending(dates2)
    requires cursor < |dates1| && SettledBefore(r1, dates1, cursor, sched)
    requires id in r1 && r1[id].realDate == dates1[cursor] && newDate > dates1[cursor]
    requires r2 == r1[id := r1[id].(realDate := newDate)]
    requires forall x :: x in dates2 <==> x in dates1 || x == newDate
    ensures dates1[cursor] in dates2
    ensures SettledBefore(r2, dates2, IndexOf(dates2, dates1[cursor]), sched)
  {
    var day := dates1[cursor];
    assert day in dates1;
    var k2 := IndexOf(dates2, day);
    forall j | 0 <= j < k2
      ensures Settled(r2, dates2[j], sched)
    {
      var x := dates2[j];
      assert x < day;
      assert x in dates2;
      var j0 :| 0 <= j0 < |dates1| && dates1[j0] == x;
      assert j0 < cursor;
      SettledFrame(r1, r2, x, sched);
    }
  }

  /** What the run keeps of every appointment, relative to the table
      `rows0` it started from: the same ids, every appointment evolved
      within bounds, and the date list ascending and holding every booked
      and every real date. */
  predicate Bounded(rows0: map<int, Appointment>, rows: map<int, Appointment>, dates: seq<Date>) {
    rows.Keys == rows0.Keys &&
    (forall id :: id in rows ==> Evolved(rows0[id], rows[id])) &&
    StrictlyAscending(dates) &&
    (forall id :: id in rows ==> rows[id].date in dates && rows[id].realDate in dates)
  }

  /** Every date before the cursor is settled. */
  ghost predicate SettledBefore(rows: map<int, Appointment>, dates: seq<Date>, cursor: int, sched: Schedule) {
    0 <= cursor <= |dates| && forall j :: 0 <= j < cursor ==> Settled(rows, dates[j], sched)
  }

  /** The loop invariant of `optimize_appointments`. */
  ghost predicate Inv(rows0: map<int, Appointment>, rows: map<int, Appointment>, dates: seq<Date>,
                      cursor: int, sched: Schedule) {
    Bounded(rows0, rows, dates) && SettledBefore(rows, dates, cursor, sched)
  }

  /** A round whose every change is allowed keeps the bounds, once the date
      list holds every real date. */
  lemma RoundBounded(rows0: map<int, Appointment>, r1: map<int, Appointment>, r2: map<int, Appointment>,
                     dates1: seq<Date>, dates2: seq<Date>)
    requires Bounded(rows0, r1, dates1) && r2.Keys == r1.Keys
    requires forall id :: id in r1 ==> RoundEvolved(r1[id], r2[id])
    requires StrictlyAscending(dates2) && forall x :: x in dates1 ==> x in dates2
    requires forall id :: id in r2 ==> r2[id].realDate in dates2
    ensures Bounded(rows0, r2, dates2)
  {
    forall id | id in r2
      ensures Evolved(rows0[id], r2[id]) && r2[id].date in dates2
    {
      assert r1[id].date in dates1;
    }
  }

  /** Resetting every `real_date` to the booked date, with the booked
      dates collected, establishes the invariant with the cursor at 0. */
  lemma InvStart(rows0: map<int, Appointment>, rows: map<int, Appointment>, dates: seq<Date>, sched: Schedule)
    requires StrictlyAscending(dates) && forall x :: x in dates <==> x in BookedDates(rows0)
    requires rows.Keys == rows0.Keys
    requires forall id :: id in rows ==> rows[id] == rows0[id].(realDate := rows0[id].date)
    ensures Inv(rows0, rows, dates, 0, sched)
  {
    forall id | id in rows
      ensures rows[id].date in dates
    {
      assert rows0[id].date in BookedDates(rows0);
    }
  }

  /** A postponement keeps the invariant, with the cursor moved to where
      the current date now sits in the re-sorted list. */
  lemma PostponeStep(rows0: map<int, Appointment>, r1: map<int, Appointment>, r2: map<int, Appointment>,
                     dates1: seq<Date>, dates2: seq<Date>, cursor: int, sched: Schedule, id: int, newDate: Date)
    requires Inv(rows0, r1, dates1, cursor, sched) && cursor < |dates1|
    requires id in r1 && r1[id].realDate == dates1[cursor] && !r1[id].wasOver && newDate > dates1[cursor]
    requires r2 == r1[id := r1[id].(realDate := newDate)]
    requires StrictlyAscending(dates2) && forall x :: x in dates2 <==> x in dates1 || x == newDate
    ensures dates1[cursor] in dates2
    ensures Inv(rows0, r2, dates2, IndexOf(dates2, dates1[cursor]), sched)
  {
    PostponeKeepsSettled(r1, r2, sched, dates1, dates2, cursor, id, newDate);
    forall i | i in r2
      ensures r2[i].realDate in dates2
    {
      assert r1[i].realDate in dates1;
    }
    RoundBounded(rows0, r1, r2, dates1, dates2);
  }

  /** Postponing the last unfinished appointment of `day` by
      `PostponeDays`, and adding its new date to the list, is the failure branch
      of a round. */
  lemma PostponeLastMeans(r1: map<int, Appointment>, r2: map<int, Appointment>,
                          dates1: seq<Date>, dates2: seq<Date>, day: Date, sched: Schedule, newDate: Date)
    requires day in dates1
    requires var pending := IdsWhere(r1, Some(day), true);
      pending != [] &&
      var id := pending[|pending| - 1];
      newDate == r1[id].realDate + PostponeDays(r1[id].realDate, sched.daysInWeek) &&
      r2 == r1[id := r1[id].(realDate := newDate)]
    requires StrictlyAscending(dates2) && forall x :: x in dates2 <==> x in dates1 || x == newDate
    ensures day in dates2
    ensures Postponed(r1, r2, dates1, dates2, IndexOf(dates2, day), day, sched)
  {
    var pending := IdsWhere(r1, Some(day), true);
    assert pending[|pending| - 1] in pending;
  }

  /** Writing back the spans of a successful search keeps the invariant
      with the cursor one further on. */
  lemma CommitStep(rows0: map<int, Appointment>, r1: map<int, Appointment>, r2: map<int, Appointment>,
                   dates: seq<Date>, cursor: int, sched: Schedule, f: Found)
    requires Inv(rows0, r1, dates, cursor, sched) && cursor < |dates|
    requires DayResult(r1, dates[cursor], sched) == Some(f)
    requires Written(r1, r2, IdsWhere(r1, Some(dates[cursor]), true), f.spans)
    ensures Inv(rows0, r2, dates, cursor + 1, sched)
  {
    CommitSettles(r1, r2, dates[cursor], sched, f);
    RoundBounded(rows0, r1, r2, dates, dates);
    forall j | 0 <= j < cursor + 1
      ensures Settled(r2, dates[j], sched)
    {
      if j < cursor {
        SettledFrame(r1, r2, dates[j], sched);
      }
    }
  }

  /** When the cursor has passed every date, every appointment sits on a
      settled day. */
  lemma InvDone(rows0: map<int, Appointment>, rows: map<int, Appointment>, dates: seq<Date>,
                cursor: int, sched: Schedule)
    requires Inv(rows0, rows, dates, cursor, sched) && cursor >= |dates|
    ensures forall id :: id in rows ==> Settled(rows, rows[id].realDate, sched)
  {
  }

  /** What a settled day guarantees: the unfinished appointments of the
      day overlap pairwise nowhere, keep their lengths, and have both ends
      accepted by `check_time` against the finished appointments of the
      day; the weighted cost the search reports for the spans they hold is
      below the starting `min_deltas_sum`, and no feasible grid placement
      of them costs less. */
  lemma SettledMeans(rows: map<int, Appointment>, day: Date, sched: Schedule)
    requires Settled(rows, day, sched)
    ensures var pending := IdsWhere(rows, Some(day), true);
      var finished := IdsWhere(rows, Some(day), false);
      var held := SpansOf(rows, pending);
      (forall i, j :: 0 <= i < |pending| && 0 <= j < |pending| && i != j ==>
         AreNotSpansIntersected(held[i], held[j])) &&
      (forall i :: 0 <= i < |pending| ==>
         TimeAllowed(held[i].start, sched, Ends(rows, finished)) &&
         TimeAllowed(held[i].end, sched, Ends(rows, finished)) &&
         held[i].end == held[i].start + JobOf(rows[pending[i]]).length) &&
      DayResult(rows, day, sched).value.cost < NO_RESULT_COST &&
      (forall es :: Feasible(es, [], Jobs(rows, pending), sched, Ends(rows, finished), DEFAULT_PRECISION) ==>
         DayResult(rows, day, sched).value.cost <= Cost(es, Weights(|pending|)))
  {
    var pending := IdsWhere(rows, Some(day), true);
    var finished := IdsWhere(rows, Some(day), false);
    var jobs := Jobs(rows, pending);
    var ends := Ends(rows, finished);
    SearchPlacement(jobs, Weights(|pending|), sched, ends, DEFAULT_PRECISION);
    WeightsShape(|pending|);
    SearchOptimal([], jobs, Weights(|pending|), sched, ends, DEFAULT_PRECISION);
  }

  // ---------------------------------------------------------------------
  // The steps of `optimize_appointments`.

  /** The booked dates of the table's appointments. */
  function BookedDates(rows: map<int, Appointment>): set<Date> {
    set id | id in rows :: rows[id].date
  }

  /** Lines 118-122: the dates of `column`, each once. */
  method Distinct(column: seq<Date>) returns (unique: seq<Date>)
    ensures NoDuplicates(unique)
    ensures forall x :: x in unique <==> x in column
  {
    unique := [];
    var i := 0;
    while i < |column|
      invariant 0 <= i <= |column|
      invariant NoDuplicates(unique)
      invariant forall x :: x in unique <==> x in column[..i]
    {
      if column[i] !in unique {
        unique := unique + [column[i]];
      }
      assert column[..i + 1] == column[..i] + [column[i]];
      i := i + 1;
    }
    assert column[..i] == column;
  }

  /** Lines 116-124: the booked dates of all appointments, each once,
      ascending. The table's view is reset first. */
  method CollectDates(table: AppointmentTable) returns (dates: seq<Date>)
    modifies table`filters
    ensures table.filters == []
    ensures StrictlyAscending(dates)
    ensures forall x :: x in dates <==> x in BookedDates(table.rows)
  {
    table.ResetCached();
    var rows := table.rows;
    var ids := table.Cached();
    var column := seq(|ids|, k requires 0 <= k < |ids| => rows[ids[k]].date);
    var unique := Distinct(column);
    dates := Sort(unique);
    forall id | id in rows
      ensures id in ids
    {
      assert PassesAll(rows[id], []);
    }
    ColumnDates(rows, ids, column);
  }

  /** The booked-date column of a listing of every id holds exactly the
      booked dates. */
  lemma ColumnDates(rows: map<int, Appointment>, ids: seq<int>, column: seq<Date>)
    requires AllIn(ids, rows) && forall id :: id in rows ==> id in ids
    requires |column| == |ids| && forall k :: 0 <= k < |ids| ==> column[k] == rows[ids[k]].date
    ensures forall x :: x in column <==> x in BookedDates(rows)
  {
    forall x
      ensures x in column <==> x in BookedDates(rows)
    {
      if x in column {
        var k :| 0 <= k < |column| && column[k] == x;
        var id := ids[k];
        assert id in rows && rows[id].date == x;
      }
      if x in BookedDates(rows) {
        var id :| id in rows && rows[id].date == x;
        var k :| 0 <= k < |ids| && ids[k] == id;
        assert column[k] == x;
      }
    }
  }

  lemma ResetCovers(rows0: map<int, Appointment>, rows: map<int, Appointment>, ids: seq<int>)
    requires AllIn(ids, rows0) && rows.Keys == rows0.Keys
    requires forall id :: id in rows0 ==> id in ids
    requires forall k :: 0 <= k < |ids| ==> rows[ids[k]] == rows0[ids[k]].(realDate := rows0[ids[k]].date)
    ensures forall id :: id in rows0 ==> rows[id] == rows0[id].(realDate := rows0[id].date)
  {
    forall id | id in rows0
      ensures rows[id] == rows0[id].(realDate := rows0[id].date)
    {
      var k :| 0 <= k < |ids| && ids[k] == id;
    }
  }

  /** Lines 126-129: every appointment of the table's id list gets its
      `real_date` back to its booked date. */
  method ResetRealDates(table: AppointmentTable, ids: seq<int>)
    requires NoDuplicates(ids) && AllIn(ids, table.rows)
    requires forall id :: id in table.rows ==> id in ids
    modifies table`rows
    ensures table.rows.Keys == old(table.rows).Keys
    ensures forall id :: id in table.rows ==>
      table.rows[id] == old(table.rows)[id].(realDate := old(table.rows)[id].date)
  {
    ghost var rows0 := table.rows;
    var i := 0;
    while i < |ids|
      invariant 0 <= i <= |ids|
      invariant table.rows.Keys == rows0.Keys
      invariant forall k :: 0 <= k < i ==> table.rows[ids[k]] == rows0[ids[k]].(realDate := rows0[ids[k]].date)
      invariant forall k :: i <= k < |ids| ==> table.rows[ids[k]] == rows0[ids[k]]
    {
      var date := table.rows[ids[i]].date;
      table.SetRealDate(ids[i], date);
      i := i + 1;
    }
    ResetCovers(rows0, table.rows, ids);
  }

  /** Lines 152-160: moves one appointment's `real_date` on by
      `PostponeDays` and returns the new date. */
  method Postpone(table: AppointmentTable, id: int, daysInWeek: int) returns (newDate: Date)
    requires id in table.rows
    modifies table`rows
    ensures newDate == old(table.rows)[id].realDate + PostponeDays(old(table.rows)[id].realDate, daysInWeek)
    ensures table.rows == old(table.rows)[id := old(table.rows)[id].(realDate := newDate)]
  {
    var realDate := table.rows[id].realDate;
    var weekday := Weekday(realDate);
    var skip := if weekday + 1 == daysInWeek then 8 - daysInWeek else 1;
    newDate := realDate + skip;
    table.SetRealDate(id, newDate);
  }

  /** Lines 169-173: pairs the spans with the ids, as `zip` does, and
      writes each span's start and end to `real_start` and `real_end`. */
  method WriteSpans(table: AppointmentTable, spans: seq<Span>, ids: seq<int>)
    requires AllIn(ids, table.rows) && NoDuplicates(ids)
    modifies table`rows
    ensures Written(old(table.rows), table.rows, ids, spans)
  {
    var n := if |spans| < |ids| then |spans| else |ids|;
    var i := 0;
    while i < n
      invariant 0 <= i <= n
      invariant table.rows.Keys == old(table.rows).Keys
      invariant forall k :: 0 <= k < i ==>
        table.rows[ids[k]] == old(table.rows)[ids[k]].(realStart := spans[k].start, realEnd := spans[k].end)
      invariant forall id :: id in table.rows && (forall k :: 0 <= k < i ==> ids[k] != id) ==>
        table.rows[id] == old(table.rows)[id]
    {
      table.SetRealStart(ids[i], spans[i].start);
      table.SetRealEnd(ids[i], spans[i].end);
      i := i + 1;
    }
  }

  /** Lines 161-164: adds a date to the ascending date list unless it is
      there already, and sorts the list again. */
  method AddDate(dates: seq<Date>, newDate: Date) returns (dates': seq<Date>)
    requires StrictlyAscending(dates)
    ensures StrictlyAscending(dates')
    ensures forall x :: x in dates' <==> x in dates || x == newDate
  {
    dates' := dates;
    if newDate !in dates' {
      dates' := dates' + [newDate];
    }
    dates' := Sort(dates');
  }

  /** Lines 151-165, the failure branch of the loop: postpones the
      unfinished appointment of the current date with the highest id, adds
      its new date to the list and puts the cursor back on the current
      date. */
  method PostponeLast(table: AppointmentTable, sched: Schedule, ghost rows0: map<int, Appointment>,
                      dates: seq<Date>, cursor: int, unfinished: seq<int>)
    returns (dates': seq<Date>, cursor': int)
    requires Inv(rows0, table.rows, dates, cursor, sched) && cursor < |dates|
    requires unfinished == IdsWhere(table.rows, Some(dates[cursor]), true) && unfinished != []
    modifies table`rows
    ensures Inv(rows0, table.rows, dates', cursor', sched)
    ensures Postponed(old(table.rows), table.rows, dates, dates', cursor', dates[cursor], sched)
  {
    ghost var r1 := table.rows;
    var day := dates[cursor];
    var id := unfinished[|unfinished| - 1];
    var newDate := Postpone(table, id, sched.daysInWeek);
    dates' := AddDate(dates, newDate);
    assert id in unfinished;
    PostponeStep(rows0, r1, table.rows, dates, dates', cursor, sched, id, newDate);
    PostponeLastMeans(r1, table.rows, dates, dates', day, sched, newDate);
    cursor' := IndexOf(dates', day);
  }

  /** Lines 166-173, the success branch of the loop: writes the spans the
      search found back to the unfinished appointments of the current
      date. */
  method Commit(table: AppointmentTable, sched: Schedule, ghost rows0: map<int, Appointment>,
                dates: seq<Date>, cursor: int, unfinished: seq<int>, found: Found)
    requires Inv(rows0, table.rows, dates, cursor, sched) && cursor < |dates|
    requires unfinished == IdsWhere(table.rows, Some(dates[cursor]), true)
    requires DayResult(table.rows, dates[cursor], sched) == Some(found)
    modifies table`rows
    ensures Inv(rows0, table.rows, dates, cursor + 1, sched)
    ensures Committed(old(table.rows), table.rows, dates[cursor], sched)
  {
    ghost var r1 := table.rows;
    WriteSpans(table, found.spans, unfinished);
    CommitStep(rows0, r1, table.rows, dates, cursor, sched, found);
  }

  /** Lines 133-173, one iteration of the loop: searches spans for the
      date under the cursor; on failure postpones the unfinished
      appointment with the highest id and returns the cursor at the same
      date in the re-sorted list, on success writes the spans back and
      moves the cursor on. */
  method Round(table: AppointmentTable, sched: Schedule, ghost rows0: map<int, Appointment>,
               dates: seq<Date>, cursor: int) returns (dates': seq<Date>, cursor': int)
    requires table.filters == [] && Inv(rows0, table.rows, dates, cursor, sched) && cursor < |dates|
    modifies table
    ensures table.filters == [] && Inv(rows0, table.rows, dates', cursor', sched)
    ensures DayResult(old(table.rows), dates[cursor], sched).None? ==>
      Postponed(old(table.rows), table.rows, dates, dates', cursor', dates[cursor], sched)
    ensures DayResult(old(table.rows), dates[cursor], sched).Some? ==>
      Committed(old(table.rows), table.rows, dates[cursor], sched) && dates' == dates && cursor' == cursor + 1
    ensures RoundStep(RunState(old(table.rows), dates, cursor), RunState(table.rows, dates', cursor'), sched)
  {
    var day := dates[cursor];
    var finished := table.GetIdsOfAppointments(Some(day), false);
    var unfinished := table.GetIdsOfAppointments(Some(day), true);
    var weights := BuildWeights(|unfinished|);
    var respond := GetNotIntersectedSpans([], table.rows, unfinished, weights, finished, sched, DEFAULT_PRECISION);
    assert respond == DayResult(table.rows, day, sched);
    if respond.None? {
      dates', cursor' := PostponeLast(table, sched, rows0, dates, cursor, unfinished);
    } else {
      Commit(table, sched, rows0, dates, cursor, unfinished, respond.value);
      dates', cursor' := dates, cursor + 1;
    }
  }

  /** A state of the loop: the table's rows, the date list and the
      cursor. */
  datatype RunState = RunState(rows: map<int, Appointment>, dates: seq<Date>, cursor: int)

  /** One iteration of the loop from `s` to `t`, as `Round` performs it:
      the cursor is on a date; when the search for that date fails the
      state is `Postponed`, otherwise the spans are `Committed` and the
      cursor moves on by one. */
  ghost predicate RoundStep(s: RunState, t: RunState, sched: Schedule) {
    0 <= s.cursor < |s.dates| &&
    var day := s.dates[s.cursor];
    if DayResult(s.rows, day, sched).None? then
      Postponed(s.rows, t.rows, s.dates, t.dates, t.cursor, day, sched)
    else
      Committed(s.rows, t.rows, day, sched) && t.dates == s.dates && t.cursor == s.cursor + 1
  }

  /** The state the loop starts from, for a table that held `rows0`: every
      `real_date` back on the booked date, the booked dates ascending and
      the cursor on the first. */
  ghost predicate Started(rows0: map<int, Appointment>, s: RunState) {
    s.rows.Keys == rows0.Keys &&
    (forall id :: id in rows0 ==> s.rows[id] == rows0[id].(realDate := rows0[id].date)) &&
    StrictlyAscending(s.dates) && (forall x :: x in s.dates <==> x in BookedDates(rows0)) &&
    s.cursor == 0
  }

  /** Every state of the trace follows from the one before it by one
      round. */
  ghost predicate Rounds(trace: seq<RunState>, sched: Schedule) {
    forall i :: 0 <= i < |trace| - 1 ==> RoundStep(trace[i], trace[i + 1], sched)
  }

  /** The last state of the trace holds `rows`. */
  ghost predicate EndsWith(trace: seq<RunState>, rows: map<int, Appointment>) {
    trace != [] && trace[|trace| - 1].rows == rows
  }

  /** A run of the loop on a table that held `rows0`: it starts from the
      reset table and every later state is one round on. */
  ghost predicate Run(rows0: map<int, Appointment>, trace: seq<RunState>, sched: Schedule) {
    trace != [] && Started(rows0, trace[0]) && Rounds(trace, sched)
  }

  lemma RunExtend(rows0: map<int, Appointment>, trace: seq<RunState>, t: RunState, sched: Schedule)
    requires Run(rows0, trace, sched) && RoundStep(trace[|trace| - 1], t, sched)
    ensures Run(rows0, trace + [t], sched)
  {
    var trace' := trace + [t];
    assert trace'[0] == trace[0];
    forall i | 0 <= i < |trace'| - 1
      ensures RoundStep(trace'[i], trace'[i + 1], sched)
    {
      if i < |trace| - 1 {
        assert trace'[i] == trace[i] && trace'[i + 1] == trace[i + 1];
      } else {
        assert trace'[i] == trace[|trace| - 1] && trace'[i + 1] == t;
      }
    }
  }

  /** Lines 116-131: collects the booked dates and resets every
      appointment's `real_date` to its booked date, which gives the state
      the loop starts from. */
  method StartRun(table: AppointmentTable, sched: Schedule) returns (dates: seq<Date>)
    modifies table
    ensures table.filters == []
    ensures Started(old(table.rows), RunState(table.rows, dates, 0))
    ensures Inv(old(table.rows), table.rows, dates, 0, sched)
  {
    dates := CollectDates(table);
    var ids := table.Ids();
    ResetRealDates(table, ids);
    InvStart(old(table.rows), table.rows, dates, sched);
  }

  /** Lines 133-173: the loop, run for at most `maxRounds` rounds from the
      started state of a table that held `rows0`. */
  method RunRounds(table: AppointmentTable, sched: Schedule, ghost rows0: map<int, Appointment>,
                   dates0: seq<Date>, maxRounds: nat)
    returns (completed: bool, ghost trace: seq<RunState>)
    requires table.filters == [] && Inv(rows0, table.rows, dates0, 0, sched)
    requires Started(rows0, RunState(table.rows, dates0, 0))
    modifies table
    ensures table.filters == []
    ensures table.rows.Keys == rows0.Keys
    ensures forall id :: id in table.rows ==> Evolved(rows0[id], table.rows[id])
    ensures completed ==> forall id :: id in table.rows ==> Settled(table.rows, table.rows[id].realDate, sched)
    ensures Run(rows0, trace, sched) && |trace| <= maxRounds + 1
    ensures EndsWith(trace, table.rows)
    ensures completed <==> trace[|trace| - 1].cursor >= |trace[|trace| - 1].dates|
    ensures !completed ==> |trace| == maxRounds + 1
  {
    var dates := dates0;
    var cursor := 0;
    var rounds := 0;
    trace := [RunState(table.rows, dates, cursor)];
    while cursor < |dates| && rounds < maxRounds
      invariant table.filters == []
      invariant Inv(rows0, table.rows, dates, cursor, sched)
      invariant |trace| == rounds + 1 && rounds <= maxRounds
      invariant trace[|trace| - 1] == RunState(table.rows, dates, cursor)
      invariant Run(rows0, trace, sched)
      decreases maxRounds - rounds
    {
      rounds := rounds + 1;
      dates, cursor := Round(table, sched, rows0, dates, cursor);
      RunExtend(rows0, trace, RunState(table.rows, dates, cursor), sched);
      trace := trace + [RunState(table.rows, dates, cursor)];
    }
    completed := cursor >= |dates|;
    if completed {
      InvDone(rows0, table.rows, dates, cursor, sched);
    }
  }

  /** `optimize_appointments(appointments, shedules)`, run for at most
      `maxRounds` iterations of its loop. `trace` lists the states the loop
      goes through: it starts from the reset table with the booked dates,
      each next state is one `RoundStep` on, and the last is the final
      table; the loop stops early only when the cursor has passed every
      date (`completed`). Only `real_date`, `real_start` and `real_end`
      change; finished appointments keep their spans; no appointment moves
      before its booked date. When the loop runs to the end, every
      appointment sits on a settled day: the unfinished appointments of
      each day hold the spans the search returns for that day. */
  method OptimizeAppointments(table: AppointmentTable, sched: Schedule, maxRounds: nat)
    returns (completed: bool, ghost trace: seq<RunState>)
    modifies table
    ensures table.filters == []
    ensures table.rows.Keys == old(table.rows).Keys
    ensures forall id :: id in table.rows ==> Evolved(old(table.rows)[id], table.rows[id])
    ensures completed ==> forall id :: id in table.rows ==> Settled(table.rows, table.rows[id].realDate, sched)
    ensures Run(old(table.rows), trace, sched) && |trace| <= maxRounds + 1
    ensures EndsWith(trace, table.rows)
    ensures completed <==> trace[|trace| - 1].cursor >= |trace[|trace| - 1].dates|
    ensures !completed ==> |trace| == maxRounds + 1
  {
    var dates := StartRun(table, sched);
    completed, trace := RunRounds(table, sched, old(table.rows), dates, maxRounds);
  }
}
