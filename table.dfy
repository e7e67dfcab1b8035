/** The appointments table as the scheduler sees it: a map from id to the
    appointment's record, plus the table's cached view, which filter
    requests narrow and a reset restores (the `update_cached`,
    `get_wrapper` and `update_field` operations of the record store). */
module Table {
  import opened Wrappers
  import opened Clock
  import opened Ordering

  /** One row of the Appointments table. `date` and `start` are what was
      booked; `realDate`, `realStart` and `realEnd` are what the optimizer
      assigns; `wasOver` marks an appointment that has taken place. */
  datatype Appointment = Appointment(
    date: Date,
    start: Time,
    realDate: Date,
    realStart: Time,
    realEnd: Time,
    wasOver: bool)

  /** A request made of the cached view: keep rows whose `was_over` column
      (column 8) equals a value, keep rows whose `real_date` column
      (column 3) equals a day, or sort by the id column. */
  datatype Filter = WasOverIs(over: bool) | RealDateIs(day: Date) | SortById

  predicate Passes(a: Appointment, f: Filter) {
    match f
    case WasOverIs(over) => a.wasOver == over
    case RealDateIs(day) => a.realDate == day
    case SortById => true
  }

  predicate PassesAll(a: Appointment, fs: seq<Filter>) {
    forall k :: 0 <= k < |fs| ==> Passes(a, fs[k])
  }

  predicate AllIn(ids: seq<int>, rows: map<int, Appointment>) {
    forall k :: 0 <= k < |ids| ==> ids[k] in rows
  }

  /** The selection `get_ids_of_appointments` makes: finished or unfinished
      rows, on one `real_date` when a date is given. */
  predicate Selected(a: Appointment, date: Option<Date>, unfinished: bool) {
    a.wasOver == !unfinished && (date.Some? ==> a.realDate == date.value)
  }

  /** The ids `get_ids_of_appointments` returns on an unfiltered table. */
  function IdsWhere(rows: map<int, Appointment>, date: Option<Date>, unfinished: bool): (r: seq<int>)
    ensures StrictlyAscending(r) && AllIn(r, rows)
    ensures forall i :: i in r <==> i in rows && Selected(rows[i], date, unfinished)
  {
    var r := SortedSet(set i | i in rows && Selected(rows[i], date, unfinished));
    assert forall k :: 0 <= k < |r| ==> r[k] in r;
    r
  }

  /** The requests `get_ids_of_appointments` makes of the view: the
      `was_over` value, the `real_date` when one is given, then the sort by
      id. */
  function SelectionFilters(date: Option<Date>, unfinished: bool): seq<Filter> {
    [WasOverIs(!unfinished)] + (if date.Some? then [RealDateIs(date.value)] else []) + [SortById]
  }

  /** A row passes those requests, after earlier ones, exactly when it
      passes the earlier ones and is selected. */
  lemma SelectionFiltersSelect(before: seq<Filter>, date: Option<Date>, unfinished: bool)
    ensures forall a :: PassesAll(a, before + SelectionFilters(date, unfinished)) <==>
      PassesAll(a, before) && Selected(a, date, unfinished)
  {
    var fs := before + SelectionFilters(date, unfinished);
    forall a
      ensures PassesAll(a, fs) <==> PassesAll(a, before) && Selected(a, date, unfinished)
    {
      if PassesAll(a, fs) {
        assert Passes(a, fs[|before|]);
        if date.Some? {
          assert Passes(a, fs[|before| + 1]);
        }
        assert forall k :: 0 <= k < |before| ==> before[k] == fs[k];
      }
    }
  }

  class AppointmentTable {
    var rows: map<int, Appointment>
    /** The filter and sort requests applied to the cached view since its
        last reset. */
    var filters: seq<Filter>

    constructor (contents: map<int, Appointment>)
      ensures rows == contents && filters == []
    {
      rows := contents;
      filters := [];
    }

    /** The ids of the cached view. The view lists rows in ascending id
        order, so a sort-by-id request keeps that order. */
    function Cached(): (r: seq<int>)
      reads this
      ensures StrictlyAscending(r) && AllIn(r, rows)
      ensures forall i :: i in r <==> i in rows && PassesAll(rows[i], filters)
    {
      var r := SortedSet(set i | i in rows && PassesAll(rows[i], filters));
      assert forall k :: 0 <= k < |r| ==> r[k] in r;
      r
    }

    /** The table's list of ids (`appointments.ids`): every row once. */
    function Ids(): (r: seq<int>)
      reads this
      ensures NoDuplicates(r) && AllIn(r, rows)
      ensures forall id :: id in rows ==> id in r
    {
      var r := SortedSet(rows.Keys);
      assert forall k :: 0 <= k < |r| ==> r[k] in r;
      r
    }

    /** `update_cached(mode, column, ...)`: one more filter or sort request. */
    method UpdateCached(f: Filter)
      modifies this`filters
      ensures filters == old(filters) + [f]
    {
      filters := filters + [f];
    }

    /** `update_cached()` without arguments: back to the whole table. */
    method ResetCached()
      modifies this`filters
      ensures filters == []
    {
      filters := [];
    }

    /** `update_field(id, "real_date", d)`. */
    method SetRealDate(id: int, d: Date)
      requires id in rows
      modifies this`rows
      ensures rows == old(rows)[id := old(rows)[id].(realDate := d)]
    {
      rows := rows[id := rows[id].(realDate := d)];
    }

    /** `update_field(id, "real_start", t)`. */
    method SetRealStart(id: int, t: Time)
      requires id in rows
      modifies this`rows
      ensures rows == old(rows)[id := old(rows)[id].(realStart := t)]
    {
      rows := rows[id := rows[id].(realStart := t)];
    }

    /** `update_field(id, "real_end", t)`. */
    method SetRealEnd(id: int, t: Time)
      requires id in rows
      modifies this`rows
      ensures rows == old(rows)[id := old(rows)[id].(realEnd := t)]
    {
      rows := rows[id := rows[id].(realEnd := t)];
    }

    /** `get_ids_of_appointments`: the ids of the finished (or, with
        `unfinished`, the not yet finished) rows of the current view,
        restricted to one `real_date` when `date` is given, in strictly
        ascending order. The view is reset before returning, and no row
        changes. */
    method GetIdsOfAppointments(date: Option<Date>, unfinished: bool) returns (ids: seq<int>)
      modifies this`filters
      ensures StrictlyAscending(ids) && AllIn(ids, rows)
      ensures forall i :: i in ids <==>
        i in rows && PassesAll(rows[i], old(filters)) && Selected(rows[i], date, unfinished)
      ensures old(filters) == [] ==> ids == IdsWhere(rows, date, unfinished)
      ensures filters == []
    {
      ghost var before := filters;
      if unfinished {
        UpdateCached(WasOverIs(false));
      } else {
        UpdateCached(WasOverIs(true));
      }
      if date.Some? {
        UpdateCached(RealDateIs(date.value));
      }
      UpdateCached(SortById);
      assert filters == before + SelectionFilters(date, unfinished);
      SelectionFiltersSelect(before, date, unfinished);
      ids := Cached();
      ResetCached();
      if before == [] {
        AscendingUnique(ids, IdsWhere(rows, date, unfinished));
      }
    }
  }
}
