# Appointment rescheduling of Clinic-CLI, in Dafny

This project models the rescheduling core of Clinic-CLI
(`clinic/common.py`): the routine that takes a doctor's appointments and
working schedule and moves every appointment that has not yet taken place
so that no two appointments of a day overlap, every start and end falls in
the working window outside the lunch break and after the last finished
appointment of the day, and the starts stay as close as possible to the
booked ones. When the unfinished appointments of a day cannot all be
placed, the one with the highest id (not necessarily one that does not fit)
is moved to the next day, or to the following Monday when the day is the
last working day of the week, and the day is tried again.

The model follows the source file by file:

- `clock.dfy` — times as seconds since midnight in `[0, MAX_SECONDS)` with
  the `(value, wrapped)` results of `+` and `-`; dates as day numbers whose
  weekday is the day number modulo 7 (day 0 a Monday).
- `spans.dfy` — `are_not_spans_intersected`.
- `schedules.dfy` — the schedule row, `check_time_base`, and `check_time`
  (a method with the loop that folds the latest finished `real_end`).
- `table.dfy` — the Appointments table as a class whose `rows` map and
  cached-view `filters` the methods update; `get_ids_of_appointments`.
- `weights.dfy` — the Fibonacci weight vector built in
  `optimize_appointments`.
- `search.dfy` — `get_not_intersected_spans` as a recursive method with the
  loop over shifts, proved equal to a recursive specification `Search`.
- `search_facts.dfy` — what `Search` guarantees: every result comes from
  grid shifts, it is optimal among feasible grid placements, and the spans
  it returns do not overlap and pass `check_time`.
- `driver.dfy` — `optimize_appointments`: the date list, the reset of
  `real_date`, the loop that postpones or commits, and the invariant it
  keeps.

## Model

| member | source | states |
|---|---|---|
| Clock.Add | clinic/common.py:202 | `start + delta` wraps exactly when the sum reaches a day; the value is the sum modulo a day |
| Clock.Sub | clinic/common.py:199 | `start - delta` wraps exactly when the subtrahend is larger; the value is the difference modulo a day |
| Spans.DisjointIffNoCommonInstant | clinic/common.py:245-247 | for well-formed spans the test holds exactly when no instant lies in both closed spans; it is symmetric; spans sharing an end instant count as intersecting |
| Schedules.CheckTimeBase | clinic/common.py:87-104 | an instant before the start of work is refused; without lunch, accepted exactly inside `[start, end]`; any instant of the lunch break, both ends included, is refused; for a well-ordered schedule, accepted exactly inside the window and outside lunch |
| Schedules.CheckTime | clinic/common.py:70-84 | accepts exactly when `check_time_base` accepts, the instant is after 00:00:00 and after the `real_end` of every finished appointment given |
| WeightVector.BuildWeights | clinic/common.py:141-146 | the built list has `max(2, n)` entries and entry `i` is the Fibonacci number `len - 1 - i` |
| WeightVector.WeightsShape | clinic/common.py:141-146 | weights are positive, non-increasing, end in two 1s, and each is the sum of the next two |
| WeightVector.FibMonotone | clinic/common.py:143-144 | the sequence built by the loop never decreases |
| SpanSearch.Candidate | clinic/common.py:197-207 | a shifted span exists exactly when the shifted start and its end stay within the day; it starts at `start + delta` and keeps the length |
| SpanSearch.IntersectsAny | clinic/common.py:217-223 | reports a clash exactly when some placed span intersects the new one |
| SpanSearch.TryShift | clinic/common.py:197-239 | one loop iteration turns the best result so far into the next one as `Step` does, and the best cost stays at 10**20 while there is no result |
| SpanSearch.GetNotIntersectedSpans | clinic/common.py:176-242 | the result is `Search` of the placed spans, the jobs of the given appointments and the `real_end`s of the finished ones |
| SearchFacts.SearchSound | clinic/common.py:183-242 | a result costs less than 10**20 and is produced by grid shifts that are feasible, place exactly its spans, and have its weighted cost |
| SearchFacts.SearchComplete | clinic/common.py:194-239 | with non-negative weights, any feasible grid placement costing less than 10**20 makes the search succeed with a cost no higher |
| SearchFacts.SearchOptimal | clinic/common.py:176-242 | with non-negative weights the search fails exactly when every feasible grid placement costs at least 10**20; a result is realized by feasible shifts and costs no more than any feasible placement |
| SearchFacts.PlaceShape | clinic/common.py:197-226 | placing jobs keeps the placed spans and adds one span per job: shifted by its delta, of its length, with both ends accepted and overlapping no earlier span |
| SearchFacts.SearchShape | clinic/common.py:183-230 | no jobs gives cost 0 and the input spans; a result keeps the input spans and adds one span per job, each placed by a grid shift as above |
| SearchFacts.SearchPlacement | clinic/common.py:209-226 | the spans of a result from no spans are one per job, of the job's length, with both ends accepted by `check_time`, and pairwise non-intersecting |
| SearchFacts.GridFromSteps | clinic/common.py:194-196 | the `k`-th shift of the range is its start plus `k` steps |
| SearchFacts.GridSkipsZero | clinic/common.py:194-196 | the range of shifts with the default step 250 never contains 0 |
| SearchFacts.SearchMovesEveryStart | clinic/common.py:176-242 | with the default step, every span a successful search returns starts somewhere other than its appointment's booked start |
| Table.IdsWhere | clinic/common.py:250-269 | strictly ascending ids, exactly those of rows with the requested `was_over` and, when given, `real_date` |
| Table.SelectionFiltersSelect | clinic/common.py:255-263 | a row passes the filter requests exactly when it passes the earlier ones and has the requested `was_over` and `real_date` |
| Table.AppointmentTable.GetIdsOfAppointments | clinic/common.py:250-269 | returns the ascending ids of the selected rows of the current view, equal to `IdsWhere` on a reset view; resets the view and changes no row |
| Driver.PostponeDays | clinic/common.py:154-157 | moves 1 to 7 days; from the last working day of the week it lands on a Monday, otherwise on the next day |
| Driver.Distinct | clinic/common.py:118-122 | the kept dates have no duplicates and are exactly the dates of the column |
| Driver.CollectDates | clinic/common.py:116-124 | strictly ascending list of exactly the booked dates of all appointments; the view is reset |
| Driver.ResetRealDates | clinic/common.py:126-129 | every appointment's `real_date` becomes its booked date and nothing else changes |
| Driver.Postpone | clinic/common.py:152-160 | the appointment's `real_date` moves on by `PostponeDays` and no other field or row changes |
| Driver.AddDate | clinic/common.py:161-164 | the list stays strictly ascending and holds exactly the old dates and the new one |
| Driver.WriteSpans | clinic/common.py:168-173 | the `k`-th id gets the `k`-th span as `real_start`/`real_end`, as far as the shorter list goes; every other row is unchanged |
| Driver.PostponeLastMeans | clinic/common.py:151-165 | after the unfinished appointment with the highest id is moved on by `PostponeDays` and its date joins the list, the round is the failure branch: exactly that row changes, to the day plus `PostponeDays`, and the cursor points at the current date again |
| Driver.PostponeLast | clinic/common.py:151-165 | moves the last unfinished appointment of the current date on by `PostponeDays` (the following Monday from the last working day of the week, one day otherwise), adds the date, points the cursor at the current date again, and keeps the loop invariant |
| Driver.Commit | clinic/common.py:166-173 | writes the search's spans to the day's unfinished appointments in ascending id order and keeps the loop invariant with the cursor one date further |
| Driver.Round | clinic/common.py:133-173 | when the search for the current date fails, the day's unfinished appointment with the highest id, and only it, moves on by `PostponeDays`, its date joins the list, which stays strictly ascending, and the cursor stays on the current date; when it succeeds, the spans it returns are written to the day's unfinished appointments, the date list stays and the cursor moves on by one; either way this is a `RoundStep` and the loop invariant holds |
| Driver.StartRun | clinic/common.py:116-131 | collects the booked dates and resets every `real_date`, giving the start state of the loop: the reset table, the booked dates ascending, the cursor at 0 |
| Driver.RunExtend | clinic/common.py:133-173 | a run followed by one more round is still a run from the same start |
| Driver.RunRounds | clinic/common.py:133-173 | the loop records its states: the first is the start state, each next one is one `RoundStep` on, the last is the final table; it stops early only when the cursor has passed every date; every appointment stays within bounds, and on completion every day is settled |
| Driver.OptimizeAppointments | clinic/common.py:107-173 | returns the trace of loop states: it begins with the reset table and the booked dates, each state is one round (postponement of the day's highest-id unfinished appointment on a failed search, write-back of the search's spans otherwise) after the one before, the last is the final table, and fewer than `maxRounds` rounds are run only when every date has been passed; only `real_date`, `real_start` and `real_end` change; no appointment moves before its booked date; finished appointments keep their span on their booked date; when the loop ends, every appointment's day is settled |
| Driver.SettledMeans | clinic/common.py:148-173 | on a settled day the unfinished appointments keep their lengths, do not overlap, have both ends accepted by `check_time`, and no feasible grid placement costs less than theirs, which is below 10**20 |
| Driver.CommitSettles | clinic/common.py:166-173 | writing back the search's spans settles the day, changes no date, flag or length, and leaves other days untouched |
| Driver.PostponeKeepsSettled | clinic/common.py:151-165 | after a postponement and re-sort every date before the current one is still settled |
| Driver.SettledFrame | clinic/common.py:136-150 | whether a day is settled depends only on the appointments on that day |
| Driver.PostponeStep | clinic/common.py:151-165 | the postponement branch keeps the loop invariant with the cursor back on the current date |
| Driver.CommitStep | clinic/common.py:166-173 | the commit branch keeps the loop invariant with the cursor one date further |
| Driver.InvDone | clinic/common.py:133 | once the cursor passes the last date, every appointment sits on a settled day |
| Ordering.Sort | clinic/common.py:124 | strictly ascending, same elements, same length |
| Ordering.IndexOf | clinic/common.py:165 | the position of the first occurrence of the element |

## Left out

- `MAX_SECONDS` is taken as 86400 (the time wrapper is not part of this model); times are whole seconds.
- Clock.Sub: the value of a wrapped subtraction is taken to be the difference modulo a day, an assumption about the time wrapper, which is not part of this model; it decides the length `JobOf` gives an appointment whose `real_end` is before its `real_start`.
- Dates are day numbers and the weekday is the day number modulo 7 (day 0 a Monday); string conversions of dates and times (`str(real_date)`, `.value`) are not modelled.
- The schedule is the single row the doctor's schedule view holds; the view reset in `check_time_base` (line 90) is not modelled.
- Table storage, persistence and the internals of `update_cached`, `get_wrapper` and `update_field` are not modelled: the table is a map from id to record plus the list of view requests, and the view lists rows by ascending id, so the sort-by-id request keeps that order.
- `get_first_unmarked_appointment`, `get_tables_related_to_appointments`, `get_shedule` and `get_doctors_info` are not part of this model.
- Driver.OptimizeAppointments: runs at most `maxRounds` iterations of the loop and says `completed` when the loop ended, because the source loop need not end (an appointment that fits no day is postponed forever).
- SearchFacts.SearchOptimal: states that the result has minimal cost but not which of several equally cheap placements is returned (the first in grid order, as `Search` itself models).
- Driver.WriteSpans: requires the ids to be distinct; the source only passes the ascending id list of one day.
- The recursive call of `get_not_intersected_spans` does not pass `percision` on (lines 228-230), so every job after the first is searched with the default step 250; the model does the same.
- Table.IdsWhere: the source filters on column 3 of the Appointments table (lines 260-261) without naming it; the model takes that column to be `real_date`, and Driver.CollectDates likewise takes column 1, read at line 117, to be the booked `date`; both are inferences from the column numbers the module uses elsewhere, since the table layout is not part of this model.
- SpanSearch.GetNotIntersectedSpans and SpanSearch.Search: require a non-zero step; with a step of 0 `range` raises `ValueError` in the source, and that error is not modelled (the only caller passes the default 250).
- SpanSearch.GetNotIntersectedSpans and SpanSearch.Search: require at least as many weights as appointments; with fewer the source returns `None` or raises `IndexError` at line 236, and neither outcome is modelled (the only caller builds at least as many weights as appointments).
- The model follows the code in these places, which a reader might not expect: spans that share an end instant count as intersecting (line 247); an instant equal to the start of lunch is refused (lines 98-101); the date list is built from the booked dates of all appointments, finished ones included (lines 116-117); every appointment's `real_date`, finished ones included, is reset to its booked date (lines 126-129); an instant of 00:00:00 is refused by `check_time` even without finished appointments (lines 79-84); a postponed appointment moves by one day unless its weekday is the last working day of the week, so from a day off it lands on the next day even when that is a day off too (Saturday to Sunday in a five-day week, lines 156-157). With `MAX_SECONDS` taken as 86400, the shifts tried start at `-MAX_SECONDS + 1 = -86399` in steps of 250 and so never include 0 (lines 194-196): a rescheduled unfinished appointment never keeps its booked start, and a day whose appointments could all stay put still has every start moved. The model follows the code and proves this in SearchFacts.GridSkipsZero and SearchFacts.SearchMovesEveryStart.
