/** The exhaustive search for non-overlapping spans
    (clinic/common.py, `get_not_intersected_spans`).

    Each pending appointment is a `Job`: its booked start and the length
    `real_end - real_start` it keeps. The search tries every shift of the
    first job's start on a grid of `precision`-second steps, keeps the
    candidates whose span fits the working window and overlaps no span
    already placed, recurses on the remaining jobs, and returns the
    candidate with the smallest weighted sum of shift magnitudes. The
    recursive call does not pass its `precision` on, so every job after
    the first uses the default step. */
module SpanSearch {
  import opened Wrappers
  import opened Clock
  import opened Spans
  import opened Table
  import opened Schedules

  /** The default of the search's `percision` parameter, in seconds. */
  const DEFAULT_PRECISION: int := 250

  /** The search's starting `min_deltas_sum`: a candidate is kept only
      when its cost is strictly below the best so far, and below this
      before any has been kept. */
  const NO_RESULT_COST: int := 100_000_000_000_000_000_000

  datatype Job = Job(pref: Time, length: Time)

  /** A successful search: the weighted cost and the spans, the input spans
      first, then one per job. */
  datatype Found = Found(cost: int, spans: seq<Span>)

  /** The cost a new candidate has to beat. */
  function Bound(best: Option<Found>): int {
    if best.None? then NO_RESULT_COST else best.value.cost
  }

  /** The search's `[min_deltas_sum, result_spans]` pair as a result:
      nothing while `result_spans` is still `None`. */
  function Best(minSum: int, resultSpans: Option<seq<Span>>): (r: Option<Found>)
    ensures r.None? <==> resultSpans.None?
    ensures r.Some? ==> r.value == Found(minSum, resultSpans.value)
  {
    if resultSpans.None? then None else Some(Found(minSum, resultSpans.value))
  }

  /** The job of an appointment: its booked start and the (wrapped)
      difference `real_end - real_start`. */
  function JobOf(a: Appointment): Job {
    Job(a.start, Sub(a.realEnd, a.realStart).0)
  }

  function Jobs(rows: map<int, Appointment>, ids: seq<int>): (r: seq<Job>)
    requires AllIn(ids, rows)
    ensures |r| == |ids|
    ensures forall k :: 0 <= k < |ids| ==> r[k] == JobOf(rows[ids[k]])
  {
    seq(|ids|, k requires 0 <= k < |ids| => JobOf(rows[ids[k]]))
  }

  function Abs(x: int): int {
    if x < 0 then -x else x
  }

  /** The grid `range(d, MAX_SECONDS, precision)`. */
  function GridFrom(d: int, precision: int): (r: seq<int>)
    requires precision > 0
    ensures forall k :: 0 <= k < |r| ==> d <= r[k] < MAX_SECONDS
    decreases MAX_SECONDS - d
  {
    if d >= MAX_SECONDS then [] else [d] + GridFrom(d + precision, precision)
  }

  /** The shifts the search tries, in the order it tries them:
      `range(-MAX_SECONDS + 1, MAX_SECONDS, precision)`, which is empty for
      a negative step. */
  function Grid(precision: int): (r: seq<int>)
    requires precision != 0
    ensures forall k :: 0 <= k < |r| ==> -MAX_SECONDS < r[k] < MAX_SECONDS
  {
    if precision > 0 then GridFrom(-MAX_SECONDS + 1, precision) else []
  }

  /** The span a job gets when its start is shifted by `delta`, or `None`
      when the start or the end would wrap past a day boundary. */
  function Candidate(job: Job, delta: int): (r: Option<Span>)
    requires -MAX_SECONDS < delta < MAX_SECONDS
    ensures r.Some? <==> 0 <= job.pref + delta && job.pref + delta + job.length < MAX_SECONDS
    ensures r.Some? ==> r.value.start == job.pref + delta && r.value.end == r.value.start + job.length
  {
    var shifted := if delta < 0 then Sub(job.pref, -delta) else Add(job.pref, delta);
    if shifted.1 then None
    else
      var ended := Add(shifted.0, job.length);
      if ended.1 then None else Some(Span(shifted.0, ended.0))
  }

  /** A candidate span is kept when both its ends pass `check_time` and it
      overlaps none of the spans placed before it. */
  predicate Admissible(sp: Span, spans: seq<Span>, sched: Schedule, ends: seq<Time>) {
    TimeAllowed(sp.start, sched, ends) && TimeAllowed(sp.end, sched, ends) &&
    forall k :: 0 <= k < |spans| ==> AreNotSpansIntersected(sp, spans[k])
  }

  /** The value `get_not_intersected_spans` returns for spans already placed
      and the jobs still to place. */
  function Search(spans: seq<Span>, jobs: seq<Job>, weights: seq<int>, sched: Schedule,
                  ends: seq<Time>, precision: int): Option<Found>
    requires precision != 0 && |weights| >= |jobs|
    decreases |jobs|, 2
  {
    if jobs == [] then Some(Found(0, spans))
    else Scan(Grid(precision), None, spans, jobs, weights, sched, ends)
  }

  /** The remaining iterations of the search's loop over the shifts `ds`,
      with `best` the best result found so far. */
  function Scan(ds: seq<int>, best: Option<Found>, spans: seq<Span>, jobs: seq<Job>,
                weights: seq<int>, sched: Schedule, ends: seq<Time>): Option<Found>
    requires jobs != [] && |weights| >= |jobs|
    requires forall k :: 0 <= k < |ds| ==> -MAX_SECONDS < ds[k] < MAX_SECONDS
    decreases |jobs|, 1, |ds|
  {
    if ds == [] then best
    else Scan(ds[1..], Step(ds[0], best, spans, jobs, weights, sched, ends), spans, jobs, weights, sched, ends)
  }

  /** One iteration of the search's loop: the shift `d` of the first job
      replaces `best` when it leads to a full placement whose cost is
      strictly lower. */
  function Step(d: int, best: Option<Found>, spans: seq<Span>, jobs: seq<Job>,
                weights: seq<int>, sched: Schedule, ends: seq<Time>): Option<Found>
    requires jobs != [] && |weights| >= |jobs|
    requires -MAX_SECONDS < d < MAX_SECONDS
    decreases |jobs|, 0
  {
    match Candidate(jobs[0], d)
    case None => best
    case Some(sp) =>
      if !Admissible(sp, spans, sched, ends) then best
      else
        match Search(spans + [sp], jobs[1..], weights[1..], sched, ends, DEFAULT_PRECISION)
        case None => best
        case Some(sub) =>
          var c := sub.cost + Abs(d) * weights[0];
          if c < Bound(best) then Some(Found(c, sub.spans)) else best
  }

  /** The inner loop over the spans already placed: whether the new span
      overlaps one of them. */
  method IntersectsAny(sp: Span, spans: seq<Span>) returns (clash: bool)
    ensures clash <==> exists k :: 0 <= k < |spans| && !AreNotSpansIntersected(sp, spans[k])
  {
    clash := false;
    var i := 0;
    while i < |spans|
      invariant 0 <= i <= |spans|
      invariant forall k :: 0 <= k < i ==> AreNotSpansIntersected(sp, spans[k])
    {
      if !AreNotSpansIntersected(sp, spans[i]) {
        clash := true;
        return;
      }
      i := i + 1;
    }
  }

  /** `get_not_intersected_spans(spans, appointments, unfinished_ids, weights,
      finished_ids, shedules, percision)`. */
  method GetNotIntersectedSpans(spans: seq<Span>, rows: map<int, Appointment>, ids: seq<int>,
                                weights: seq<int>, finished: seq<int>, sched: Schedule,
                                precision: int)
    returns (r: Option<Found>)
    requires AllIn(ids, rows) && AllIn(finished, rows)
    requires |weights| >= |ids|
    requires precision != 0
    ensures r == Search(spans, Jobs(rows, ids), weights, sched, Ends(rows, finished), precision)
    decreases |ids|, 1
  {
    if |ids| == 0 {
      return Some(Found(0, spans));
    }
    ghost var jobs := Jobs(rows, ids);
    ghost var ends := Ends(rows, finished);
    var minSum := NO_RESULT_COST;
    var resultSpans: Option<seq<Span>> := None;
    if precision > 0 {
      var delta := -MAX_SECONDS + 1;
      while delta < MAX_SECONDS
        invariant resultSpans.None? ==> minSum == NO_RESULT_COST
        invariant Scan(GridFrom(delta, precision), Best(minSum, resultSpans), spans, jobs, weights, sched, ends)
               == Scan(Grid(precision), None, spans, jobs, weights, sched, ends)
        decreases MAX_SECONDS - delta
      {
        minSum, resultSpans := TryShift(delta, minSum, resultSpans, spans, rows, ids, weights, finished, sched);
        delta := delta + precision;
      }
    }
    return Best(minSum, resultSpans);
  }

  /** Lines 197-239, one iteration of the search's loop: shifts the first
      job by `delta`, and when the shifted span fits, passes `check_time`
      at both ends and overlaps no placed span, searches the remaining jobs
      and keeps the result if its cost is below `minSum`. */
  method TryShift(delta: int, minSum: int, resultSpans: Option<seq<Span>>, spans: seq<Span>,
                  rows: map<int, Appointment>, ids: seq<int>, weights: seq<int>, finished: seq<int>,
                  sched: Schedule)
    returns (minSum': int, resultSpans': Option<seq<Span>>)
    requires ids != [] && AllIn(ids, rows) && AllIn(finished, rows) && |weights| >= |ids|
    requires -MAX_SECONDS < delta < MAX_SECONDS
    requires resultSpans.None? ==> minSum == NO_RESULT_COST
    ensures resultSpans'.None? ==> minSum' == NO_RESULT_COST
    ensures Best(minSum', resultSpans') ==
      Step(delta, Best(minSum, resultSpans), spans, Jobs(rows, ids), weights, sched, Ends(rows, finished))
    decreases |ids|, 0
  {
    ghost var jobs := Jobs(rows, ids);
    minSum', resultSpans' := minSum, resultSpans;
    var a := rows[ids[0]];
    var length := Sub(a.realEnd, a.realStart).0;
    assert jobs[0] == Job(a.start, length);
    var shifted := if delta < 0 then Sub(a.start, -delta) else Add(a.start, delta);
    if shifted.1 {
      return;
    }
    var ended := Add(shifted.0, length);
    if ended.1 {
      return;
    }
    var sp := Span(shifted.0, ended.0);
    assert Candidate(jobs[0], delta) == Some(sp);
    var startOk := CheckTime(sp.start, sched, finished, rows);
    var endOk := CheckTime(sp.end, sched, finished, rows);
    if !(startOk && endOk) {
      return;
    }
    var clash := IntersectsAny(sp, spans);
    if clash {
      return;
    }
    assert Jobs(rows, ids[1..]) == jobs[1..];
    var sub := GetNotIntersectedSpans(spans + [sp], rows, ids[1..], weights[1..],
                                      finished, sched, DEFAULT_PRECISION);
    if sub.None? {
      return;
    }
    var c := sub.value.cost + Abs(delta) * weights[0];
    if c < minSum {
      minSum', resultSpans' := c, Some(sub.value.spans);
    }
  }
}
