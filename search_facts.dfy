/** What the search promises: every result it returns is a placement of
    grid shifts that fits the window and overlaps nothing, its cost is the
    weighted sum of that placement's shift magnitudes, no feasible grid
    placement costs less, and it fails exactly when no grid placement is
    feasible. */
module SearchFacts {
  import opened Wrappers
  import opened Clock
  import opened Spans
  import opened Schedules
  import opened SpanSearch

  /** The step of the grid the `k`-th job's shift is taken from. */
  function StepOf(k: int, precision: int): int {
    if k == 0 then precision else DEFAULT_PRECISION
  }

  /** One shift per job, each from the grid that job is searched over. */
  ghost predicate OnGrid(ds: seq<int>, precision: int)
    requires precision != 0
  {
    forall k :: 0 <= k < |ds| ==> -MAX_SECONDS < ds[k] < MAX_SECONDS && ds[k] in Grid(StepOf(k, precision))
  }

  /** Placing the jobs one after another with the given shifts: the spans
      after the last job, or `None` when some shifted span wraps, leaves
      the window or overlaps a span placed before it. */
  function Place(spans: seq<Span>, jobs: seq<Job>, ds: seq<int>, sched: Schedule, ends: seq<Time>): Option<seq<Span>>
    requires |ds| == |jobs|
    requires forall k :: 0 <= k < |ds| ==> -MAX_SECONDS < ds[k] < MAX_SECONDS
    decreases |jobs|
  {
    if jobs == [] then Some(spans)
    else
      match Candidate(jobs[0], ds[0])
      case None => None
      case Some(sp) =>
        if Admissible(sp, spans, sched, ends) then Place(spans + [sp], jobs[1..], ds[1..], sched, ends)
        else None
  }

  /** The weighted sum of the shift magnitudes: `sum |ds[i]| * weights[i]`. */
  function Cost(ds: seq<int>, weights: seq<int>): int
    requires |weights| >= |ds|
  {
    if ds == [] then 0 else Abs(ds[0]) * weights[0] + Cost(ds[1..], weights[1..])
  }

  ghost predicate Feasible(ds: seq<int>, spans: seq<Span>, jobs: seq<Job>, sched: Schedule,
                           ends: seq<Time>, precision: int)
    requires precision != 0
  {
    |ds| == |jobs| && OnGrid(ds, precision) && Place(spans, jobs, ds, sched, ends).Some?
  }

  /** The shifts `ds` produce the result `f`: same spans, same cost. */
  ghost predicate Realizes(ds: seq<int>, f: Found, spans: seq<Span>, jobs: seq<Job>, weights: seq<int>,
                           sched: Schedule, ends: seq<Time>, precision: int)
    requires precision != 0 && |weights| >= |jobs|
  {
    Feasible(ds, spans, jobs, sched, ends, precision) &&
    Place(spans, jobs, ds, sched, ends) == Some(f.spans) && Cost(ds, weights) == f.cost
  }

  // ---------------------------------------------------------------------
  // Soundness: whatever the search returns is produced by grid shifts.

  lemma {:induction false} SearchSound(spans: seq<Span>, jobs: seq<Job>, weights: seq<int>,
                                       sched: Schedule, ends: seq<Time>, precision: int)
    requires precision != 0 && |weights| >= |jobs|
    ensures var r := Search(spans, jobs, weights, sched, ends, precision);
      r.Some? ==> (r.value.cost < NO_RESULT_COST &&
        exists ds :: Realizes(ds, r.value, spans, jobs, weights, sched, ends, precision))
    decreases |jobs|, 2
  {
    if jobs == [] {
      assert Realizes([], Found(0, spans), spans, jobs, weights, sched, ends, precision);
    } else {
      var g := Grid(precision);
      assert forall k :: 0 <= k < |g| ==> g[k] in g;
      ScanSound(g, None, spans, jobs, weights, sched, ends, precision);
    }
  }

  lemma {:induction false} ScanSound(ds: seq<int>, best: Option<Found>, spans: seq<Span>, jobs: seq<Job>,
                                     weights: seq<int>, sched: Schedule, ends: seq<Time>, precision: int)
    requires precision != 0 && jobs != [] && |weights| >= |jobs|
    requires forall k :: 0 <= k < |ds| ==> ds[k] in Grid(precision)
    requires forall k :: 0 <= k < |ds| ==> -MAX_SECONDS < ds[k] < MAX_SECONDS
    requires best.Some? ==> (best.value.cost < NO_RESULT_COST &&
      exists es :: Realizes(es, best.value, spans, jobs, weights, sched, ends, precision))
    ensures var r := Scan(ds, best, spans, jobs, weights, sched, ends);
      r.Some? ==> (r.value.cost < NO_RESULT_COST &&
        exists es :: Realizes(es, r.value, spans, jobs, weights, sched, ends, precision))
    decreases |jobs|, 1, |ds|
  {
    if ds != [] {
      StepSound(ds[0], best, spans, jobs, weights, sched, ends, precision);
      ScanSound(ds[1..], Step(ds[0], best, spans, jobs, weights, sched, ends),
                spans, jobs, weights, sched, ends, precision);
    }
  }

  lemma {:induction false} StepSound(d: int, best: Option<Found>, spans: seq<Span>, jobs: seq<Job>,
                                     weights: seq<int>, sched: Schedule, ends: seq<Time>, precision: int)
    requires precision != 0 && jobs != [] && |weights| >= |jobs|
    requires -MAX_SECONDS < d < MAX_SECONDS && d in Grid(precision)
    requires best.Some? ==> (best.value.cost < NO_RESULT_COST &&
      exists es :: Realizes(es, best.value, spans, jobs, weights, sched, ends, precision))
    ensures var r := Step(d, best, spans, jobs, weights, sched, ends);
      r.Some? ==> (r.value.cost < NO_RESULT_COST &&
        exists es :: Realizes(es, r.value, spans, jobs, weights, sched, ends, precision))
    decreases |jobs|, 0
  {
    var r := Step(d, best, spans, jobs, weights, sched, ends);
    if r.Some? && r != best {
      // only a replaced best can be new
      var sp := Candidate(jobs[0], d).value;
      assert Admissible(sp, spans, sched, ends);
      var sub := Search(spans + [sp], jobs[1..], weights[1..], sched, ends, DEFAULT_PRECISION);
      assert sub.Some? && r.value == Found(sub.value.cost + Abs(d) * weights[0], sub.value.spans);
      SearchSound(spans + [sp], jobs[1..], weights[1..], sched, ends, DEFAULT_PRECISION);
      var rest :| Realizes(rest, sub.value, spans + [sp], jobs[1..], weights[1..], sched, ends, DEFAULT_PRECISION);
      ExtendRealizes(d, sp, rest, sub.value, spans, jobs, weights, sched, ends, precision);
    }
  }

  /** Shifting the first job by `d` in front of shifts that realize the
      rest of the search realizes the combined result. */
  lemma ExtendRealizes(d: int, sp: Span, rest: seq<int>, sub: Found, spans: seq<Span>, jobs: seq<Job>,
                       weights: seq<int>, sched: Schedule, ends: seq<Time>, precision: int)
    requires precision != 0 && jobs != [] && |weights| >= |jobs|
    requires -MAX_SECONDS < d < MAX_SECONDS && d in Grid(precision)
    requires Candidate(jobs[0], d) == Some(sp) && Admissible(sp, spans, sched, ends)
    requires Realizes(rest, sub, spans + [sp], jobs[1..], weights[1..], sched, ends, DEFAULT_PRECISION)
    ensures Realizes([d] + rest, Found(sub.cost + Abs(d) * weights[0], sub.spans),
                     spans, jobs, weights, sched, ends, precision)
  {
    var es := [d] + rest;
    assert es[1..] == rest;
    assert OnGrid(es, precision) by {
      forall k | 0 <= k < |es|
        ensures -MAX_SECONDS < es[k] < MAX_SECONDS && es[k] in Grid(StepOf(k, precision))
      {
        if k > 0 {
          assert es[k] == rest[k - 1];
        }
      }
    }
    assert Place(spans, jobs, es, sched, ends) == Some(sub.spans);
    assert Cost(es, weights) == Abs(d) * weights[0] + sub.cost;
  }

  // ---------------------------------------------------------------------
  // Optimality: the search finds a result no costlier than any feasible
  // grid placement.

  lemma {:induction false} ScanKeepsBest(ds: seq<int>, best: Option<Found>, spans: seq<Span>, jobs: seq<Job>,
                                         weights: seq<int>, sched: Schedule, ends: seq<Time>)
    requires jobs != [] && |weights| >= |jobs|
    requires forall k :: 0 <= k < |ds| ==> -MAX_SECONDS < ds[k] < MAX_SECONDS
    requires best.Some?
    ensures var r := Scan(ds, best, spans, jobs, weights, sched, ends);
      r.Some? && r.value.cost <= best.value.cost
    decreases |ds|
  {
    if ds != [] {
      ScanKeepsBest(ds[1..], Step(ds[0], best, spans, jobs, weights, sched, ends), spans, jobs, weights, sched, ends);
    }
  }

  lemma {:induction false} ScanCovers(ds: seq<int>, i: int, best: Option<Found>, spans: seq<Span>, jobs: seq<Job>,
                                      weights: seq<int>, sched: Schedule, ends: seq<Time>)
    requires jobs != [] && |weights| >= |jobs|
    requires forall k :: 0 <= k < |ds| ==> -MAX_SECONDS < ds[k] < MAX_SECONDS
    requires 0 <= i < |ds| && Step(ds[i], None, spans, jobs, weights, sched, ends).Some?
    ensures var r := Scan(ds, best, spans, jobs, weights, sched, ends);
      r.Some? && r.value.cost <= Step(ds[i], None, spans, jobs, weights, sched, ends).value.cost
    decreases |ds|
  {
    var next := Step(ds[0], best, spans, jobs, weights, sched, ends);
    if i == 0 {
      assert next.Some? && next.value.cost <= Step(ds[0], None, spans, jobs, weights, sched, ends).value.cost;
      ScanKeepsBest(ds[1..], next, spans, jobs, weights, sched, ends);
    } else {
      ScanCovers(ds[1..], i - 1, next, spans, jobs, weights, sched, ends);
    }
  }

  /** No job weighs negatively. */
  predicate NonNegative(weights: seq<int>) {
    forall k :: 0 <= k < |weights| ==> weights[k] >= 0
  }

  /** The shifts after the first are on the default grid. */
  lemma OnGridTail(es: seq<int>, precision: int)
    requires precision != 0 && es != [] && OnGrid(es, precision)
    ensures OnGrid(es[1..], DEFAULT_PRECISION)
  {
    var rest := es[1..];
    forall k | 0 <= k < |rest|
      ensures -MAX_SECONDS < rest[k] < MAX_SECONDS && rest[k] in Grid(StepOf(k, DEFAULT_PRECISION))
    {
      assert rest[k] == es[k + 1];
    }
  }

  /** Dropping the first job costs no more. */
  lemma CostTail(es: seq<int>, weights: seq<int>)
    requires es != [] && |weights| >= |es| && NonNegative(weights)
    ensures NonNegative(weights[1..]) && Cost(es[1..], weights[1..]) <= Cost(es, weights)
  {
    assert Abs(es[0]) * weights[0] >= 0;
  }

  lemma {:induction false} SearchComplete(es: seq<int>, spans: seq<Span>, jobs: seq<Job>, weights: seq<int>,
                                          sched: Schedule, ends: seq<Time>, precision: int)
    requires precision != 0 && |weights| >= |jobs| && NonNegative(weights)
    requires Feasible(es, spans, jobs, sched, ends, precision) && Cost(es, weights) < NO_RESULT_COST
    ensures var r := Search(spans, jobs, weights, sched, ends, precision);
      r.Some? && r.value.cost <= Cost(es, weights)
    decreases |jobs|
  {
    if jobs != [] {
      var d := es[0];
      var sp := Candidate(jobs[0], d).value;
      var rest := es[1..];
      OnGridTail(es, precision);
      CostTail(es, weights);
      SearchComplete(rest, spans + [sp], jobs[1..], weights[1..], sched, ends, DEFAULT_PRECISION);
      var g := Grid(precision);
      var i :| 0 <= i < |g| && g[i] == d;
      ScanCovers(g, i, None, spans, jobs, weights, sched, ends);
    }
  }

  /** With no negative weight, the search fails exactly when every
      feasible grid placement costs at least the starting
      `min_deltas_sum`; when it succeeds, its result costs less than that,
      is produced by feasible grid shifts whose weighted cost it reports,
      and no feasible grid placement costs less. */
  lemma SearchOptimal(spans: seq<Span>, jobs: seq<Job>, weights: seq<int>,
                      sched: Schedule, ends: seq<Time>, precision: int)
    requires precision != 0 && |weights| >= |jobs| && NonNegative(weights)
    ensures var r := Search(spans, jobs, weights, sched, ends, precision);
      (r.None? <==> forall es :: Feasible(es, spans, jobs, sched, ends, precision) ==> Cost(es, weights) >= NO_RESULT_COST) &&
      (r.Some? ==> r.value.cost < NO_RESULT_COST) &&
      (r.Some? ==> exists ds :: Realizes(ds, r.value, spans, jobs, weights, sched, ends, precision)) &&
      (r.Some? ==> forall es :: Feasible(es, spans, jobs, sched, ends, precision) ==> r.value.cost <= Cost(es, weights))
  {
    var r := Search(spans, jobs, weights, sched, ends, precision);
    SearchSound(spans, jobs, weights, sched, ends, precision);
    forall es | Feasible(es, spans, jobs, sched, ends, precision)
      ensures Cost(es, weights) < NO_RESULT_COST ==> r.Some?
      ensures r.Some? ==> r.value.cost <= Cost(es, weights)
    {
      if Cost(es, weights) < NO_RESULT_COST {
        SearchComplete(es, spans, jobs, weights, sched, ends, precision);
      }
    }
    if r.Some? {
      var ds :| Realizes(ds, r.value, spans, jobs, weights, sched, ends, precision);
      assert Feasible(ds, spans, jobs, sched, ends, precision);
    }
  }

  // ---------------------------------------------------------------------
  // Shape of a placement.

  /** The `i`-th span of `out` is the job shifted by `d`, keeps the job's
      length without wrapping, has both ends accepted by `check_time`, and
      overlaps none of the spans before it. */
  ghost predicate PlacedAt(out: seq<Span>, i: int, job: Job, d: int, sched: Schedule, ends: seq<Time>)
    requires 0 <= i < |out|
  {
    out[i].start == job.pref + d && out[i].end == out[i].start + job.length &&
    TimeAllowed(out[i].start, sched, ends) && TimeAllowed(out[i].end, sched, ends) &&
    forall j :: 0 <= j < i ==> AreNotSpansIntersected(out[i], out[j])
  }

  /** Every job, from the `base`-th span of `out` on, is placed by its
      shift. */
  ghost predicate PlacedAll(out: seq<Span>, base: nat, jobs: seq<Job>, ds: seq<int>, sched: Schedule, ends: seq<Time>)
    requires base + |jobs| <= |out| && |ds| == |jobs|
  {
    forall k :: 0 <= k < |jobs| ==> PlacedAt(out, base + k, jobs[k], ds[k], sched, ends)
  }

  lemma {:induction false} PlaceShape(spans: seq<Span>, jobs: seq<Job>, ds: seq<int>, sched: Schedule,
                                      ends: seq<Time>, out: seq<Span>)
    requires |ds| == |jobs|
    requires forall k :: 0 <= k < |ds| ==> -MAX_SECONDS < ds[k] < MAX_SECONDS
    requires Place(spans, jobs, ds, sched, ends) == Some(out)
    ensures |out| == |spans| + |jobs| && out[..|spans|] == spans
    ensures forall k :: 0 <= k < |jobs| ==> PlacedAt(out, |spans| + k, jobs[k], ds[k], sched, ends)
    decreases |jobs|
  {
    if jobs != [] {
      var sp := Candidate(jobs[0], ds[0]).value;
      PlaceShape(spans + [sp], jobs[1..], ds[1..], sched, ends, out);
      assert out[..|spans|] == (out[..|spans| + 1])[..|spans|];
      assert out[|spans|] == sp;
      forall k | 0 <= k < |jobs|
        ensures PlacedAt(out, |spans| + k, jobs[k], ds[k], sched, ends)
      {
        if k == 0 {
          forall j | 0 <= j < |spans|
            ensures AreNotSpansIntersected(out[|spans|], out[j])
          {
            assert out[j] == spans[j];
          }
        } else {
          assert PlacedAt(out, |spans| + 1 + (k - 1), jobs[1..][k - 1], ds[1..][k - 1], sched, ends);
        }
      }
    }
  }

  /** The search's result keeps the input spans and adds one span per job,
      in order; each added span is its job shifted by a grid shift, keeps
      its length without wrapping, has both ends accepted by `check_time`
      and overlaps none of the spans before it. With no jobs the result is
      cost 0 and the input spans. */
  lemma SearchShape(spans: seq<Span>, jobs: seq<Job>, weights: seq<int>,
                    sched: Schedule, ends: seq<Time>, precision: int)
    requires precision != 0 && |weights| >= |jobs|
    ensures jobs == [] ==> Search(spans, jobs, weights, sched, ends, precision) == Some(Found(0, spans))
    ensures var r := Search(spans, jobs, weights, sched, ends, precision);
      r.Some? ==>
        |r.value.spans| == |spans| + |jobs| && r.value.spans[..|spans|] == spans &&
        exists ds :: OnGrid(ds, precision) && |ds| == |jobs| &&
          PlacedAll(r.value.spans, |spans|, jobs, ds, sched, ends)
  {
    var r := Search(spans, jobs, weights, sched, ends, precision);
    if r.Some? {
      SearchSound(spans, jobs, weights, sched, ends, precision);
      var ds :| Realizes(ds, r.value, spans, jobs, weights, sched, ends, precision);
      PlaceShape(spans, jobs, ds, sched, ends, r.value.spans);
    }
  }

  /** A successful search from no spans returns one span per job: each as
      long as its job, with both ends accepted by `check_time`, and no two
      of them overlapping. */
  lemma SearchPlacement(jobs: seq<Job>, weights: seq<int>, sched: Schedule, ends: seq<Time>, precision: int)
    requires precision != 0 && |weights| >= |jobs|
    requires Search([], jobs, weights, sched, ends, precision).Some?
    ensures var out := Search([], jobs, weights, sched, ends, precision).value.spans;
      |out| == |jobs| &&
      (forall i :: 0 <= i < |out| ==>
         out[i].end == out[i].start + jobs[i].length &&
         TimeAllowed(out[i].start, sched, ends) && TimeAllowed(out[i].end, sched, ends)) &&
      (forall i, j :: 0 <= i < |out| && 0 <= j < |out| && i != j ==> AreNotSpansIntersected(out[i], out[j]))
  {
    var out := Search([], jobs, weights, sched, ends, precision).value.spans;
    SearchShape([], jobs, weights, sched, ends, precision);
    var ds :| OnGrid(ds, precision) && |ds| == |jobs| && PlacedAll(out, 0, jobs, ds, sched, ends);
    PlacedFacts(out, jobs, ds, sched, ends);
  }

  lemma PlacedFacts(out: seq<Span>, jobs: seq<Job>, ds: seq<int>, sched: Schedule, ends: seq<Time>)
    requires |out| == |jobs| == |ds|
    requires PlacedAll(out, 0, jobs, ds, sched, ends)
    ensures forall i :: 0 <= i < |out| ==>
      out[i].end == out[i].start + jobs[i].length &&
      TimeAllowed(out[i].start, sched, ends) && TimeAllowed(out[i].end, sched, ends)
    ensures forall i, j :: 0 <= i < |out| && 0 <= j < |out| && i != j ==> AreNotSpansIntersected(out[i], out[j])
  {
    forall i | 0 <= i < |out|
      ensures out[i].end == out[i].start + jobs[i].length
      ensures TimeAllowed(out[i].start, sched, ends) && TimeAllowed(out[i].end, sched, ends)
    {
      assert PlacedAt(out, 0 + i, jobs[i], ds[i], sched, ends);
    }
    forall i, j | 0 <= i < |out| && 0 <= j < |out| && i != j
      ensures AreNotSpansIntersected(out[i], out[j])
    {
      if j < i {
        assert PlacedAt(out, 0 + i, jobs[i], ds[i], sched, ends);
      } else {
        assert PlacedAt(out, 0 + j, jobs[j], ds[j], sched, ends);
        DisjointIffNoCommonInstant(out[j], out[i]);
      }
    }
  }

  /** The `k`-th shift of `range(d, MAX_SECONDS, precision)` is `d` plus
      `k` steps. */
  lemma {:induction false} GridFromSteps(d: int, precision: int)
    requires precision > 0
    ensures var g := GridFrom(d, precision);
      forall k :: 0 <= k < |g| ==> g[k] == d + k * precision
    decreases MAX_SECONDS - d
  {
    if d < MAX_SECONDS {
      GridFromSteps(d + precision, precision);
      var g := GridFrom(d, precision);
      forall k | 1 <= k < |g|
        ensures g[k] == d + k * precision
      {
        assert g[k] == GridFrom(d + precision, precision)[k - 1];
        assert (k - 1) * precision + precision == k * precision;
      }
    }
  }

  /** The default grid starts at `-MAX_SECONDS + 1 = -86399`, which is not a
      multiple of 250, so it never holds the shift 0. */
  lemma GridSkipsZero()
    ensures 0 !in Grid(DEFAULT_PRECISION)
  {
    GridFromSteps(-MAX_SECONDS + 1, DEFAULT_PRECISION);
    var g := Grid(DEFAULT_PRECISION);
    assert g == GridFrom(-MAX_SECONDS + 1, DEFAULT_PRECISION);
    forall k | 0 <= k < |g|
      ensures g[k] != 0
    {
      assert g[k] == -86399 + k * 250;
      if k <= 345 {
        assert g[k] <= -86399 + 345 * 250;
      } else {
        assert g[k] >= -86399 + 346 * 250;
      }
    }
  }

  /** With the default step, a successful search never leaves a job at its
      booked start: every span it returns starts elsewhere. */
  lemma SearchMovesEveryStart(jobs: seq<Job>, weights: seq<int>, sched: Schedule, ends: seq<Time>)
    requires |weights| >= |jobs|
    requires Search([], jobs, weights, sched, ends, DEFAULT_PRECISION).Some?
    ensures var out := Search([], jobs, weights, sched, ends, DEFAULT_PRECISION).value.spans;
      |out| == |jobs| && forall i :: 0 <= i < |out| ==> out[i].start != jobs[i].pref
  {
    var out := Search([], jobs, weights, sched, ends, DEFAULT_PRECISION).value.spans;
    SearchShape([], jobs, weights, sched, ends, DEFAULT_PRECISION);
    var ds :| OnGrid(ds, DEFAULT_PRECISION) && |ds| == |jobs| && PlacedAll(out, 0, jobs, ds, sched, ends);
    GridSkipsZero();
    forall i | 0 <= i < |out|
      ensures out[i].start != jobs[i].pref
    {
      assert PlacedAt(out, 0 + i, jobs[i], ds[i], sched, ends);
      assert ds[i] in Grid(StepOf(i, DEFAULT_PRECISION));
    }
  }
}
