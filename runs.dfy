/** The two passes of `processRawData` over the marker-free rows of a
    complete journey (frontend/src/hooks/useCSVInterval.ts): the first
    counts the maximal runs of equal navigation status, the second builds an
    interval per run. */
module Runs {
  import opened Wrappers
  import opened Ports
  import opened Boundaries
  import opened Intervals

  /** `row.navStatus || "0.0"`: an empty status counts as docked. */
  function Status(row: RawDataRow): string {
    if row.navStatus == "" then DockedStatus else row.navStatus
  }

  /** Where the runs among the first `n` rows start: at row 0 and at every
      row whose status differs from the row before it. */
  function RunStartsUpTo(data: seq<RawDataRow>, n: nat): (starts: seq<nat>)
    requires 1 <= n <= |data|
    ensures |starts| >= 1 && starts[0] == 0
    ensures forall k :: 0 <= k < |starts| ==> starts[k] < n
  {
    if n == 1 then [0]
    else
      var prev := RunStartsUpTo(data, n - 1);
      if Status(data[n - 1]) != Status(data[n - 2]) then prev + [n - 1] else prev
  }

  function RunStarts(data: seq<RawDataRow>): seq<nat> {
    if data == [] then [] else RunStartsUpTo(data, |data|)
  }

  /** Where run `k` ends (exclusive): where the next one starts, or at the
      end of the rows. */
  function RunEnd(starts: seq<nat>, k: nat, len: nat): nat
    requires k < |starts|
  {
    if k + 1 < |starts| then starts[k + 1] else len
  }

  /** The starts are strictly increasing and lie within the rows. */
  predicate StartsOrdered(starts: seq<nat>, len: nat) {
    (forall k :: 0 <= k < |starts| ==> starts[k] < len)
    && forall k, m :: 0 <= k < m < |starts| ==> starts[k] < starts[m]
  }

  // ---------------------------------------------------------------------
  // The runs are the maximal runs of equal status
  // ---------------------------------------------------------------------

  /** The run starts are ordered, and a row other than the first starts a
      run exactly when its status differs from the row before it. */
  lemma {:induction false} RunStartsSpec(data: seq<RawDataRow>, n: nat)
    requires 1 <= n <= |data|
    ensures StartsOrdered(RunStartsUpTo(data, n), n)
    ensures forall j :: 0 < j < n ==> (j in RunStartsUpTo(data, n) <==> Status(data[j]) != Status(data[j - 1]))
  {
    if n > 1 {
      RunStartsSpec(data, n - 1);
    }
  }

  /** Earlier starts are a prefix of later ones. */
  lemma {:induction false} RunStartsPrefix(data: seq<RawDataRow>, i: nat, n: nat)
    requires 1 <= i <= n <= |data|
    ensures RunStartsUpTo(data, i) <= RunStartsUpTo(data, n)
    decreases n - i
  {
    if i < n {
      RunStartsPrefix(data, i, n - 1);
    }
  }

  /** Every row of a run has the status of the run's first row. */
  lemma {:induction false} RunUniform(data: seq<RawDataRow>, k: nat, j: nat)
    requires data != [] && k < |RunStarts(data)|
    requires RunStarts(data)[k] <= j < RunEnd(RunStarts(data), k, |data|)
    ensures Status(data[j]) == Status(data[RunStarts(data)[k]])
    decreases j
  {
    var starts := RunStarts(data);
    RunStartsSpec(data, |data|);
    if j > starts[k] {
      assert j !in starts;
      RunUniform(data, k, j - 1);
    }
  }

  /** Neighbouring runs differ in status. */
  lemma NeighbourRunsDiffer(data: seq<RawDataRow>, k: nat)
    requires data != [] && k + 1 < |RunStarts(data)|
    ensures Status(data[RunStarts(data)[k]]) != Status(data[RunStarts(data)[k + 1]])
  {
    var starts := RunStarts(data);
    RunStartsSpec(data, |data|);
    var s := starts[k + 1];
    assert starts[k] < s;
    assert s in starts;
    RunUniform(data, k, s - 1);
  }

  // ---------------------------------------------------------------------
  // Pass 1: counting the intervals
  // ---------------------------------------------------------------------

  /** The first pass: one interval, plus one per change of status. */
  method CountIntervals(journeyData: seq<RawDataRow>) returns (totalIntervalCount: nat)
    ensures totalIntervalCount == if journeyData == [] then 1 else |RunStarts(journeyData)|
  {
    var currentNavStatus := if journeyData == [] then DockedStatus else Status(journeyData[0]);
    totalIntervalCount := 1;
    if journeyData == [] {
      return;
    }
    for i := 1 to |journeyData|
      invariant currentNavStatus == Status(journeyData[i - 1])
      invariant totalIntervalCount == |RunStartsUpTo(journeyData, i)|
    {
      var newNavStatus := Status(journeyData[i]);
      if newNavStatus != currentNavStatus {
        totalIntervalCount := totalIntervalCount + 1;
        currentNavStatus := newNavStatus;
      }
    }
  }

  // ---------------------------------------------------------------------
  // Pass 2: building the intervals
  // ---------------------------------------------------------------------

  /** What every interval of one journey shares: the journey's number, the
      interval count of the first pass, the journey's ports, and the
      environment. */
  datatype JourneyContext = JourneyContext(
    journeyNumber: int,
    totalIntervals: int,
    startPort: string,
    endPort: string,
    analyze: (real, real) -> PortAnalysis,
    parseDate: string -> Option<int>)

  /** The variables of the second pass. A failure is the `TypeError` that
      ends the whole computation. */
  datatype Pass2 = Pass2(
    intervals: Result<seq<SimpleInterval>>,
    currentIntervalStart: nat,
    currentNavStatus: string,
    intervalCounter: nat,
    foundFirstNavStatus1: bool)

  /** `createSimpleInterval` for the rows from `start` to `end`, appended
      when it yields an interval. */
  function Emit(data: seq<RawDataRow>, intervals: seq<SimpleInterval>, start: nat, end: nat,
                counter: nat, isFirst: bool, ctx: JourneyContext): Result<seq<SimpleInterval>>
    requires start < end <= |data|
  {
    var created := CreateSimpleInterval(
      data[start..end], data[start].timestamp, data[start].date, counter, ctx.journeyNumber,
      |intervals|, ctx.totalIntervals, ctx.startPort, ctx.endPort, isFirst, ctx.analyze, ctx.parseDate);
    if created.Failure? then Failure(created.error)
    else if created.value.Some? then Success(intervals + [created.value.value])
    else Success(intervals)
  }

  /** What row `i` does in the second pass: a change of status closes the
      current run as an interval and opens a new one. */
  function Pass2Step(data: seq<RawDataRow>, st: Pass2, i: nat, ctx: JourneyContext): Pass2
    requires st.currentIntervalStart < i < |data|
  {
    if st.intervals.Failure? then st
    else
      var newNavStatus := Status(data[i]);
      if newNavStatus == st.currentNavStatus then st
      else
        var isFirst := st.currentNavStatus == ManeuveringStatus && !st.foundFirstNavStatus1;
        var counter := st.intervalCounter + 1;
        var emitted := Emit(data, st.intervals.value, st.currentIntervalStart, i, counter, isFirst, ctx);
        Pass2(emitted, i, newNavStatus, counter, st.foundFirstNavStatus1 || isFirst)
  }

  /** The second pass after the first `n` rows. */
  function Pass2UpTo(data: seq<RawDataRow>, n: nat, ctx: JourneyContext): (st: Pass2)
    requires 1 <= n <= |data|
    ensures st.currentIntervalStart < n
  {
    if n == 1 then Pass2(Success([]), 0, Status(data[0]), 0, false)
    else Pass2Step(data, Pass2UpTo(data, n - 1, ctx), n - 1, ctx)
  }

  /** Once the second pass has failed it stays failed, with the same error. */
  lemma {:induction false} Pass2FailureSticks(data: seq<RawDataRow>, i: nat, n: nat, ctx: JourneyContext)
    requires 1 <= i <= n <= |data| && Pass2UpTo(data, i, ctx).intervals.Failure?
    ensures Pass2UpTo(data, n, ctx).intervals == Pass2UpTo(data, i, ctx).intervals
    decreases n - i
  {
    if i < n {
      Pass2FailureSticks(data, i, n - 1, ctx);
    }
  }

  /** The intervals of a journey: the second pass and its last interval. */
  function JourneyIntervals(data: seq<RawDataRow>, ctx: JourneyContext): Result<seq<SimpleInterval>> {
    if data == [] then Success([])
    else
      var st := Pass2UpTo(data, |data|, ctx);
      if st.intervals.Failure? then st.intervals
      else
        var isFirst := st.currentNavStatus == ManeuveringStatus && !st.foundFirstNavStatus1;
        Emit(data, st.intervals.value, st.currentIntervalStart, |data|, st.intervalCounter + 1, isFirst, ctx)
  }

  // ---------------------------------------------------------------------
  // The intervals are the runs
  // ---------------------------------------------------------------------

  /** The rows from `s` to `e` (exclusive) are a run whose first or last
      row lacks a coordinate. */
  predicate Unlocated(data: seq<RawDataRow>, s: int, e: int) {
    0 <= s < e <= |data| && !(Located(data[s]) && Located(data[e - 1]))
  }

  /** Some row before row `s` has status `"1.0"`. */
  predicate ManeuveredBefore(data: seq<RawDataRow>, s: nat)
    requires s <= |data|
  {
    exists j {:trigger Status(data[j])} :: 0 <= j < s && Status(data[j]) == ManeuveringStatus
  }

  /** Row `s` has status `"1.0"` and no row before it does: the run it
      starts is the first manoeuvring run of the journey. */
  predicate FirstManeuvering(data: seq<RawDataRow>, s: nat)
    requires s < |data|
  {
    Status(data[s]) == ManeuveringStatus && !ManeuveredBefore(data, s)
  }

  /** Every row from `s` to `e` (exclusive) has status `status`. */
  predicate Uniform(data: seq<RawDataRow>, s: nat, e: nat, status: string)
    requires s <= e <= |data|
  {
    forall j {:trigger Status(data[j])} :: s <= j < e ==> Status(data[j]) == status
  }

  /** `iv` is the `k`-th interval of the journey, built from the located
      rows from `s` to `e` (exclusive) with `first` as the "first `1.0`
      run" flag: its ends are measured against the ports and it is
      labelled by `classifyIntervalType` with index `k` and the count of
      the first pass. */
  predicate IntervalBuilt(data: seq<RawDataRow>, iv: SimpleInterval, k: nat, s: nat, e: nat, ctx: JourneyContext, first: bool)
    requires s < e <= |data|
  {
    iv.intervalNumber == k + 1 && iv.journeyIndex == ctx.journeyNumber
    && iv.sampleCount == e - s && iv.coordinatePoints == Points(data[s..e])
    && iv.startTime == data[s].timestamp && iv.startDate == data[s].date
    && iv.navStatus == data[s].navStatus
    && iv.startLat == data[s].latitude && iv.startLon == data[s].longitude
    && iv.endLat == data[e - 1].latitude && iv.endLon == data[e - 1].longitude
    && Located(data[s]) && Located(data[e - 1])
    && iv.startPortDistances == ctx.analyze(data[s].latitude.value, data[s].longitude.value)
    && iv.endPortDistances == ctx.analyze(data[e - 1].latitude.value, data[e - 1].longitude.value)
    && iv.classificationType == ClassifyIntervalType(data[s].navStatus, iv.startPortDistances, iv.endPortDistances,
         k, ctx.totalIntervals, ctx.startPort, ctx.endPort, first)
  }

  /** `iv` is the `k`-th interval of the journey, built from the run of
      rows from `s` to `e` (exclusive); the flag is set exactly for the
      first run with status `"1.0"`. */
  predicate IntervalOfRun(data: seq<RawDataRow>, iv: SimpleInterval, k: nat, s: nat, e: nat, ctx: JourneyContext)
    requires s < e <= |data|
  {
    IntervalBuilt(data, iv, k, s, e, ctx, FirstManeuvering(data, s))
  }

  /** Interval `k` of `ivs` is built from the rows between `bounds[k]` and
      `bounds[k + 1]`. */
  predicate RunsCovered(data: seq<RawDataRow>, bounds: seq<nat>, ivs: seq<SimpleInterval>, ctx: JourneyContext) {
    |bounds| == |ivs| + 1 && forall k :: 0 <= k < |ivs| ==> RunCovered(data, bounds, ivs, k, ctx)
  }

  predicate RunCovered(data: seq<RawDataRow>, bounds: seq<nat>, ivs: seq<SimpleInterval>, k: nat, ctx: JourneyContext)
    requires k < |ivs| && |bounds| == |ivs| + 1
  {
    bounds[k] < bounds[k + 1] <= |data| && IntervalOfRun(data, ivs[k], k, bounds[k], bounds[k + 1], ctx)
  }

  /** `r` fails with the `TypeError` exactly when an end of the run from
      `start` to `end` lacks a coordinate, and otherwise appends that run's
      interval, built with flag `first`, to `intervals`. */
  predicate Emitted(data: seq<RawDataRow>, intervals: seq<SimpleInterval>, start: nat, end: nat,
                    r: Result<seq<SimpleInterval>>, first: bool, ctx: JourneyContext)
    requires start < end <= |data|
  {
    (r.Failure? <==> Unlocated(data, start, end))
    && (r.Failure? ==> r.error == TypeErrorMessage)
    && (r.Success? ==> |r.value| == |intervals| + 1 && r.value[..|intervals|] == intervals
                       && IntervalBuilt(data, r.value[|intervals|], |intervals|, start, end, ctx, first))
  }

  /** Emitting a run fails with the `TypeError` exactly when an end of the
      run lacks a coordinate, and otherwise appends that run's interval. */
  lemma EmitSpec(data: seq<RawDataRow>, intervals: seq<SimpleInterval>, start: nat, end: nat,
                 counter: nat, isFirst: bool, ctx: JourneyContext)
    requires start < end <= |data| && counter == |intervals| + 1
    ensures Emitted(data, intervals, start, end, Emit(data, intervals, start, end, counter, isFirst, ctx), isFirst, ctx)
  {
    var points := data[start..end];
    CreateSimpleIntervalSpec(
      points, data[start].timestamp, data[start].date, counter, ctx.journeyNumber,
      |intervals|, ctx.totalIntervals, ctx.startPort, ctx.endPort, isFirst, ctx.analyze, ctx.parseDate);
    assert points[0] == data[start] && points[|points| - 1] == data[end - 1];
  }

  /** The second pass after `n` rows, against the runs started so far: the
      pass has failed exactly when a closed run lacks a coordinate at one of
      its ends; until then the current run is the last run started, and each
      closed run has its interval, in order. */
  predicate Pass2Inv(data: seq<RawDataRow>, n: nat, st: Pass2, starts: seq<nat>, ctx: JourneyContext) {
    1 <= n <= |data| && |starts| >= 1
    && (st.intervals.Failure? <==> exists k :: 0 <= k < |starts| - 1 && Unlocated(data, starts[k], starts[k + 1]))
    && (st.intervals.Failure? ==> st.intervals.error == TypeErrorMessage)
    && (st.intervals.Success? ==>
          st.currentIntervalStart == starts[|starts| - 1] && st.currentNavStatus == Status(data[n - 1])
          && st.intervalCounter == |starts| - 1 && RunsCovered(data, starts, st.intervals.value, ctx)
          && st.currentIntervalStart < n && Uniform(data, st.currentIntervalStart, n, st.currentNavStatus)
          && (st.foundFirstNavStatus1 <==> ManeuveredBefore(data, st.currentIntervalStart)))
  }

  /** A `"1.0"` row before the end of a uniform stretch is one before the
      stretch or, when the stretch is `"1.0"`, in it. */
  lemma ManeuveredExtend(data: seq<RawDataRow>, s: nat, e: nat, status: string)
    requires s < e <= |data| && Uniform(data, s, e, status)
    ensures ManeuveredBefore(data, e) <==> ManeuveredBefore(data, s) || status == ManeuveringStatus
  {
    if status == ManeuveringStatus {
      assert Status(data[s]) == ManeuveringStatus;
    }
    if ManeuveredBefore(data, e) {
      var j :| 0 <= j < e && Status(data[j]) == ManeuveringStatus;
      if j >= s {
        assert Status(data[j]) == status;
      }
    }
  }

  /** The flag handed to the current run is set exactly when the run is
      the first manoeuvring run. */
  lemma CurrentRunFlag(data: seq<RawDataRow>, n: nat, st: Pass2, starts: seq<nat>, ctx: JourneyContext)
    requires Pass2Inv(data, n, st, starts, ctx) && st.intervals.Success?
    ensures (st.currentNavStatus == ManeuveringStatus && !st.foundFirstNavStatus1) == FirstManeuvering(data, st.currentIntervalStart)
  {
    assert Status(data[st.currentIntervalStart]) == st.currentNavStatus;
  }

  /** A failed pass stays failed, whether or not row `n - 1` starts a run. */
  lemma Pass2FailedStep(data: seq<RawDataRow>, n: nat, st: Pass2, prev: seq<nat>, starts: seq<nat>, ctx: JourneyContext)
    requires 2 <= n && Pass2Inv(data, n - 1, st, prev, ctx) && st.intervals.Failure?
    requires st.currentIntervalStart < n - 1 && n <= |data|
    requires starts == prev || starts == prev + [n - 1]
    ensures Pass2Inv(data, n, Pass2Step(data, st, n - 1, ctx), starts, ctx)
  {
    var k :| 0 <= k < |prev| - 1 && Unlocated(data, prev[k], prev[k + 1]);
    assert starts[k] == prev[k] && starts[k + 1] == prev[k + 1];
  }

  /** A row with the current status extends the current run. */
  lemma Pass2SameStep(data: seq<RawDataRow>, n: nat, st: Pass2, starts: seq<nat>, ctx: JourneyContext)
    requires 2 <= n <= |data| && Pass2Inv(data, n - 1, st, starts, ctx) && st.intervals.Success?
    requires st.currentIntervalStart < n - 1 && Status(data[n - 1]) == Status(data[n - 2])
    ensures Pass2Inv(data, n, Pass2Step(data, st, n - 1, ctx), starts, ctx)
  {
    assert Pass2Step(data, st, n - 1, ctx) == st;
    assert Uniform(data, st.currentIntervalStart, n, st.currentNavStatus);
  }

  /** Closing the current run with its flag: the flag handed on records
      exactly whether a `"1.0"` row came before row `n - 1`. */
  lemma Pass2CloseFlag(data: seq<RawDataRow>, n: nat, st: Pass2, prev: seq<nat>, first: bool, ctx: JourneyContext)
    requires 2 <= n <= |data| && Pass2Inv(data, n - 1, st, prev, ctx) && st.intervals.Success?
    requires first == FirstManeuvering(data, st.currentIntervalStart)
    ensures (st.foundFirstNavStatus1 || first) <==> ManeuveredBefore(data, n - 1)
  {
    assert Status(data[st.currentIntervalStart]) == st.currentNavStatus;
    ManeuveredExtend(data, st.currentIntervalStart, n - 1, st.currentNavStatus);
  }

  /** The new state after closing, for any `emitted` that behaves as
      emitting the current run does. */
  lemma Pass2CloseStep(data: seq<RawDataRow>, n: nat, st: Pass2, prev: seq<nat>, emitted: Result<seq<SimpleInterval>>,
                       found: bool, first: bool, ctx: JourneyContext)
    requires 2 <= n <= |data| && Pass2Inv(data, n - 1, st, prev, ctx) && st.intervals.Success?
    requires st.currentIntervalStart < n - 1
    requires first == FirstManeuvering(data, st.currentIntervalStart)
    requires found <==> ManeuveredBefore(data, n - 1)
    requires Emitted(data, st.intervals.value, st.currentIntervalStart, n - 1, emitted, first, ctx)
    ensures Pass2Inv(data, n, Pass2(emitted, n - 1, Status(data[n - 1]), st.intervalCounter + 1, found), prev + [n - 1], ctx)
  {
    var ivs := st.intervals.value;
    if emitted.Success? {
      var ivs' := emitted.value;
      assert ivs' == ivs + [ivs'[|ivs|]];
      assert IntervalOfRun(data, ivs'[|ivs|], |ivs|, st.currentIntervalStart, n - 1, ctx);
      Pass2CloseOk(data, n, prev, ivs, ivs'[|ivs|], found, ctx);
    } else {
      var starts := prev + [n - 1];
      assert Unlocated(data, starts[|prev| - 1], starts[|prev|]);
    }
  }

  /** Closing a run whose ends are located appends its interval and starts
      a one-row run at `n - 1`. */
  lemma Pass2CloseOk(data: seq<RawDataRow>, n: nat, prev: seq<nat>, ivs: seq<SimpleInterval>, iv: SimpleInterval,
                     found: bool, ctx: JourneyContext)
    requires 2 <= n <= |data| && |prev| >= 1 && prev[|prev| - 1] < n - 1
    requires forall k :: 0 <= k < |prev| - 1 ==> !Unlocated(data, prev[k], prev[k + 1])
    requires !Unlocated(data, prev[|prev| - 1], n - 1)
    requires RunsCovered(data, prev, ivs, ctx) && IntervalOfRun(data, iv, |ivs|, prev[|prev| - 1], n - 1, ctx)
    requires found <==> ManeuveredBefore(data, n - 1)
    ensures Pass2Inv(data, n, Pass2(Success(ivs + [iv]), n - 1, Status(data[n - 1]), |prev|, found), prev + [n - 1], ctx)
  {
    var starts := prev + [n - 1];
    CoveredSnoc(data, prev, ivs, iv, n - 1, ctx);
    forall k | 0 <= k < |starts| - 1
      ensures !Unlocated(data, starts[k], starts[k + 1])
    {
      if k < |prev| - 1 {
        assert starts[k] == prev[k] && starts[k + 1] == prev[k + 1];
      }
    }
    assert Uniform(data, n - 1, n, Status(data[n - 1]));
  }

  /** Appending the interval of the run from the last start to `e`. */
  lemma CoveredSnoc(data: seq<RawDataRow>, bounds: seq<nat>, ivs: seq<SimpleInterval>, iv: SimpleInterval, e: nat, ctx: JourneyContext)
    requires RunsCovered(data, bounds, ivs, ctx) && bounds[|bounds| - 1] < e <= |data|
    requires IntervalOfRun(data, iv, |ivs|, bounds[|bounds| - 1], e, ctx)
    ensures RunsCovered(data, bounds + [e], ivs + [iv], ctx)
  {
    var bounds', ivs' := bounds + [e], ivs + [iv];
    forall k | 0 <= k < |ivs'|
      ensures RunCovered(data, bounds', ivs', k, ctx)
    {
      if k < |ivs| {
        assert ivs'[k] == ivs[k];
        assert RunCovered(data, bounds, ivs, k, ctx);
      }
    }
  }

  /** The second pass keeps `Pass2Inv` against the run starts. */
  lemma {:induction false} Pass2Runs(data: seq<RawDataRow>, n: nat, ctx: JourneyContext)
    requires 1 <= n <= |data|
    ensures Pass2Inv(data, n, Pass2UpTo(data, n, ctx), RunStartsUpTo(data, n), ctx)
  {
    if n > 1 {
      Pass2Runs(data, n - 1, ctx);
      var prev, st := RunStartsUpTo(data, n - 1), Pass2UpTo(data, n - 1, ctx);
      if st.intervals.Failure? {
        Pass2FailedStep(data, n, st, prev, RunStartsUpTo(data, n), ctx);
      } else if Status(data[n - 1]) == Status(data[n - 2]) {
        Pass2SameStep(data, n, st, prev, ctx);
      } else {
        Pass2StatusChange(data, n, st, prev, ctx);
      }
    }
  }

  /** A row whose status differs from the row before closes the open run. */
  lemma Pass2StatusChange(data: seq<RawDataRow>, n: nat, st: Pass2, prev: seq<nat>, ctx: JourneyContext)
    requires 2 <= n <= |data| && Pass2Inv(data, n - 1, st, prev, ctx) && st.intervals.Success?
    requires st.currentIntervalStart < n - 1 && Status(data[n - 1]) != Status(data[n - 2])
    ensures Pass2Inv(data, n, Pass2Step(data, st, n - 1, ctx), prev + [n - 1], ctx)
  {
    var isFirst := st.currentNavStatus == ManeuveringStatus && !st.foundFirstNavStatus1;
    Pass2StepCloses(data, st, n - 1, ctx);
    var emitted :| Pass2Step(data, st, n - 1, ctx) == Pass2(emitted, n - 1, Status(data[n - 1]), st.intervalCounter + 1, st.foundFirstNavStatus1 || isFirst)
                   && Emitted(data, st.intervals.value, st.currentIntervalStart, n - 1, emitted, isFirst, ctx);
    CurrentRunFlag(data, n - 1, st, prev, ctx);
    Pass2CloseFlag(data, n, st, prev, isFirst, ctx);
    Pass2CloseStep(data, n, st, prev, emitted, st.foundFirstNavStatus1 || isFirst, isFirst, ctx);
  }

  /** A change of status at row `i` emits the current run, with the flag
      set for a `"1.0"` run while none has been seen. */
  lemma Pass2StepCloses(data: seq<RawDataRow>, st: Pass2, i: nat, ctx: JourneyContext)
    requires st.currentIntervalStart < i < |data| && st.intervals.Success?
    requires Status(data[i]) != st.currentNavStatus && st.intervalCounter == |st.intervals.value|
    ensures var isFirst := st.currentNavStatus == ManeuveringStatus && !st.foundFirstNavStatus1;
      exists emitted :: Pass2Step(data, st, i, ctx) == Pass2(emitted, i, Status(data[i]), st.intervalCounter + 1, st.foundFirstNavStatus1 || isFirst)
                        && Emitted(data, st.intervals.value, st.currentIntervalStart, i, emitted, isFirst, ctx)
  {
    var isFirst := st.currentNavStatus == ManeuveringStatus && !st.foundFirstNavStatus1;
    EmitSpec(data, st.intervals.value, st.currentIntervalStart, i, st.intervalCounter + 1, isFirst, ctx);
  }

  /** The last run closes the second pass: `emitted` is what emitting it
      gives. */
  lemma Pass2Finish(data: seq<RawDataRow>, st: Pass2, starts: seq<nat>, emitted: Result<seq<SimpleInterval>>,
                    first: bool, ctx: JourneyContext)
    requires Pass2Inv(data, |data|, st, starts, ctx) && st.intervals.Success?
    requires st.currentIntervalStart < |data| && first == FirstManeuvering(data, st.currentIntervalStart)
    requires Emitted(data, st.intervals.value, st.currentIntervalStart, |data|, emitted, first, ctx)
    ensures var bounds := starts + [|data|];
      (emitted.Failure? <==> exists k :: 0 <= k < |starts| && Unlocated(data, bounds[k], bounds[k + 1]))
      && (emitted.Failure? ==> emitted.error == TypeErrorMessage)
      && (emitted.Success? ==> |emitted.value| == |starts| && RunsCovered(data, bounds, emitted.value, ctx))
  {
    var ivs, bounds := st.intervals.value, starts + [|data|];
    forall k | 0 <= k < |starts| - 1
      ensures !Unlocated(data, bounds[k], bounds[k + 1])
    {
      assert bounds[k] == starts[k] && bounds[k + 1] == starts[k + 1];
    }
    assert bounds[|starts| - 1] == st.currentIntervalStart && bounds[|starts|] == |data|;
    if emitted.Success? {
      var ivs' := emitted.value;
      assert ivs' == ivs + [ivs'[|ivs|]];
      assert IntervalOfRun(data, ivs'[|ivs|], |ivs|, st.currentIntervalStart, |data|, ctx);
      CoveredSnoc(data, starts, ivs, ivs'[|ivs|], |data|, ctx);
    }
  }

  /** The intervals of a non-empty journey fail with the `TypeError`
      exactly when some run lacks a coordinate at one of its ends; otherwise
      there is one interval per run, in order, the `k`-th built from the
      rows of the `k`-th run. */
  lemma JourneyIntervalsSpec(data: seq<RawDataRow>, ctx: JourneyContext)
    requires data != []
    ensures var r, starts := JourneyIntervals(data, ctx), RunStarts(data);
      var bounds := starts + [|data|];
      (r.Failure? <==> exists k :: 0 <= k < |starts| && Unlocated(data, bounds[k], bounds[k + 1]))
      && (r.Failure? ==> r.error == TypeErrorMessage)
      && (r.Success? ==> |r.value| == |starts| && RunsCovered(data, bounds, r.value, ctx))
  {
    if Pass2UpTo(data, |data|, ctx).intervals.Failure? {
      SecondPassFailed(data, ctx);
    } else {
      SecondPassDone(data, ctx);
    }
  }

  /** A second pass that stopped on a run without a coordinate. */
  lemma SecondPassFailed(data: seq<RawDataRow>, ctx: JourneyContext)
    requires data != [] && Pass2UpTo(data, |data|, ctx).intervals.Failure?
    ensures var starts := RunStarts(data);
      var bounds := starts + [|data|];
      JourneyIntervals(data, ctx) == Failure(TypeErrorMessage)
      && exists k :: 0 <= k < |starts| && Unlocated(data, bounds[k], bounds[k + 1])
  {
    var starts := RunStarts(data);
    var bounds := starts + [|data|];
    Pass2Runs(data, |data|, ctx);
    var k :| 0 <= k < |starts| - 1 && Unlocated(data, starts[k], starts[k + 1]);
    assert bounds[k] == starts[k] && bounds[k + 1] == starts[k + 1];
  }

  /** A second pass that got through every row: the last run is emitted. */
  lemma SecondPassDone(data: seq<RawDataRow>, ctx: JourneyContext)
    requires data != [] && Pass2UpTo(data, |data|, ctx).intervals.Success?
    ensures var r, starts := JourneyIntervals(data, ctx), RunStarts(data);
      var bounds := starts + [|data|];
      (r.Failure? <==> exists k :: 0 <= k < |starts| && Unlocated(data, bounds[k], bounds[k + 1]))
      && (r.Failure? ==> r.error == TypeErrorMessage)
      && (r.Success? ==> |r.value| == |starts| && RunsCovered(data, bounds, r.value, ctx))
  {
    var starts, st := RunStarts(data), Pass2UpTo(data, |data|, ctx);
    Pass2Runs(data, |data|, ctx);
    var isFirst := st.currentNavStatus == ManeuveringStatus && !st.foundFirstNavStatus1;
    EmitSpec(data, st.intervals.value, st.currentIntervalStart, |data|, st.intervalCounter + 1, isFirst, ctx);
    var emitted := Emit(data, st.intervals.value, st.currentIntervalStart, |data|, st.intervalCounter + 1, isFirst, ctx);
    CurrentRunFlag(data, |data|, st, starts, ctx);
    Pass2Finish(data, st, starts, emitted, isFirst, ctx);
  }

  /** The intervals of a non-empty journey, when they are built, run from
      its first row to its last: the first starts at the first row, with its
      status, and the last ends at the last row. A first row docked in a
      port zone labels the first interval as docked at the start port. */
  lemma JourneyEnds(data: seq<RawDataRow>, ctx: JourneyContext)
    requires data != [] && JourneyIntervals(data, ctx).Success?
    ensures var ivs := JourneyIntervals(data, ctx).value;
      |ivs| >= 1
      && ivs[0].navStatus == data[0].navStatus && ivs[0].startTime == data[0].timestamp
      && ivs[|ivs| - 1].endLat == data[|data| - 1].latitude && ivs[|ivs| - 1].endLon == data[|data| - 1].longitude
      && (data[0].navStatus == DockedStatus && data[0].latitude.Some? && data[0].longitude.Some?
          && InPort(ctx.analyze(data[0].latitude.value, data[0].longitude.value))
          ==> ivs[0].classificationType == "Atracado en " + ctx.startPort)
  {
    JourneyIntervalsSpec(data, ctx);
    var ivs := JourneyIntervals(data, ctx).value;
    var bounds := RunStarts(data) + [|data|];
    assert RunCovered(data, bounds, ivs, 0, ctx);
    ClassifyDocked(ivs[0].startPortDistances, ivs[0].endPortDistances, 0, ctx.totalIntervals, ctx.startPort, ctx.endPort,
                   FirstManeuvering(data, 0));
    assert bounds[|ivs|] == |data|;
    assert RunCovered(data, bounds, ivs, |ivs| - 1, ctx);
  }

  /** Neighbouring intervals of a journey differ in status, an empty
      status counting as docked. */
  lemma NeighbourIntervalsDiffer(data: seq<RawDataRow>, ctx: JourneyContext, k: nat)
    requires data != [] && JourneyIntervals(data, ctx).Success?
    requires k + 1 < |JourneyIntervals(data, ctx).value|
    ensures var ivs := JourneyIntervals(data, ctx).value;
      (if ivs[k].navStatus == "" then DockedStatus else ivs[k].navStatus)
      != (if ivs[k + 1].navStatus == "" then DockedStatus else ivs[k + 1].navStatus)
  {
    JourneyIntervalsSpec(data, ctx);
    var ivs := JourneyIntervals(data, ctx).value;
    var bounds := RunStarts(data) + [|data|];
    assert RunCovered(data, bounds, ivs, k, ctx);
    assert RunCovered(data, bounds, ivs, k + 1, ctx);
    NeighbourRunsDiffer(data, k);
  }

  /** The coordinate points of a sequence of intervals, one after the other. */
  function AllPoints(ivs: seq<SimpleInterval>): seq<CoordinatePoint> {
    if ivs == [] then [] else AllPoints(ivs[..|ivs| - 1]) + ivs[|ivs| - 1].coordinatePoints
  }

  lemma PointsAppend(a: seq<RawDataRow>, b: seq<RawDataRow>)
    ensures Points(a + b) == Points(a) + Points(b)
  {
  }

  /** The first `m` covered intervals hold, in order, the points of the
      rows from `bounds[0]` to `bounds[m]`. */
  lemma {:induction false} CoveredPoints(data: seq<RawDataRow>, bounds: seq<nat>, ivs: seq<SimpleInterval>, m: nat, ctx: JourneyContext)
    requires RunsCovered(data, bounds, ivs, ctx) && m <= |ivs| && bounds[0] <= |data|
    ensures bounds[0] <= bounds[m] <= |data| && AllPoints(ivs[..m]) == Points(data[bounds[0]..bounds[m]])
  {
    if m == 0 {
      assert ivs[..0] == [];
    } else {
      CoveredPoints(data, bounds, ivs, m - 1, ctx);
      assert RunCovered(data, bounds, ivs, m - 1, ctx);
      assert ivs[..m][..m - 1] == ivs[..m - 1];
      assert data[bounds[0]..bounds[m]] == data[bounds[0]..bounds[m - 1]] + data[bounds[m - 1]..bounds[m]];
      PointsAppend(data[bounds[0]..bounds[m - 1]], data[bounds[m - 1]..bounds[m]]);
    }
  }

  /** No row of a journey is lost or repeated: the intervals of a journey,
      one after the other, hold exactly the points of its rows. */
  lemma IntervalsCoverJourney(data: seq<RawDataRow>, ctx: JourneyContext)
    requires JourneyIntervals(data, ctx).Success?
    ensures AllPoints(JourneyIntervals(data, ctx).value) == Points(data)
  {
    var ivs := JourneyIntervals(data, ctx).value;
    if data != [] {
      JourneyIntervalsSpec(data, ctx);
      var bounds := RunStarts(data) + [|data|];
      CoveredPoints(data, bounds, ivs, |ivs|, ctx);
      assert ivs[..|ivs|] == ivs && data[0..|data|] == data;
    }
  }

  /** `createSimpleInterval` for one run, and the push of its interval when
      it yields one. */
  method PushInterval(journeyData: seq<RawDataRow>, intervals: seq<SimpleInterval>, currentIntervalStart: nat, end: nat,
                      intervalCounter: nat, isFirstNavStatus1: bool, ctx: JourneyContext) returns (result: Result<seq<SimpleInterval>>)
    requires currentIntervalStart < end <= |journeyData|
    ensures result == Emit(journeyData, intervals, currentIntervalStart, end, intervalCounter, isFirstNavStatus1, ctx)
  {
    var intervalData := journeyData[currentIntervalStart..end];
    var interval := CreateSimpleInterval(
      intervalData, journeyData[currentIntervalStart].timestamp, journeyData[currentIntervalStart].date,
      intervalCounter, ctx.journeyNumber, |intervals|, ctx.totalIntervals, ctx.startPort, ctx.endPort,
      isFirstNavStatus1, ctx.analyze, ctx.parseDate);
    if interval.Failure? {
      return Failure(interval.error);
    }
    result := Success(if interval.value.Some? then intervals + [interval.value.value] else intervals);
  }

  /** A change of status at row `i`: the current run becomes an interval
      and row `i` opens the next run. */
  method CloseRun(journeyData: seq<RawDataRow>, intervals: seq<SimpleInterval>, currentIntervalStart: nat,
                  currentNavStatus: string, intervalCounter: nat, foundFirstNavStatus1: bool, i: nat, ctx: JourneyContext)
    returns (pushed: Result<seq<SimpleInterval>>, counter: nat, found: bool)
    requires currentIntervalStart < i < |journeyData| && Status(journeyData[i]) != currentNavStatus
    ensures Pass2Step(journeyData, Pass2(Success(intervals), currentIntervalStart, currentNavStatus, intervalCounter, foundFirstNavStatus1), i, ctx)
      == Pass2(pushed, i, Status(journeyData[i]), counter, found)
  {
    counter := intervalCounter + 1;
    var isFirstNavStatus1 := currentNavStatus == "1.0" && !foundFirstNavStatus1;
    found := foundFirstNavStatus1;
    if isFirstNavStatus1 {
      found := true;
    }
    pushed := PushInterval(journeyData, intervals, currentIntervalStart, i, counter, isFirstNavStatus1, ctx);
  }

  /** The second pass and the last interval, as `processRawData` runs them. */
  method BuildIntervals(journeyData: seq<RawDataRow>, ctx: JourneyContext) returns (result: Result<seq<SimpleInterval>>)
    ensures result == JourneyIntervals(journeyData, ctx)
  {
    if journeyData == [] {
      return Success([]);
    }
    var intervals: seq<SimpleInterval> := [];
    var currentIntervalStart: nat := 0;
    var currentNavStatus := Status(journeyData[0]);
    var intervalCounter: nat := 0;
    var foundFirstNavStatus1 := false;
    for i := 1 to |journeyData|
      invariant Pass2UpTo(journeyData, i, ctx)
        == Pass2(Success(intervals), currentIntervalStart, currentNavStatus, intervalCounter, foundFirstNavStatus1)
    {
      var newNavStatus := Status(journeyData[i]);
      if newNavStatus != currentNavStatus {
        var pushed;
        pushed, intervalCounter, foundFirstNavStatus1 := CloseRun(journeyData, intervals, currentIntervalStart,
          currentNavStatus, intervalCounter, foundFirstNavStatus1, i, ctx);
        if pushed.Failure? {
          Pass2FailureSticks(journeyData, i + 1, |journeyData|, ctx);
          return pushed;
        }
        intervals := pushed.value;
        currentIntervalStart := i;
        currentNavStatus := newNavStatus;
      }
    }
    intervalCounter := intervalCounter + 1;
    var isFirstNavStatus1 := currentNavStatus == "1.0" && !foundFirstNavStatus1;
    result := PushInterval(journeyData, intervals, currentIntervalStart, |journeyData|, intervalCounter, isFirstNavStatus1, ctx);
  }
}
