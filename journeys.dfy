/** `processRawData` (frontend/src/hooks/useCSVInterval.ts): the rows are
    cut into journeys between dock rows at different ports, each journey's
    gaps are collected, each complete journey without gaps is cut into
    intervals, and a summary is drawn up. */
module Journeys {
  import opened Wrappers
  import opened Durations
  import opened Ports
  import opened Boundaries
  import opened GapDetection
  import opened Intervals
  import opened Runs

  const NoDataError := "No hay datos para procesar"

  /** A journey's `metadata`; `incompleteStart` and `incompleteEnd` are
      its `incompleteness`. */
  datatype Metadata = Metadata(
    startPort: string,
    endPort: string,
    startDate: string,
    endDate: string,
    startTime: string,
    endTime: string,
    totalDuration: string,
    isIncomplete: bool,
    incompleteStart: bool,
    incompleteEnd: bool,
    intervalCount: nat,
    classificationTypes: seq<string>)

  datatype Journey = Journey(journeyIndex: int, intervals: seq<SimpleInterval>, metadata: Metadata)

  datatype Summary = Summary(
    totalIntervals: nat,
    totalRows: nat,
    filesProcessed: nat,
    totalJourneys: nat,
    incompleteJourneys: nat,
    totalGaps: nat)

  /** The `data` of a successful `CSVIntervalResult`. */
  datatype ResultData = ResultData(journeys: seq<Journey>, gaps: seq<GapInterval>, summary: Summary)

  // ---------------------------------------------------------------------
  // Helpers of the journey loop
  // ---------------------------------------------------------------------

  /** `rows.slice(s, e)` for a non-negative `s`: `e` is clamped to the
      length, and an empty range gives no rows. */
  function Slice(rows: seq<RawDataRow>, s: nat, e: int): seq<RawDataRow> {
    var e' := if e < |rows| then e else |rows|;
    if s < e' then rows[s..e'] else []
  }

  /** `[...new Set(xs)]`: each text once, in the order of its first
      occurrence. */
  function Distinct(xs: seq<string>): seq<string> {
    if xs == [] then []
    else
      var r := Distinct(xs[..|xs| - 1]);
      if xs[|xs| - 1] in r then r else r + [xs[|xs| - 1]]
  }

  /** `Distinct` keeps every text of `xs` and no other, and none twice. */
  lemma {:induction false} DistinctSpec(xs: seq<string>)
    ensures forall x :: x in Distinct(xs) <==> x in xs
    ensures forall i, j :: 0 <= i < j < |Distinct(xs)| ==> Distinct(xs)[i] != Distinct(xs)[j]
  {
    if xs != [] {
      DistinctSpec(xs[..|xs| - 1]);
      assert xs == xs[..|xs| - 1] + [xs[|xs| - 1]];
    }
  }

  /** `intervals.map(i => i.classificationType)`. */
  function Types(intervals: seq<SimpleInterval>): (ts: seq<string>)
    ensures |ts| == |intervals| && forall k {:trigger ts[k]} :: 0 <= k < |ts| ==> ts[k] == intervals[k].classificationType
  {
    seq(|intervals|, k requires 0 <= k < |intervals| => intervals[k].classificationType)
  }

  /** `{...gap, beforeJourneyIndex: n, afterJourneyIndex: n}` for each gap. */
  function Labelled(gaps: seq<GapInterval>, journeyNumber: int): (r: seq<GapInterval>)
    ensures |r| == |gaps|
    ensures forall k {:trigger r[k]} :: 0 <= k < |r| ==>
      r[k] == gaps[k].(beforeJourneyIndex := journeyNumber, afterJourneyIndex := journeyNumber)
  {
    seq(|gaps|, k requires 0 <= k < |gaps| => gaps[k].(beforeJourneyIndex := journeyNumber, afterJourneyIndex := journeyNumber))
  }

  /** The rows of a journey: from its start row to its end row. */
  function JourneyRows(raw: seq<RawDataRow>, b: Boundary): seq<RawDataRow> {
    Slice(raw, b.startIndex, b.endIndex + 1)
  }

  /** A journey's metadata: its ports, the dates and times of its first and
      last real rows (empty texts when there is none), the time between
      them, and the labels of its intervals. */
  function MetadataOf(b: Boundary, data: seq<RawDataRow>, incomplete: bool, intervals: seq<SimpleInterval>,
                      parseDate: string -> Option<int>): Metadata
  {
    var startTime := if data == [] then "" else data[0].timestamp;
    var endTime := if data == [] then "" else data[|data| - 1].timestamp;
    Metadata(
      b.startPort, b.endPort,
      if data == [] then "" else data[0].date,
      if data == [] then "" else data[|data| - 1].date,
      startTime, endTime, CalculateTimeDifference(startTime, endTime, parseDate),
      incomplete, false, incomplete, |intervals|, Distinct(Types(intervals)))
  }

  /** What one journey contributes: the journey, or the `TypeError` that
      aborts everything, and its gaps. */
  datatype Outcome = Outcome(journey: Result<Journey>, gaps: seq<GapInterval>)

  /** The journey with boundary `b`, the `j`-th (from 0). A journey that
      did not reach another port, or that has a gap, keeps no intervals. */
  function JourneyOf(raw: seq<RawDataRow>, b: Boundary, j: nat,
                     analyze: (real, real) -> PortAnalysis, parseDate: string -> Option<int>): Outcome
  {
    var rows := JourneyRows(raw, b);
    var found := JourneyGaps(rows);
    var data := RealRows(rows);
    var gaps := Labelled(found, j + 1);
    if !b.isComplete || |found| > 0 then
      Outcome(Success(Journey(j + 1, [], MetadataOf(b, data, true, [], parseDate))), gaps)
    else
      var ctx := JourneyContext(j + 1, if data == [] then 1 else |RunStarts(data)|, b.startPort, b.endPort, analyze, parseDate);
      match JourneyIntervals(data, ctx)
      case Failure(e) => Outcome(Failure(e), gaps)
      case Success(ivs) => Outcome(Success(Journey(j + 1, ivs, MetadataOf(b, data, false, ivs, parseDate))), gaps)
  }

  /** `[f(0), ..., f(n - 1)]`. */
  function MapUpTo<T>(f: nat --> T, n: nat): (s: seq<T>)
    requires forall k: nat :: k < n ==> f.requires(k)
    ensures |s| == n
  {
    if n == 0 then [] else MapUpTo(f, n - 1) + [f(n - 1)]
  }

  /** Element `k` of `MapUpTo(f, n)` is `f(k)`. */
  lemma {:induction false} MapUpToAt<T>(f: nat --> T, n: nat, k: nat)
    requires forall k: nat :: k < n ==> f.requires(k)
    requires k < n
    ensures MapUpTo(f, n)[k] == f(k)
  {
    if k < n - 1 {
      MapUpToAt(f, n - 1, k);
    }
  }

  /** The outcome of the `k`-th journey. */
  function JourneyFn(raw: seq<RawDataRow>, bs: seq<Boundary>,
                     analyze: (real, real) -> PortAnalysis, parseDate: string -> Option<int>): nat --> Outcome
  {
    (k: nat) requires k < |bs| => JourneyOf(raw, bs[k], k, analyze, parseDate)
  }

  /** The outcomes of the first `n` journeys. */
  function OutcomesUpTo(raw: seq<RawDataRow>, bs: seq<Boundary>, n: nat,
                        analyze: (real, real) -> PortAnalysis, parseDate: string -> Option<int>): seq<Outcome>
    requires n <= |bs|
  {
    MapUpTo(JourneyFn(raw, bs, analyze, parseDate), n)
  }

  function Outcomes(raw: seq<RawDataRow>, bs: seq<Boundary>,
                    analyze: (real, real) -> PortAnalysis, parseDate: string -> Option<int>): seq<Outcome>
  {
    OutcomesUpTo(raw, bs, |bs|, analyze, parseDate)
  }

  /** The `k`-th outcome is that of the `k`-th journey. */
  lemma OutcomeAt(raw: seq<RawDataRow>, bs: seq<Boundary>, n: nat, k: nat,
                  analyze: (real, real) -> PortAnalysis, parseDate: string -> Option<int>)
    requires k < n <= |bs|
    ensures |OutcomesUpTo(raw, bs, n, analyze, parseDate)| == n
    ensures OutcomesUpTo(raw, bs, n, analyze, parseDate)[k] == JourneyOf(raw, bs[k], k, analyze, parseDate)
  {
    MapUpToAt(JourneyFn(raw, bs, analyze, parseDate), n, k);
  }

  /** The journeys, the gaps and the interval count of the journey loop. */
  datatype Progress = Progress(journeys: seq<Journey>, gaps: seq<GapInterval>, totalIntervals: nat)

  /** The journey loop over the outcomes, which stops at the first
      failure. */
  function Collect(outs: seq<Outcome>): Result<Progress> {
    if outs == [] then Success(Progress([], [], 0))
    else
      match Collect(outs[..|outs| - 1])
      case Failure(e) => Failure(e)
      case Success(p) =>
        var o := outs[|outs| - 1];
        match o.journey
        case Failure(e) => Failure(e)
        case Success(jr) => Success(Progress(p.journeys + [jr], p.gaps + o.gaps, p.totalIntervals + |jr.intervals|))
  }

  /** `journeys.filter(j => j.metadata.isIncomplete).length`. */
  function CountIncomplete(js: seq<Journey>): nat {
    if js == [] then 0
    else CountIncomplete(js[..|js| - 1]) + (if js[|js| - 1].metadata.isIncomplete then 1 else 0)
  }

  /** The count is of the incomplete journeys: none counted exactly when
      none is incomplete, all exactly when all are. */
  lemma {:induction false} CountIncompleteSpec(js: seq<Journey>)
    ensures CountIncomplete(js) <= |js|
    ensures CountIncomplete(js) == 0 <==> forall k :: 0 <= k < |js| ==> !js[k].metadata.isIncomplete
    ensures CountIncomplete(js) == |js| <==> forall k :: 0 <= k < |js| ==> js[k].metadata.isIncomplete
  {
    if js != [] {
      var init := js[..|js| - 1];
      CountIncompleteSpec(init);
      assert forall k :: 0 <= k < |init| ==> init[k] == js[k];
    }
  }

  /** What `processRawData` returns: the failure for no rows, the message
      of the error caught, or the journeys, the gaps and the summary. */
  function ProcessResult(raw: seq<RawDataRow>, analyze: (real, real) -> PortAnalysis,
                         parseDate: string -> Option<int>): Result<ResultData>
  {
    if raw == [] then Failure(NoDataError)
    else
      match Collect(Outcomes(raw, JourneyBoundaries(raw, analyze), analyze, parseDate))
      case Failure(e) => Failure(e)
      case Success(p) =>
        Success(ResultData(p.journeys, p.gaps,
          Summary(p.totalIntervals, |raw|, 1, |p.journeys|, CountIncomplete(p.journeys), |p.gaps|)))
  }

  // ---------------------------------------------------------------------
  // What the journey loop and the summary promise
  // ---------------------------------------------------------------------

  /** The gaps of the outcomes, one journey after the other. */
  function AllGaps(outs: seq<Outcome>): seq<GapInterval> {
    if outs == [] then [] else AllGaps(outs[..|outs| - 1]) + outs[|outs| - 1].gaps
  }

  /** The number of intervals of the journeys. */
  function IntervalTotal(js: seq<Journey>): nat {
    if js == [] then 0 else IntervalTotal(js[..|js| - 1]) + |js[|js| - 1].intervals|
  }

  /** The number of marker rows among the rows of the first `n` journeys. */
  function MarkerTotal(raw: seq<RawDataRow>, bs: seq<Boundary>, n: nat): nat
    requires n <= |bs|
  {
    if n == 0 then 0
    else
      var rows := JourneyRows(raw, bs[n - 1]);
      MarkerTotal(raw, bs, n - 1) + MarkersUpTo(rows, |rows|)
  }

  /** The journey loop succeeds exactly when every journey does, and then
      keeps every journey, in order, all their gaps and the count of all
      their intervals. */
  lemma CollectOk(outs: seq<Outcome>)
    ensures Collect(outs).Success? <==> forall k :: 0 <= k < |outs| ==> outs[k].journey.Success?
    ensures Collect(outs).Success? ==>
      var p := Collect(outs).value;
      |p.journeys| == |outs| && (forall k :: 0 <= k < |outs| ==> outs[k].journey == Success(p.journeys[k]))
      && p.gaps == AllGaps(outs) && p.totalIntervals == IntervalTotal(p.journeys)
  {
    CollectSucceeds(outs);
    if Collect(outs).Success? {
      CollectKeeps(outs);
    }
  }

  lemma {:induction false} CollectSucceeds(outs: seq<Outcome>)
    ensures Collect(outs).Success? <==> forall k :: 0 <= k < |outs| ==> outs[k].journey.Success?
  {
    if outs != [] {
      var init, last := outs[..|outs| - 1], outs[|outs| - 1];
      CollectSucceeds(init);
      if Collect(init).Failure? {
        var k :| 0 <= k < |init| && init[k].journey.Failure?;
        assert init[k] == outs[k];
      } else if last.journey.Success? {
        forall k | 0 <= k < |outs|
          ensures outs[k].journey.Success?
        {
          if k < |init| {
            assert init[k] == outs[k];
          }
        }
      }
    }
  }

  lemma {:induction false} CollectKeeps(outs: seq<Outcome>)
    requires Collect(outs).Success?
    ensures var p := Collect(outs).value;
      |p.journeys| == |outs| && (forall k :: 0 <= k < |outs| ==> outs[k].journey == Success(p.journeys[k]))
      && p.gaps == AllGaps(outs) && p.totalIntervals == IntervalTotal(p.journeys)
  {
    if outs != [] {
      var init, last := outs[..|outs| - 1], outs[|outs| - 1];
      var p, jr := Collect(init).value, last.journey.value;
      CollectKeeps(init);
      var js := p.journeys + [jr];
      assert Collect(outs) == Success(Progress(js, p.gaps + last.gaps, p.totalIntervals + |jr.intervals|));
      forall k | 0 <= k < |outs|
        ensures outs[k].journey == Success(js[k])
      {
        if k < |init| {
          assert init[k] == outs[k] && js[k] == p.journeys[k];
        }
      }
      assert js[..|js| - 1] == p.journeys;
    }
  }

  /** When the journey loop fails, it fails with the error of the first
      journey that fails. */
  lemma {:induction false} CollectFailure(outs: seq<Outcome>)
    requires Collect(outs).Failure?
    ensures exists k :: 0 <= k < |outs| && outs[k].journey.Failure? && Collect(outs).error == outs[k].journey.error
                        && forall m :: 0 <= m < k ==> outs[m].journey.Success?
  {
    var init, last := outs[..|outs| - 1], outs[|outs| - 1];
    assert forall k :: 0 <= k < |init| ==> init[k] == outs[k];
    if Collect(init).Failure? {
      CollectFailure(init);
    } else {
      CollectOk(init);
      assert last.journey.Failure?;
    }
  }

  /** Gaps filed under journeys `1` to `n`, in the order of the journeys. */
  predicate GapsFiled(g: seq<GapInterval>, n: int) {
    (forall i :: 0 <= i < |g| ==> 1 <= g[i].beforeJourneyIndex == g[i].afterJourneyIndex <= n)
    && (forall i, i' :: 0 <= i < i' < |g| ==> g[i].beforeJourneyIndex <= g[i'].beforeJourneyIndex)
  }

  lemma GapsFiledSnoc(g: seq<GapInterval>, more: seq<GapInterval>, n: int)
    requires n >= 1 && GapsFiled(g, n - 1)
    requires forall i :: 0 <= i < |more| ==> more[i].beforeJourneyIndex == n && more[i].afterJourneyIndex == n
    ensures GapsFiled(g + more, n)
  {
    var h := g + more;
    forall i, i' | 0 <= i < i' < |h|
      ensures h[i].beforeJourneyIndex <= h[i'].beforeJourneyIndex
    {
      if i' >= |g| {
        assert h[i'] == more[i' - |g|];
        if i >= |g| {
          assert h[i] == more[i - |g|];
        }
      }
    }
    forall i | 0 <= i < |h|
      ensures 1 <= h[i].beforeJourneyIndex == h[i].afterJourneyIndex <= n
    {
      if i >= |g| {
        assert h[i] == more[i - |g|];
      }
    }
  }

  /** A journey's gaps: one per marker row among its rows, in row order, each
      the record of its marker filed under the journey's number. */
  lemma JourneyOfGaps(raw: seq<RawDataRow>, b: Boundary, j: nat,
                      analyze: (real, real) -> PortAnalysis, parseDate: string -> Option<int>)
    ensures var g, rows := JourneyOf(raw, b, j, analyze, parseDate).gaps, JourneyRows(raw, b);
      |g| == MarkersUpTo(rows, |rows|)
      && (forall i :: 0 <= i < |g| ==> g[i].beforeJourneyIndex == j + 1 && g[i].afterJourneyIndex == j + 1)
      && forall i :: 0 <= i < |rows| && IsMarker(rows[i]) ==>
           MarkersUpTo(rows, i) < |g|
           && g[MarkersUpTo(rows, i)] == GapFor(rows, i).(beforeJourneyIndex := j + 1, afterJourneyIndex := j + 1)
  {
    var rows := JourneyRows(raw, b);
    assert JourneyOf(raw, b, j, analyze, parseDate).gaps == Labelled(JourneyGaps(rows), j + 1);
    GapsPerMarker(rows, |rows|);
    forall i | 0 <= i < |rows| && IsMarker(rows[i])
      ensures MarkersUpTo(rows, i) < |JourneyGaps(rows)| && JourneyGaps(rows)[MarkersUpTo(rows, i)] == GapFor(rows, i)
    {
      GapsInOrder(rows, |rows|, i);
    }
  }

  /** The gaps of the first `n` journeys: one per marker row of their rows,
      each filed under a journey from 1 to `n`, in the order of the
      journeys. */
  lemma {:induction false} GapsOfOutcomes(raw: seq<RawDataRow>, bs: seq<Boundary>, n: nat,
                                          analyze: (real, real) -> PortAnalysis, parseDate: string -> Option<int>)
    requires n <= |bs|
    ensures var g := AllGaps(OutcomesUpTo(raw, bs, n, analyze, parseDate));
      |g| == MarkerTotal(raw, bs, n) && GapsFiled(g, n)
  {
    if n > 0 {
      GapsOfOutcomes(raw, bs, n - 1, analyze, parseDate);
      var outs := OutcomesUpTo(raw, bs, n, analyze, parseDate);
      var prev := OutcomesUpTo(raw, bs, n - 1, analyze, parseDate);
      assert outs[..n - 1] == prev;
      var o := JourneyOf(raw, bs[n - 1], n - 1, analyze, parseDate);
      JourneyOfGaps(raw, bs[n - 1], n - 1, analyze, parseDate);
      GapsFiledSnoc(AllGaps(prev), o.gaps, n);
    }
  }

  /** A journey fails only when it is complete, has no gap, and building
      its intervals fails, and then with the `TypeError`. Otherwise it
      carries its number and its ports, and it is marked incomplete, at its
      end and never at its start, exactly when it reached no other port or
      has a gap. */
  lemma JourneyOfMetadata(raw: seq<RawDataRow>, b: Boundary, j: nat,
                          analyze: (real, real) -> PortAnalysis, parseDate: string -> Option<int>)
    ensures var o, rows := JourneyOf(raw, b, j, analyze, parseDate), JourneyRows(raw, b);
      var data := RealRows(rows);
      var incomplete := !b.isComplete || exists k :: 0 <= k < |rows| && IsMarker(rows[k]);
      var ctx := JourneyContext(j + 1, if data == [] then 1 else |RunStarts(data)|, b.startPort, b.endPort, analyze, parseDate);
      (o.journey.Failure? <==> !incomplete && JourneyIntervals(data, ctx).Failure?)
      && (o.journey.Failure? ==> o.journey.error == TypeErrorMessage)
      && (o.journey.Success? ==>
            var jr, m := o.journey.value, o.journey.value.metadata;
            jr.journeyIndex == j + 1 && m.startPort == b.startPort && m.endPort == b.endPort
            && m.isIncomplete == incomplete && m.incompleteEnd == incomplete && !m.incompleteStart)
  {
    var rows := JourneyRows(raw, b);
    var data := RealRows(rows);
    HasGapsIffMarker(rows, |rows|);
    var ctx := JourneyContext(j + 1, if data == [] then 1 else |RunStarts(data)|, b.startPort, b.endPort, analyze, parseDate);
    if data != [] {
      JourneyIntervalsSpec(data, ctx);
    }
  }

  /** An incomplete journey keeps no intervals and a complete one has the
      intervals of its real rows; the metadata counts them and lists each of
      their labels once. */
  lemma JourneyOfIntervals(raw: seq<RawDataRow>, b: Boundary, j: nat,
                           analyze: (real, real) -> PortAnalysis, parseDate: string -> Option<int>)
    requires JourneyOf(raw, b, j, analyze, parseDate).journey.Success?
    ensures var jr, data := JourneyOf(raw, b, j, analyze, parseDate).journey.value, RealRows(JourneyRows(raw, b));
      var m := jr.metadata;
      var ctx := JourneyContext(j + 1, if data == [] then 1 else |RunStarts(data)|, b.startPort, b.endPort, analyze, parseDate);
      jr.intervals == (if m.isIncomplete then [] else JourneyIntervals(data, ctx).value)
      && m.intervalCount == |jr.intervals|
      && (forall t :: t in m.classificationTypes <==> exists k :: 0 <= k < |jr.intervals| && jr.intervals[k].classificationType == t)
      && (forall i, i' :: 0 <= i < i' < |m.classificationTypes| ==> m.classificationTypes[i] != m.classificationTypes[i'])
  {
    var ivs := JourneyOf(raw, b, j, analyze, parseDate).journey.value.intervals;
    DistinctSpec(Types(ivs));
    forall t
      ensures t in Types(ivs) <==> exists k :: 0 <= k < |ivs| && ivs[k].classificationType == t
    {
      if t in Types(ivs) {
        var k :| 0 <= k < |ivs| && Types(ivs)[k] == t;
      }
      if exists k :: 0 <= k < |ivs| && ivs[k].classificationType == t {
        var k :| 0 <= k < |ivs| && ivs[k].classificationType == t;
        assert Types(ivs)[k] == t;
      }
    }
  }

  /** `processRawData` fails for no rows, and otherwise only with the
      `TypeError` of an interval end without coordinates. When it succeeds
      it has one journey per boundary, in order, and its summary counts the
      journeys, the rows, one file, the intervals of all journeys, and the
      gaps: one per marker row inside a journey, each filed under an
      existing journey. */
  lemma ProcessResultSpec(raw: seq<RawDataRow>, analyze: (real, real) -> PortAnalysis, parseDate: string -> Option<int>)
    ensures var r := ProcessResult(raw, analyze, parseDate);
      (raw == [] ==> r == Failure(NoDataError))
      && (raw != [] && r.Failure? ==> r.error == TypeErrorMessage)
      && (r.Success? ==>
            var bs, js, s := JourneyBoundaries(raw, analyze), r.value.journeys, r.value.summary;
            |js| == |bs| && s.totalJourneys == |js| && s.totalRows == |raw| && s.filesProcessed == 1
            && (forall k :: 0 <= k < |js| ==> Outcomes(raw, bs, analyze, parseDate)[k].journey == Success(js[k]))
            && s.totalIntervals == IntervalTotal(js) && s.incompleteJourneys == CountIncomplete(js)
            && s.totalGaps == |r.value.gaps| == MarkerTotal(raw, bs, |bs|)
            && GapsFiled(r.value.gaps, |js|))
  {
    if raw != [] {
      var bs := JourneyBoundaries(raw, analyze);
      var outs := Outcomes(raw, bs, analyze, parseDate);
      CollectOk(outs);
      GapsOfOutcomes(raw, bs, |bs|, analyze, parseDate);
      var c := Collect(outs);
      if c.Failure? {
        CollectFailure(outs);
        var k :| 0 <= k < |outs| && outs[k].journey.Failure? && c.error == outs[k].journey.error;
        OutcomeAt(raw, bs, |bs|, k, analyze, parseDate);
        JourneyOfMetadata(raw, bs[k], k, analyze, parseDate);
      }
    }
  }

  /** Every journey's rows lie inside the data, from its start row to its
      end row, and its start row docks at its start port. */
  lemma BoundaryRowsInRange(raw: seq<RawDataRow>, analyze: (real, real) -> PortAnalysis)
    ensures var bs := JourneyBoundaries(raw, analyze);
      forall k :: 0 <= k < |bs| ==>
        bs[k].startIndex <= bs[k].endIndex < |raw|
        && JourneyRows(raw, bs[k]) == raw[bs[k].startIndex..bs[k].endIndex + 1]
        && Docks(raw, analyze)[bs[k].startIndex] == Some(bs[k].startPort)
  {
    BoundariesSpec(raw, analyze);
    var d, bs := Docks(raw, analyze), JourneyBoundaries(raw, analyze);
    if bs != [] {
      BoundariesStartAtDocks(d, bs);
    }
    forall k | 0 <= k < |bs|
      ensures JourneyRows(raw, bs[k]) == raw[bs[k].startIndex..bs[k].endIndex + 1]
    {
      JourneyRowsInRange(raw, bs[k]);
    }
  }

  /** A journey's rows inside the data are the slice from its start row to
      its end row. */
  lemma JourneyRowsInRange(raw: seq<RawDataRow>, b: Boundary)
    requires b.startIndex <= b.endIndex < |raw|
    ensures JourneyRows(raw, b) == raw[b.startIndex..b.endIndex + 1]
  {
  }

  /** Boundaries as the scan leaves them start at dock rows at their start
      ports and end no earlier, within the rows. */
  lemma BoundariesStartAtDocks(d: seq<Option<string>>, bs: seq<Boundary>)
    requires bs != [] && forall k :: 0 <= k < |bs| - 1 ==> Closed(d, bs[k])
    requires var last := bs[|bs| - 1];
      last.endIndex == |d| - 1 && last.startIndex < |d| && d[last.startIndex] == Some(last.startPort)
    ensures forall k :: 0 <= k < |bs| ==>
      bs[k].startIndex <= bs[k].endIndex < |d| && d[bs[k].startIndex] == Some(bs[k].startPort)
  {
  }

  /** The rows of a journey without markers are all real rows. */
  lemma {:induction false} RealRowsWithoutMarkers(rows: seq<RawDataRow>)
    requires forall k :: 0 <= k < |rows| ==> !IsMarker(rows[k])
    ensures RealRows(rows) == rows
  {
    if rows != [] {
      RealRowsWithoutMarkers(rows[..|rows| - 1]);
      assert rows == rows[..|rows| - 1] + [rows[|rows| - 1]];
    }
  }

  /** A successful run ends with an incomplete journey whenever it has
      journeys at all: the rows from the last arrival on form a journey
      that reaches no other port, and it keeps no intervals. */
  lemma LastJourneyIncomplete(raw: seq<RawDataRow>, analyze: (real, real) -> PortAnalysis, parseDate: string -> Option<int>)
    requires ProcessResult(raw, analyze, parseDate).Success?
    ensures var d := ProcessResult(raw, analyze, parseDate).value;
      d.journeys != [] ==>
        d.journeys[|d.journeys| - 1].metadata.isIncomplete && d.journeys[|d.journeys| - 1].intervals == []
        && d.summary.incompleteJourneys >= 1
  {
    var d := ProcessResult(raw, analyze, parseDate).value;
    ProcessResultSpec(raw, analyze, parseDate);
    if d.journeys != [] {
      var bs := JourneyBoundaries(raw, analyze);
      BoundariesSpec(raw, analyze);
      var k := |bs| - 1;
      OutcomeAt(raw, bs, |bs|, k, analyze, parseDate);
      JourneyOfMetadata(raw, bs[k], k, analyze, parseDate);
      assert d.journeys[k].metadata.isIncomplete;
      assert d.summary.incompleteJourneys == CountIncomplete(d.journeys);
    }
  }

  /** Non-empty data gives no journeys exactly when no row docks in a port;
      then the result is empty and counts only the rows. */
  lemma NoJourneysWithoutDocking(raw: seq<RawDataRow>, analyze: (real, real) -> PortAnalysis, parseDate: string -> Option<int>)
    requires raw != []
    ensures var r := ProcessResult(raw, analyze, parseDate);
      (NoDockBefore(Docks(raw, analyze), |raw|) <==> r.Success? && r.value.journeys == [])
      && (NoDockBefore(Docks(raw, analyze), |raw|) ==> r == Success(ResultData([], [], Summary(0, |raw|, 1, 0, 0, 0))))
  {
    BoundariesSpec(raw, analyze);
    ProcessResultSpec(raw, analyze, parseDate);
  }

  /** The intervals of a complete journey without gaps, when it has them:
      the first starts at the journey's first row and the last ends at its
      last row. */
  lemma CompleteJourneyIntervals(raw: seq<RawDataRow>, b: Boundary, j: nat, jr: Journey,
                                 analyze: (real, real) -> PortAnalysis, parseDate: string -> Option<int>)
    requires b.startIndex <= b.endIndex < |raw|
    requires JourneyOf(raw, b, j, analyze, parseDate).journey == Success(jr) && !jr.metadata.isIncomplete
    ensures var ivs := jr.intervals;
      b.isComplete && |ivs| >= 1
      && ivs[0].navStatus == raw[b.startIndex].navStatus && ivs[0].startTime == raw[b.startIndex].timestamp
      && ivs[|ivs| - 1].endLat == raw[b.endIndex].latitude && ivs[|ivs| - 1].endLon == raw[b.endIndex].longitude
      && (raw[b.startIndex].navStatus == DockedStatus && raw[b.startIndex].latitude.Some? && raw[b.startIndex].longitude.Some?
          && InPort(analyze(raw[b.startIndex].latitude.value, raw[b.startIndex].longitude.value))
          ==> ivs[0].classificationType == "Atracado en " + b.startPort)
  {
    KeptJourney(raw, b, j, jr, analyze, parseDate);
    var ctx: JourneyContext :| ctx.startPort == b.startPort && ctx.analyze == analyze
               && JourneyIntervals(JourneyRows(raw, b), ctx) == Success(jr.intervals);
    BoundaryIntervals(raw, b, ctx, jr.intervals);
  }

  /** The intervals of a boundary's rows start at its first row and end at
      its last row. */
  lemma BoundaryIntervals(raw: seq<RawDataRow>, b: Boundary, ctx: JourneyContext, ivs: seq<SimpleInterval>)
    requires b.startIndex <= b.endIndex < |raw| && JourneyIntervals(JourneyRows(raw, b), ctx) == Success(ivs)
    ensures |ivs| >= 1
      && ivs[0].navStatus == raw[b.startIndex].navStatus && ivs[0].startTime == raw[b.startIndex].timestamp
      && ivs[|ivs| - 1].endLat == raw[b.endIndex].latitude && ivs[|ivs| - 1].endLon == raw[b.endIndex].longitude
      && (raw[b.startIndex].navStatus == DockedStatus && raw[b.startIndex].latitude.Some? && raw[b.startIndex].longitude.Some?
          && InPort(ctx.analyze(raw[b.startIndex].latitude.value, raw[b.startIndex].longitude.value))
          ==> ivs[0].classificationType == "Atracado en " + ctx.startPort)
  {
    JourneyRowsInRange(raw, b);
    SliceIntervals(raw, JourneyRows(raw, b), b.startIndex, b.endIndex, ivs, ctx);
  }

  /** A journey kept complete is a complete journey without markers, and
      its intervals are those of all its rows. */
  lemma KeptJourney(raw: seq<RawDataRow>, b: Boundary, j: nat, jr: Journey,
                    analyze: (real, real) -> PortAnalysis, parseDate: string -> Option<int>)
    requires JourneyOf(raw, b, j, analyze, parseDate).journey == Success(jr) && !jr.metadata.isIncomplete
    ensures b.isComplete
    ensures exists ctx: JourneyContext :: ctx.startPort == b.startPort && ctx.analyze == analyze
                          && JourneyIntervals(JourneyRows(raw, b), ctx) == Success(jr.intervals)
  {
    var rows := JourneyRows(raw, b);
    JourneyOfMetadata(raw, b, j, analyze, parseDate);
    assert b.isComplete && forall k :: 0 <= k < |rows| ==> !IsMarker(rows[k]);
    JourneyOfIntervals(raw, b, j, analyze, parseDate);
    RealRowsWithoutMarkers(rows);
    var ctx := JourneyContext(j + 1, if rows == [] then 1 else |RunStarts(rows)|, b.startPort, b.endPort, analyze, parseDate);
    assert JourneyIntervals(rows, ctx) == Success(jr.intervals);
  }

  /** The intervals of the rows from `s` to `e` start at row `s` and end at
      row `e`. */
  lemma SliceIntervals(raw: seq<RawDataRow>, rows: seq<RawDataRow>, s: nat, e: nat, ivs: seq<SimpleInterval>, ctx: JourneyContext)
    requires s <= e < |raw| && rows == raw[s..e + 1] && JourneyIntervals(rows, ctx) == Success(ivs)
    ensures |ivs| >= 1
      && ivs[0].navStatus == raw[s].navStatus && ivs[0].startTime == raw[s].timestamp
      && ivs[|ivs| - 1].endLat == raw[e].latitude && ivs[|ivs| - 1].endLon == raw[e].longitude
      && (raw[s].navStatus == DockedStatus && raw[s].latitude.Some? && raw[s].longitude.Some?
          && InPort(ctx.analyze(raw[s].latitude.value, raw[s].longitude.value))
          ==> ivs[0].classificationType == "Atracado en " + ctx.startPort)
  {
    SliceEnds(raw, s, e + 1);
    JourneyEnds(rows, ctx);
  }

  /** The first and last elements of a non-empty slice. */
  lemma SliceEnds<T>(s: seq<T>, i: nat, j: nat)
    requires i < j <= |s|
    ensures |s[i..j]| == j - i && s[i..j][0] == s[i] && s[i..j][j - i - 1] == s[j - 1]
  {
  }

  /** The `k`-th journey of a successful run is the journey of the `k`-th
      boundary. */
  lemma JourneyAt(raw: seq<RawDataRow>, analyze: (real, real) -> PortAnalysis, parseDate: string -> Option<int>, k: nat)
    requires ProcessResult(raw, analyze, parseDate).Success?
    requires k < |ProcessResult(raw, analyze, parseDate).value.journeys|
    ensures var bs := JourneyBoundaries(raw, analyze);
      k < |bs| && JourneyOf(raw, bs[k], k, analyze, parseDate).journey == Success(ProcessResult(raw, analyze, parseDate).value.journeys[k])
  {
    var bs := JourneyBoundaries(raw, analyze);
    ProcessResultSpec(raw, analyze, parseDate);
    OutcomeAt(raw, bs, |bs|, k, analyze, parseDate);
  }

  /** A complete journey without gaps between two dock rows: its first
      interval is docked at the start port and starts at the first row, its
      last interval ends at the last row. */
  lemma DockToDock(raw: seq<RawDataRow>, b: Boundary, j: nat, jr: Journey,
                   analyze: (real, real) -> PortAnalysis, parseDate: string -> Option<int>)
    requires b.startIndex <= b.endIndex < |raw| && Docks(raw, analyze)[b.startIndex] == Some(b.startPort)
    requires JourneyOf(raw, b, j, analyze, parseDate).journey == Success(jr) && !jr.metadata.isIncomplete
    ensures var ivs := jr.intervals;
      |ivs| >= 1 && ivs[0].navStatus == DockedStatus && ivs[0].startTime == raw[b.startIndex].timestamp
      && ivs[0].classificationType == "Atracado en " + b.startPort
      && ivs[|ivs| - 1].endLat == raw[b.endIndex].latitude && ivs[|ivs| - 1].endLon == raw[b.endIndex].longitude
  {
    CompleteJourneyIntervals(raw, b, j, jr, analyze, parseDate);
    DockPortSpec(raw[b.startIndex], analyze);
  }

  /** In a successful run, every complete journey joins two different ports:
      it starts with an interval labelled as docked at its start port, at
      the row that opened it, and ends with an interval at the row that
      docked at the other port. */
  lemma CompleteJourneyDockToDock(raw: seq<RawDataRow>, analyze: (real, real) -> PortAnalysis, parseDate: string -> Option<int>, k: nat)
    requires ProcessResult(raw, analyze, parseDate).Success?
    requires k < |ProcessResult(raw, analyze, parseDate).value.journeys|
    requires !ProcessResult(raw, analyze, parseDate).value.journeys[k].metadata.isIncomplete
    ensures var jr, bs := ProcessResult(raw, analyze, parseDate).value.journeys[k], JourneyBoundaries(raw, analyze);
      var ivs := jr.intervals;
      k < |bs| && bs[k].isComplete && jr.metadata.startPort != jr.metadata.endPort
      && bs[k].startIndex < bs[k].endIndex < |raw| && Docks(raw, analyze)[bs[k].endIndex] == Some(jr.metadata.endPort)
      && |ivs| >= 1 && ivs[0].navStatus == DockedStatus && ivs[0].startTime == raw[bs[k].startIndex].timestamp
      && ivs[0].classificationType == "Atracado en " + jr.metadata.startPort
      && ivs[|ivs| - 1].endLat == raw[bs[k].endIndex].latitude && ivs[|ivs| - 1].endLon == raw[bs[k].endIndex].longitude
  {
    JourneyOutcomeAt(raw, analyze, parseDate, k);
    FinishedJourney(raw, k, ProcessResult(raw, analyze, parseDate).value.journeys[k], analyze, parseDate);
  }

  /** The `k`-th journey of a successful run is the `k`-th outcome. */
  lemma JourneyOutcomeAt(raw: seq<RawDataRow>, analyze: (real, real) -> PortAnalysis, parseDate: string -> Option<int>, k: nat)
    requires ProcessResult(raw, analyze, parseDate).Success?
    requires k < |ProcessResult(raw, analyze, parseDate).value.journeys|
    ensures var bs := JourneyBoundaries(raw, analyze);
      k < |bs| && Outcomes(raw, bs, analyze, parseDate)[k].journey == Success(ProcessResult(raw, analyze, parseDate).value.journeys[k])
  {
    ProcessResultSpec(raw, analyze, parseDate);
  }

  /** The `k`-th journey, when kept complete, is not the last one, so its
      boundary is a finished journey. */
  lemma FinishedJourney(raw: seq<RawDataRow>, k: nat, jr: Journey,
                        analyze: (real, real) -> PortAnalysis, parseDate: string -> Option<int>)
    requires var bs := JourneyBoundaries(raw, analyze);
      k < |bs| && Outcomes(raw, bs, analyze, parseDate)[k].journey == Success(jr) && !jr.metadata.isIncomplete
    ensures var bs, ivs := JourneyBoundaries(raw, analyze), jr.intervals;
      bs[k].isComplete && jr.metadata.startPort != jr.metadata.endPort
      && bs[k].startIndex < bs[k].endIndex < |raw| && Docks(raw, analyze)[bs[k].endIndex] == Some(jr.metadata.endPort)
      && |ivs| >= 1 && ivs[0].navStatus == DockedStatus && ivs[0].startTime == raw[bs[k].startIndex].timestamp
      && ivs[0].classificationType == "Atracado en " + jr.metadata.startPort
      && ivs[|ivs| - 1].endLat == raw[bs[k].endIndex].latitude && ivs[|ivs| - 1].endLon == raw[bs[k].endIndex].longitude
  {
    var bs := JourneyBoundaries(raw, analyze);
    OutcomeAt(raw, bs, |bs|, k, analyze, parseDate);
    JourneyOfMetadata(raw, bs[k], k, analyze, parseDate);
    BoundariesSpec(raw, analyze);
    assert k < |bs| - 1;
    ClosedJourney(raw, bs[k], k, jr, analyze, parseDate);
  }

  /** A finished journey that was kept complete docks at both ends, at
      different ports, and its intervals run from dock to dock. */
  lemma ClosedJourney(raw: seq<RawDataRow>, b: Boundary, j: nat, jr: Journey,
                      analyze: (real, real) -> PortAnalysis, parseDate: string -> Option<int>)
    requires Closed(Docks(raw, analyze), b)
    requires JourneyOf(raw, b, j, analyze, parseDate).journey == Success(jr) && !jr.metadata.isIncomplete
    ensures var ivs := jr.intervals;
      jr.metadata.startPort != jr.metadata.endPort
      && b.startIndex < b.endIndex < |raw| && Docks(raw, analyze)[b.endIndex] == Some(jr.metadata.endPort)
      && |ivs| >= 1 && ivs[0].navStatus == DockedStatus && ivs[0].startTime == raw[b.startIndex].timestamp
      && ivs[0].classificationType == "Atracado en " + jr.metadata.startPort
      && ivs[|ivs| - 1].endLat == raw[b.endIndex].latitude && ivs[|ivs| - 1].endLon == raw[b.endIndex].longitude
  {
    JourneyOfMetadata(raw, b, j, analyze, parseDate);
    DockToDock(raw, b, j, jr, analyze, parseDate);
  }

  // ---------------------------------------------------------------------
  // The method
  // ---------------------------------------------------------------------

  /** One turn of the journey loop, for the boundary `boundary` at index
      `journeyIndex`. */
  method ProcessJourney(rawData: seq<RawDataRow>, boundary: Boundary, journeyIndex: nat,
                        analyze: (real, real) -> PortAnalysis, parseDate: string -> Option<int>)
    returns (journey: Result<Journey>, gaps: seq<GapInterval>)
    ensures Outcome(journey, gaps) == JourneyOf(rawData, boundary, journeyIndex, analyze, parseDate)
  {
    var journeyDataRaw := Slice(rawData, boundary.startIndex, boundary.endIndex + 1);
    var journeyGaps := DetectGapsInJourney(journeyDataRaw);
    var hasGaps := |journeyGaps| > 0;
    var journeyData := RealRows(journeyDataRaw);
    gaps := Labelled(journeyGaps, journeyIndex + 1);
    var isIncomplete := !boundary.isComplete || hasGaps;
    var startTime := if journeyData == [] then "" else journeyData[0].timestamp;
    var endTime := if journeyData == [] then "" else journeyData[|journeyData| - 1].timestamp;
    var startDate := if journeyData == [] then "" else journeyData[0].date;
    var endDate := if journeyData == [] then "" else journeyData[|journeyData| - 1].date;
    var totalDuration := CalculateTimeDifference(startTime, endTime, parseDate);
    if isIncomplete {
      journey := Success(Journey(journeyIndex + 1, [], Metadata(
        boundary.startPort, boundary.endPort, startDate, endDate, startTime, endTime, totalDuration,
        true, false, !boundary.isComplete || hasGaps, 0, [])));
      return;
    }
    var totalIntervalCount := CountIntervals(journeyData);
    var ctx := JourneyContext(journeyIndex + 1, totalIntervalCount, boundary.startPort, boundary.endPort, analyze, parseDate);
    var intervals := BuildIntervals(journeyData, ctx);
    if intervals.Failure? {
      journey := Failure(intervals.error);
      return;
    }
    journey := Success(Journey(journeyIndex + 1, intervals.value, Metadata(
      boundary.startPort, boundary.endPort, startDate, endDate, startTime, endTime, totalDuration,
      !boundary.isComplete, false, !boundary.isComplete, |intervals.value|, Distinct(Types(intervals.value)))));
  }

  /** The turn of the journey loop for the `journeyIndex`-th boundary gives
      that journey's outcome. */
  method JourneyOutcome(rawData: seq<RawDataRow>, journeyBoundaries: seq<Boundary>, journeyIndex: nat,
                        analyze: (real, real) -> PortAnalysis, parseDate: string -> Option<int>)
    returns (journey: Result<Journey>, gaps: seq<GapInterval>)
    requires journeyIndex < |journeyBoundaries|
    ensures Outcome(journey, gaps) == Outcomes(rawData, journeyBoundaries, analyze, parseDate)[journeyIndex]
  {
    journey, gaps := ProcessJourney(rawData, journeyBoundaries[journeyIndex], journeyIndex, analyze, parseDate);
    OutcomeAt(rawData, journeyBoundaries, |journeyBoundaries|, journeyIndex, analyze, parseDate);
  }

  /** A failure among the first `n` outcomes is the failure of them all. */
  lemma {:induction false} CollectFailureSticks(outs: seq<Outcome>, n: nat)
    requires n <= |outs| && Collect(outs[..n]).Failure?
    ensures Collect(outs) == Collect(outs[..n])
    decreases |outs| - n
  {
    if n < |outs| {
      assert outs[..n + 1][..n] == outs[..n];
      CollectFailureSticks(outs, n + 1);
    } else {
      assert outs[..n] == outs;
    }
  }

  /** One more outcome: its failure, or its journey, gaps and intervals
      added to the progress so far. */
  lemma CollectSnoc(outs: seq<Outcome>, n: nat, p: Progress, journey: Result<Journey>, gaps: seq<GapInterval>)
    requires n < |outs| && Collect(outs[..n]) == Success(p) && outs[n] == Outcome(journey, gaps)
    ensures journey.Failure? ==> Collect(outs[..n + 1]) == Failure(journey.error)
    ensures journey.Success? ==>
      Collect(outs[..n + 1]) == Success(Progress(p.journeys + [journey.value], p.gaps + gaps, p.totalIntervals + |journey.value.intervals|))
  {
    assert outs[..n + 1][..n] == outs[..n];
  }

  /** The journey loop of `processRawData`: the journeys, gaps and interval
      count, or the first failure. */
  method CollectJourneys(rawData: seq<RawDataRow>, journeyBoundaries: seq<Boundary>,
                         analyze: (real, real) -> PortAnalysis, parseDate: string -> Option<int>)
    returns (result: Result<Progress>)
    ensures result == Collect(Outcomes(rawData, journeyBoundaries, analyze, parseDate))
  {
    ghost var outs := Outcomes(rawData, journeyBoundaries, analyze, parseDate);
    var journeys: seq<Journey> := [];
    var totalIntervals: nat := 0;
    var gaps: seq<GapInterval> := [];
    for journeyIndex := 0 to |journeyBoundaries|
      invariant Collect(outs[..journeyIndex]) == Success(Progress(journeys, gaps, totalIntervals))
    {
      var journey, journeyGaps := JourneyOutcome(rawData, journeyBoundaries, journeyIndex, analyze, parseDate);
      CollectSnoc(outs, journeyIndex, Progress(journeys, gaps, totalIntervals), journey, journeyGaps);
      // The gaps are pushed before the intervals are built, which may throw.
      gaps := gaps + journeyGaps;
      if journey.Failure? {
        CollectFailureSticks(outs, journeyIndex + 1);
        return Failure(journey.error);
      }
      journeys := journeys + [journey.value];
      totalIntervals := totalIntervals + |journey.value.intervals|;
    }
    assert outs[..|journeyBoundaries|] == outs;
    result := Success(Progress(journeys, gaps, totalIntervals));
  }

  /** `processRawData(rawData)`. */
  method ProcessRawData(rawData: seq<RawDataRow>, analyze: (real, real) -> PortAnalysis, parseDate: string -> Option<int>)
    returns (result: Result<ResultData>)
    ensures result == ProcessResult(rawData, analyze, parseDate)
  {
    if |rawData| == 0 {
      return Failure(NoDataError);
    }
    var journeyBoundaries := DetectBoundaries(rawData, analyze);
    var collected := CollectJourneys(rawData, journeyBoundaries, analyze, parseDate);
    if collected.Failure? {
      return Failure(collected.error);
    }
    var journeys, gaps := collected.value.journeys, collected.value.gaps;
    result := Success(ResultData(journeys, gaps,
      Summary(collected.value.totalIntervals, |rawData|, 1, |journeys|, CountIncomplete(journeys), |gaps|)));
  }
}
