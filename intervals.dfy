/** One interval of a journey (frontend/src/hooks/useCSVInterval.ts): its
    label (`classifyIntervalType`), its mean speed (`calculateAverageSpeed`)
    and the record built for a run of rows (`createSimpleInterval`). */
module Intervals {
  import opened Wrappers
  import opened JsBuiltins
  import opened Durations
  import opened Ports
  import opened Boundaries

  // ---------------------------------------------------------------------
  // classifyIntervalType
  // ---------------------------------------------------------------------

  const ManeuveringStatus := "1.0"
  const UnderwayStatus := "2.0"
  const Stopped := "Parada"
  const Unknown := "Desconocido"
  const ManeuveringTowardsB := "Navegando en velocidad de maniobra hacia Puerto B"

  /** `classifyIntervalType`: the first of six rules that applies gives the
      label. "Near a port" means either end of the interval is in the zone
      of its nearest port. */
  function ClassifyIntervalType(
    navStatus: string, startPortDistances: PortAnalysis, endPortDistances: PortAnalysis,
    intervalIndex: int, totalIntervals: int, startPort: string, endPort: string,
    isFirstWithNavStatus1: bool): string
  {
    var nearPort := InPort(startPortDistances) || InPort(endPortDistances);
    if navStatus == DockedStatus && intervalIndex == 0 then
      (if nearPort then "Atracado en " + startPort else Stopped)
    else if navStatus == ManeuveringStatus && isFirstWithNavStatus1 then
      (if nearPort then "Maniobrando en " + startPort else ManeuveringTowardsB)
    else if navStatus == ManeuveringStatus && intervalIndex == totalIntervals - 2 then
      (if nearPort then "Maniobrando en " + endPort else ManeuveringTowardsB)
    else if navStatus == ManeuveringStatus then "Navegando en velocidad de maniobra hacia " + endPort
    else if navStatus == UnderwayStatus then "Navegando hacia " + endPort
    else if navStatus == DockedStatus then Stopped
    else Unknown
  }

  /** Only the three known statuses get a label other than "Desconocido";
      an underway interval always heads for the end port, whatever its
      position or distances. */
  lemma ClassifyByStatus(
    navStatus: string, startA: PortAnalysis, endA: PortAnalysis,
    intervalIndex: int, totalIntervals: int, startPort: string, endPort: string, isFirst: bool)
    ensures var lbl := ClassifyIntervalType(navStatus, startA, endA, intervalIndex, totalIntervals, startPort, endPort, isFirst);
      (lbl == Unknown <==> navStatus !in {DockedStatus, ManeuveringStatus, UnderwayStatus})
      && (navStatus == UnderwayStatus ==> lbl == "Navegando hacia " + endPort)
  {
    var lbl := ClassifyIntervalType(navStatus, startA, endA, intervalIndex, totalIntervals, startPort, endPort, isFirst);
    if navStatus in {DockedStatus, ManeuveringStatus, UnderwayStatus} {
      assert |lbl| != |Unknown|;
    }
  }

  /** A stopped interval is "Atracado en" the start port exactly when it is
      the first interval and one of its ends is in a port zone, and
      "Parada" otherwise. */
  lemma ClassifyDocked(
    startA: PortAnalysis, endA: PortAnalysis,
    intervalIndex: int, totalIntervals: int, startPort: string, endPort: string, isFirst: bool)
    ensures var lbl := ClassifyIntervalType(DockedStatus, startA, endA, intervalIndex, totalIntervals, startPort, endPort, isFirst);
      (intervalIndex == 0 && (InPort(startA) || InPort(endA)) ==> lbl == "Atracado en " + startPort)
      && (!(intervalIndex == 0 && (InPort(startA) || InPort(endA))) ==> lbl == Stopped)
  {
  }

  /** The first manoeuvring interval is labelled by the start port even
      when it is also the second-to-last interval: the earlier rule wins. */
  lemma ClassifyFirstManeuveringWins(
    startA: PortAnalysis, endA: PortAnalysis,
    intervalIndex: int, totalIntervals: int, startPort: string, endPort: string)
    ensures var lbl := ClassifyIntervalType(ManeuveringStatus, startA, endA, intervalIndex, totalIntervals, startPort, endPort, true);
      lbl == (if InPort(startA) || InPort(endA) then "Maniobrando en " + startPort else ManeuveringTowardsB)
  {
  }

  /** A later manoeuvring interval is labelled by the end port when it is
      the second-to-last one and near a port, and otherwise heads for the
      end port. */
  lemma ClassifyLaterManeuvering(
    startA: PortAnalysis, endA: PortAnalysis,
    intervalIndex: int, totalIntervals: int, startPort: string, endPort: string)
    ensures var lbl := ClassifyIntervalType(ManeuveringStatus, startA, endA, intervalIndex, totalIntervals, startPort, endPort, false);
      (intervalIndex == totalIntervals - 2 && (InPort(startA) || InPort(endA)) ==> lbl == "Maniobrando en " + endPort)
      && (intervalIndex == totalIntervals - 2 && !(InPort(startA) || InPort(endA)) ==> lbl == ManeuveringTowardsB)
      && (intervalIndex != totalIntervals - 2 ==> lbl == "Navegando en velocidad de maniobra hacia " + endPort)
  {
  }

  // ---------------------------------------------------------------------
  // calculateAverageSpeed
  // ---------------------------------------------------------------------

  /** The speeds that are present, in order. */
  function Speeds(points: seq<RawDataRow>): (v: seq<real>)
    ensures |v| <= |points|
  {
    if points == [] then []
    else
      var last := points[|points| - 1];
      Speeds(points[..|points| - 1]) + (if last.speed.Some? then [last.speed.value] else [])
  }

  /** The sum from left to right, the order of `reduce`. */
  function Sum(xs: seq<real>): real {
    if xs == [] then 0.0 else Sum(xs[..|xs| - 1]) + xs[|xs| - 1]
  }

  /** `calculateAverageSpeed(points)`: the mean of the present speeds, null
      when there is none. */
  function CalculateAverageSpeed(points: seq<RawDataRow>): Option<real> {
    var v := Speeds(points);
    if |v| == 0 then None else Some(Sum(v) / (|v| as real))
  }

  /** Every listed speed is the speed of some point, and a point with a
      speed contributes one. */
  lemma {:induction false} SpeedsMembers(points: seq<RawDataRow>)
    ensures forall i :: 0 <= i < |Speeds(points)| ==>
      exists k :: 0 <= k < |points| && points[k].speed == Some(Speeds(points)[i])
    ensures |Speeds(points)| == 0 <==> forall k :: 0 <= k < |points| ==> points[k].speed.None?
  {
    if points != [] {
      var init := points[..|points| - 1];
      SpeedsMembers(init);
      var v, last := Speeds(points), points[|points| - 1];
      assert v == Speeds(init) + (if last.speed.Some? then [last.speed.value] else []);
      forall i | 0 <= i < |v|
        ensures exists k :: 0 <= k < |points| && points[k].speed == Some(v[i])
      {
        if i < |Speeds(init)| {
          var k :| 0 <= k < |init| && init[k].speed == Some(Speeds(init)[i]);
          assert points[k] == init[k] && v[i] == Speeds(init)[i];
        } else {
          assert last.speed == Some(v[i]);
        }
      }
      if |v| == 0 {
        forall k | 0 <= k < |points| ensures points[k].speed.None? {
          if k < |init| { assert points[k] == init[k]; }
        }
      }
      if forall k :: 0 <= k < |points| ==> points[k].speed.None? {
        forall k | 0 <= k < |init| ensures init[k].speed.None? {
          assert points[k] == init[k];
        }
      }
      assert forall i :: 0 <= i < |v| ==> exists k :: 0 <= k < |points| && points[k].speed == Some(v[i]);
    } else {
      assert Speeds(points) == [];
    }
  }

  function MinOf(xs: seq<real>): real
    requires |xs| > 0
  {
    if |xs| == 1 then xs[0]
    else
      var m, x := MinOf(xs[..|xs| - 1]), xs[|xs| - 1];
      if x < m then x else m
  }

  function MaxOf(xs: seq<real>): real
    requires |xs| > 0
  {
    if |xs| == 1 then xs[0]
    else
      var m, x := MaxOf(xs[..|xs| - 1]), xs[|xs| - 1];
      if x > m then x else m
  }

  lemma {:induction false} MinMaxMembers(xs: seq<real>)
    requires |xs| > 0
    ensures MinOf(xs) in xs && MaxOf(xs) in xs
  {
    if |xs| > 1 {
      MinMaxMembers(xs[..|xs| - 1]);
    }
  }

  lemma MulMono(a: real, b: real, n: real)
    requires a <= b && n >= 0.0
    ensures a * n <= b * n
  {
    assert (b - a) * n >= 0.0;
  }

  /** One more term keeps the sum between the bounds, widened to cover the
      new term. */
  lemma SumStep(s: real, x: real, k: real, lo: real, hi: real, lo': real, hi': real)
    requires k >= 1.0 && lo * k <= s <= hi * k
    requires lo' <= lo && lo' <= x && hi <= hi' && x <= hi'
    ensures lo' * (k + 1.0) <= s + x <= hi' * (k + 1.0)
  {
    MulMono(lo', lo, k);
    MulMono(hi, hi', k);
    assert lo' * (k + 1.0) == lo' * k + lo';
    assert hi' * (k + 1.0) == hi' * k + hi';
  }

  /** A non-empty sum lies between the number of terms times the smallest
      term and times the largest. */
  lemma {:induction false} SumBetween(xs: seq<real>)
    requires |xs| > 0
    ensures MinOf(xs) * (|xs| as real) <= Sum(xs) <= MaxOf(xs) * (|xs| as real)
  {
    if |xs| == 1 {
      assert Sum(xs) == Sum([]) + xs[0];
    } else {
      var n := |xs| - 1;
      var w, x := xs[..n], xs[n];
      SumBetween(w);
      assert Sum(xs) == Sum(w) + x;
      SumStep(Sum(w), x, n as real, MinOf(w), MaxOf(w), MinOf(xs), MaxOf(xs));
      assert (|xs| as real) == (n as real) + 1.0;
    }
  }

  lemma DivBetween(s: real, n: real, lo: real, hi: real)
    requires n > 0.0 && lo * n <= s <= hi * n
    ensures lo <= s / n <= hi
  {
    var q := s / n;
    assert q * n == s;
    if q < lo {
      MulMono(q, lo, n);
    }
    if q > hi {
      MulMono(hi, q, n);
    }
  }

  /** The mean of a non-empty sequence lies between its extremes. */
  lemma MeanBetween(xs: seq<real>)
    requires |xs| > 0
    ensures MinOf(xs) <= Sum(xs) / (|xs| as real) <= MaxOf(xs)
  {
    SumBetween(xs);
    DivBetween(Sum(xs), |xs| as real, MinOf(xs), MaxOf(xs));
  }

  /** The mean is null exactly when no point has a speed, and otherwise lies
      between the smallest and the largest speed present. */
  lemma AverageSpeedBounds(points: seq<RawDataRow>)
    ensures var avg := CalculateAverageSpeed(points);
      (avg.None? <==> forall k :: 0 <= k < |points| ==> points[k].speed.None?)
      && (avg.Some? ==>
            (exists k :: 0 <= k < |points| && points[k].speed.Some? && points[k].speed.value <= avg.value)
            && (exists k :: 0 <= k < |points| && points[k].speed.Some? && avg.value <= points[k].speed.value))
  {
    SpeedsMembers(points);
    var v := Speeds(points);
    if |v| > 0 {
      MeanBetween(v);
      MinMaxMembers(v);
      var i :| 0 <= i < |v| && v[i] == MinOf(v);
      var j :| 0 <= j < |v| && v[j] == MaxOf(v);
      var ki :| 0 <= ki < |points| && points[ki].speed == Some(v[i]);
      var kj :| 0 <= kj < |points| && points[kj].speed == Some(v[j]);
    }
  }

  // ---------------------------------------------------------------------
  // createSimpleInterval
  // ---------------------------------------------------------------------

  /** `CoordinatePoint`. */
  datatype CoordinatePoint = CoordinatePoint(lat: Option<real>, lon: Option<real>, timestamp: string, speed: Option<real>, navStatus: string)

  function PointOf(row: RawDataRow): CoordinatePoint {
    CoordinatePoint(row.latitude, row.longitude, row.timestamp, row.speed, row.navStatus)
  }

  /** `points.map(...)` into coordinate points. */
  function Points(rows: seq<RawDataRow>): (ps: seq<CoordinatePoint>)
    ensures |ps| == |rows| && forall k :: 0 <= k < |rows| ==> ps[k] == PointOf(rows[k])
  {
    seq(|rows|, k requires 0 <= k < |rows| => PointOf(rows[k]))
  }

  /** `SimpleInterval`. */
  datatype SimpleInterval = SimpleInterval(
    startDate: string,
    startTime: string,
    endDate: string,
    endTime: string,
    navStatus: string,
    duration: string,
    avgSpeed: Option<real>,
    sampleCount: nat,
    startLat: Option<real>,
    startLon: Option<real>,
    endLat: Option<real>,
    endLon: Option<real>,
    startPortDistances: PortAnalysis,
    endPortDistances: PortAnalysis,
    classificationType: string,
    journeyIndex: int,
    intervalNumber: int,
    coordinatePoints: seq<CoordinatePoint>)

  const InvalidDate := "Fecha inválida"
  const InvalidTime := "Hora inválida"

  /** The message of the `TypeError` thrown by `toFixed` on a null
      coordinate, when the cache key of an interval's end is built. */
  const TypeErrorMessage := "Cannot read properties of null (reading 'toFixed')"

  /** The end date and time read from the last point's timestamp: the part
      before the first space and the whole text when there is a space, the
      whole text twice when there is none, and the invalid-date texts for an
      empty timestamp. */
  function EndDateTime(timestamp: string): (string, string) {
    if timestamp == "" then (InvalidDate, InvalidTime)
    else
      var parts := Split(timestamp, " ");
      if |parts| >= 2 then (parts[0], timestamp) else (timestamp, timestamp)
  }

  lemma EndDateTimeSpec(date: string, rest: string)
    requires ' ' !in date
    ensures EndDateTime(date + " " + rest) == (date, date + " " + rest)
    ensures date != "" ==> EndDateTime(date) == (date, date)
  {
    SplitAtFirst(date, ' ', rest);
    assert date + " " + rest == date + [' '] + rest;
    var tail := Split(rest, [' ']);
    assert |tail| >= 1;
    SplitWhole(date, ' ');
  }

  /** Both coordinates are present. */
  predicate Located(row: RawDataRow) {
    row.latitude.Some? && row.longitude.Some?
  }

  /** `createSimpleInterval(points, ...)`: null for no points; the
      `TypeError` of `toFixed` when an end point lacks a coordinate; and
      otherwise the interval from the first to the last point. */
  function CreateSimpleInterval(
    points: seq<RawDataRow>, startTime: string, startDate: string,
    intervalNumber: int, journeyIndex: int, intervalIndex: int, totalIntervals: int,
    startPort: string, endPort: string, isFirstWithNavStatus1: bool,
    analyze: (real, real) -> PortAnalysis, parseDate: string -> Option<int>): Result<Option<SimpleInterval>>
  {
    if |points| == 0 then Success(None)
    else
      var first, last := points[0], points[|points| - 1];
      if !Located(first) || !Located(last) then Failure(TypeErrorMessage)
      else
        var startA := analyze(first.latitude.value, first.longitude.value);
        var endA := analyze(last.latitude.value, last.longitude.value);
        var lbl := ClassifyIntervalType(first.navStatus, startA, endA, intervalIndex, totalIntervals, startPort, endPort, isFirstWithNavStatus1);
        var (endDate, endTime) := EndDateTime(last.timestamp);
        Success(Some(SimpleInterval(
          startDate, startTime, endDate, endTime, first.navStatus,
          CalculateTimeDifference(startTime, last.timestamp, parseDate),
          CalculateAverageSpeed(points), |points|,
          first.latitude, first.longitude, last.latitude, last.longitude,
          startA, endA, lbl, journeyIndex, intervalNumber, Points(points))))
  }

  /** No points give null; an end point without both coordinates gives the
      `TypeError`; otherwise the interval runs from the first point to the
      last, keeps one coordinate point per point, in order, measures its
      ends against the ports, is labelled by `classifyIntervalType` of its
      first status and those measures, ends at the date and time of its last
      point, and takes its duration and mean speed from the first and last
      times and the points' speeds. */
  lemma CreateSimpleIntervalSpec(
    points: seq<RawDataRow>, startTime: string, startDate: string,
    intervalNumber: int, journeyIndex: int, intervalIndex: int, totalIntervals: int,
    startPort: string, endPort: string, isFirstWithNavStatus1: bool,
    analyze: (real, real) -> PortAnalysis, parseDate: string -> Option<int>)
    ensures var r := CreateSimpleInterval(points, startTime, startDate, intervalNumber, journeyIndex,
      intervalIndex, totalIntervals, startPort, endPort, isFirstWithNavStatus1, analyze, parseDate);
      (r.Success? && r.value.None? <==> points == [])
      && (r.Failure? <==> points != [] && !(Located(points[0]) && Located(points[|points| - 1])))
      && (r.Failure? ==> r.error == TypeErrorMessage)
      && (r.Success? && r.value.Some? ==>
            var iv, first, last := r.value.value, points[0], points[|points| - 1];
            iv.sampleCount == |iv.coordinatePoints| == |points|
            && iv.coordinatePoints == Points(points)
            && iv.navStatus == first.navStatus
            && iv.startTime == startTime && iv.startDate == startDate
            && iv.startLat == first.latitude && iv.startLon == first.longitude
            && iv.endLat == last.latitude && iv.endLon == last.longitude
            && iv.startPortDistances == analyze(first.latitude.value, first.longitude.value)
            && iv.endPortDistances == analyze(last.latitude.value, last.longitude.value)
            && iv.journeyIndex == journeyIndex && iv.intervalNumber == intervalNumber
            && iv.classificationType == ClassifyIntervalType(first.navStatus, iv.startPortDistances, iv.endPortDistances,
                 intervalIndex, totalIntervals, startPort, endPort, isFirstWithNavStatus1)
            && (iv.endDate, iv.endTime) == EndDateTime(last.timestamp)
            && iv.duration == CalculateTimeDifference(startTime, last.timestamp, parseDate)
            && iv.avgSpeed == CalculateAverageSpeed(points))
  {
  }
}
