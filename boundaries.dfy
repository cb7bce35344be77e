/** The rows as the browser receives them, and the first pass of
    `processRawData` (frontend/src/hooks/useCSVInterval.ts): the scan that
    cuts the rows into journeys from a dock in one port to a dock in another. */
module Boundaries {
  import opened Wrappers
  import opened JsBuiltins
  import opened Ports

  /** `RawDataRow` as the browser holds it. The rows arrive as JSON, in which
      `NaN` travels as `null`, so a coordinate or speed is a number or
      `None`. */
  datatype RawDataRow = RawDataRow(
    timestamp: string,
    date: string,
    latitude: Option<real>,
    longitude: Option<real>,
    speed: Option<real>,
    navStatus: string,
    isGapMarker: bool,
    gapDuration: Option<string>)

  const DockedStatus := "0.0"
  const UnknownPort := "Desconocido"

  /** A gap marker row: flagged, or with status `"GAP"`. */
  predicate IsMarker(row: RawDataRow) {
    row.isGapMarker || row.navStatus == "GAP"
  }

  /** The port a row docks at, if it does: a row that is not a marker, has
      both coordinates, has status `"0.0"` and lies within the port zone of
      its nearest port docks at that port (its name trimmed). */
  function DockPort(row: RawDataRow, analyze: (real, real) -> PortAnalysis): Option<string> {
    if IsMarker(row) || row.latitude.None? || row.longitude.None? then None
    else
      var a := analyze(row.latitude.value, row.longitude.value);
      if row.navStatus == DockedStatus && InPort(a) then Some(Trim(a.nearestPort)) else None
  }

  /** A row docks exactly when it is a located, docked, non-marker row in
      the zone of its nearest port, and it docks at that port. */
  lemma DockPortSpec(row: RawDataRow, analyze: (real, real) -> PortAnalysis)
    ensures DockPort(row, analyze).Some? <==>
      !IsMarker(row) && row.latitude.Some? && row.longitude.Some? && row.navStatus == DockedStatus
      && InPort(analyze(row.latitude.value, row.longitude.value))
    ensures DockPort(row, analyze).Some? ==>
      DockPort(row, analyze).value == Trim(analyze(row.latitude.value, row.longitude.value).nearestPort)
  {
  }

  /** `JourneyBoundary`. The end index of the unfinished journey is the index
      of the last row, `-1` only for no rows at all. */
  datatype Boundary = Boundary(startIndex: nat, endIndex: int, startPort: string, endPort: string, isComplete: bool)

  /** The variables of the scan: the boundaries found so far and the open
      journey (`currentJourneyStart`, `currentStartPort`). */
  datatype ScanState = ScanState(boundaries: seq<Boundary>, currentStart: Option<nat>, currentPort: Option<string>)

  /** The port each row docks at, if it does. */
  function Docks(raw: seq<RawDataRow>, analyze: (real, real) -> PortAnalysis): (d: seq<Option<string>>)
    ensures |d| == |raw| && forall j :: 0 <= j < |raw| ==> d[j] == DockPort(raw[j], analyze)
  {
    seq(|raw|, j requires 0 <= j < |raw| => DockPort(raw[j], analyze))
  }

  /** What row `i`, docking at `dock` if anywhere, does to the scan: a dock
      row opens a journey when none is open, and closes the open one,
      opening the next, when it docks at another port. */
  function Step(st: ScanState, dock: Option<string>, i: nat): ScanState {
    match dock
    case None => st
    case Some(port) =>
      if st.currentStart.None? then ScanState(st.boundaries, Some(i), Some(port))
      else if st.currentPort.Some? && port != st.currentPort.value then
        ScanState(st.boundaries + [Boundary(st.currentStart.value, i, st.currentPort.value, port, true)], Some(i), Some(port))
      else st
  }

  /** The scan after the first `n` rows, given where each row docks. */
  function ScanUpTo(d: seq<Option<string>>, n: nat): ScanState
    requires n <= |d|
  {
    if n == 0 then ScanState([], None, None) else Step(ScanUpTo(d, n - 1), d[n - 1], n - 1)
  }

  /** The boundaries after the scan: the journey still open, if any, is
      added as an unfinished one that runs to the last row. */
  function Finish(st: ScanState, rowCount: nat): seq<Boundary> {
    if st.currentStart.Some? && st.currentPort.Some? then
      st.boundaries + [Boundary(st.currentStart.value, rowCount - 1, st.currentPort.value, UnknownPort, false)]
    else st.boundaries
  }

  function JourneyBoundaries(raw: seq<RawDataRow>, analyze: (real, real) -> PortAnalysis): seq<Boundary> {
    var d := Docks(raw, analyze);
    Finish(ScanUpTo(d, |d|), |raw|)
  }

  /** The boundary loop of `processRawData`. */
  method DetectBoundaries(rawData: seq<RawDataRow>, analyze: (real, real) -> PortAnalysis) returns (journeyBoundaries: seq<Boundary>)
    ensures journeyBoundaries == JourneyBoundaries(rawData, analyze)
  {
    ghost var d := Docks(rawData, analyze);
    journeyBoundaries := [];
    var currentJourneyStart: Option<nat> := None;
    var currentStartPort: Option<string> := None;
    for i := 0 to |rawData|
      invariant ScanState(journeyBoundaries, currentJourneyStart, currentStartPort) == ScanUpTo(d, i)
    {
      var row := rawData[i];
      assert d[i] == DockPort(row, analyze);
      if row.isGapMarker || row.navStatus == "GAP" {
        continue;
      }
      if row.latitude.None? || row.longitude.None? {
        continue;
      }
      var portDistances := analyze(row.latitude.value, row.longitude.value);
      var isInPort := portDistances.nearestDistance <= PortZoneDistanceKm;
      var isAtracado := row.navStatus == DockedStatus;
      if isAtracado && isInPort && currentJourneyStart.None? {
        currentJourneyStart := Some(i);
        currentStartPort := Some(Trim(portDistances.nearestPort));
      }
      if isAtracado && isInPort && currentJourneyStart.Some? && currentStartPort.Some? {
        var currentPort := Trim(portDistances.nearestPort);
        if currentPort != currentStartPort.value {
          journeyBoundaries := journeyBoundaries + [Boundary(currentJourneyStart.value, i, currentStartPort.value, currentPort, true)];
          currentJourneyStart := Some(i);
          currentStartPort := Some(currentPort);
        }
      }
    }
    if currentJourneyStart.Some? && currentStartPort.Some? {
      journeyBoundaries := journeyBoundaries + [Boundary(currentJourneyStart.value, |rawData| - 1, currentStartPort.value, UnknownPort, false)];
    }
  }

  // ---------------------------------------------------------------------
  // What the boundaries are
  // ---------------------------------------------------------------------

  /** No row before `n` docks. */
  predicate NoDockBefore(d: seq<Option<string>>, n: nat) {
    forall j :: 0 <= j < n && j < |d| ==> d[j].None?
  }

  /** Every row strictly between `s` and `e` that docks does so at `port`. */
  predicate StaysAt(d: seq<Option<string>>, s: nat, e: nat, port: string)
    requires e <= |d|
  {
    forall j :: s < j < e ==> d[j].None? || d[j].value == port
  }

  /** A finished journey: it leaves a dock at one port and ends at the
      first row after it that docks at another port. */
  predicate Closed(d: seq<Option<string>>, b: Boundary) {
    b.isComplete && b.startIndex < b.endIndex < |d|
    && d[b.startIndex] == Some(b.startPort)
    && d[b.endIndex] == Some(b.endPort)
    && b.startPort != b.endPort
    && StaysAt(d, b.startIndex, b.endIndex as nat, b.startPort)
  }

  /** Every boundary in `bs` is a finished journey. */
  predicate AllClosed(d: seq<Option<string>>, bs: seq<Boundary>) {
    forall k :: 0 <= k < |bs| ==> Closed(d, bs[k])
  }

  /** Each boundary starts where the one before it ends, at the port where
      that one ends. */
  predicate Chained(bs: seq<Boundary>) {
    forall k :: 0 <= k < |bs| - 1 ==> bs[k].endIndex == bs[k + 1].startIndex && bs[k].endPort == bs[k + 1].startPort
  }

  /** The open journey after `n` rows: it starts at a dock row at its port,
      no later row docks elsewhere, and it starts where the last finished
      journey ends (or at the first dock row when there is none). */
  predicate OpenJourney(d: seq<Option<string>>, n: nat, bs: seq<Boundary>, s: nat, port: string)
    requires n <= |d|
  {
    s < n && d[s] == Some(port) && StaysAt(d, s, n, port)
    && (bs == [] ==> NoDockBefore(d, s))
    && (bs != [] ==> bs[|bs| - 1].endIndex == s && bs[|bs| - 1].endPort == port
                     && NoDockBefore(d, bs[0].startIndex))
  }

  predicate ScanInv(d: seq<Option<string>>, n: nat, st: ScanState)
    requires n <= |d|
  {
    (st.currentStart.None? <==> st.currentPort.None?)
    && (st.currentStart.None? ==> st.boundaries == [] && NoDockBefore(d, n))
    && (st.currentStart.Some? ==> OpenJourney(d, n, st.boundaries, st.currentStart.value, st.currentPort.value))
    && AllClosed(d, st.boundaries)
    && Chained(st.boundaries)
  }

  lemma AllClosedSnoc(d: seq<Option<string>>, bs: seq<Boundary>, b: Boundary)
    requires AllClosed(d, bs) && Closed(d, b)
    ensures AllClosed(d, bs + [b])
  {
  }

  lemma ChainedSnoc(bs: seq<Boundary>, b: Boundary)
    requires Chained(bs)
    requires bs != [] ==> bs[|bs| - 1].endIndex == b.startIndex && bs[|bs| - 1].endPort == b.startPort
    ensures Chained(bs + [b])
  {
    var bs' := bs + [b];
    forall k | 0 <= k < |bs'| - 1
      ensures bs'[k].endIndex == bs'[k + 1].startIndex && bs'[k].endPort == bs'[k + 1].startPort
    {
      if k + 1 < |bs| {
        assert bs'[k] == bs[k] && bs'[k + 1] == bs[k + 1];
      }
    }
  }

  /** A row that does not dock, or docks at the open journey's port,
      changes nothing. */
  lemma StepSkip(d: seq<Option<string>>, n: nat, st: ScanState)
    requires n < |d| && ScanInv(d, n, st)
    requires d[n].None? || (st.currentStart.Some? && d[n] == st.currentPort)
    ensures ScanInv(d, n + 1, st)
  {
  }

  /** The first dock row opens the first journey. */
  lemma StepOpen(d: seq<Option<string>>, n: nat, st: ScanState, port: string)
    requires n < |d| && ScanInv(d, n, st)
    requires st.currentStart.None? && d[n] == Some(port)
    ensures ScanInv(d, n + 1, ScanState(st.boundaries, Some(n), Some(port)))
  {
  }

  /** A dock row at another port closes the open journey and opens the
      next. */
  lemma StepClose(d: seq<Option<string>>, n: nat, st: ScanState, port: string)
    requires n < |d| && ScanInv(d, n, st)
    requires st.currentStart.Some? && d[n] == Some(port) && port != st.currentPort.value
    ensures var b := Boundary(st.currentStart.value, n, st.currentPort.value, port, true);
      ScanInv(d, n + 1, ScanState(st.boundaries + [b], Some(n), Some(port)))
  {
    var bs, s := st.boundaries, st.currentStart.value;
    var b := Boundary(s, n, st.currentPort.value, port, true);
    assert OpenJourney(d, n, bs, s, st.currentPort.value);
    assert Closed(d, b);
    AllClosedSnoc(d, bs, b);
    ChainedSnoc(bs, b);
    var bs' := bs + [b];
    assert bs'[0].startIndex == (if bs == [] then s else bs[0].startIndex);
    assert OpenJourney(d, n + 1, bs', n, port);
  }

  lemma StepKeepsInv(d: seq<Option<string>>, n: nat, st: ScanState)
    requires n < |d| && ScanInv(d, n, st)
    ensures ScanInv(d, n + 1, Step(st, d[n], n))
  {
    match d[n]
    case None =>
      StepSkip(d, n, st);
    case Some(port) =>
      if st.currentStart.None? {
        StepOpen(d, n, st, port);
      } else if port != st.currentPort.value {
        StepClose(d, n, st, port);
      } else {
        StepSkip(d, n, st);
      }
  }

  lemma {:induction false} ScanInvariant(d: seq<Option<string>>, n: nat)
    requires n <= |d|
    ensures ScanInv(d, n, ScanUpTo(d, n))
  {
    if n > 0 {
      ScanInvariant(d, n - 1);
      StepKeepsInv(d, n - 1, ScanUpTo(d, n - 1));
    }
  }

  /** The boundaries when a journey is still open at the end. */
  lemma OpenAtEnd(d: seq<Option<string>>, st: ScanState)
    requires ScanInv(d, |d|, st) && st.currentStart.Some?
    ensures var bs := Finish(st, |d|);
      var last := bs[|bs| - 1];
      !NoDockBefore(d, |d|)
      && NoDockBefore(d, bs[0].startIndex)
      && Chained(bs)
      && (forall k :: 0 <= k < |bs| - 1 ==> Closed(d, bs[k]))
      && !last.isComplete && last.endIndex == |d| - 1 && last.endPort == UnknownPort
      && last.startIndex < |d| && d[last.startIndex] == Some(last.startPort)
      && StaysAt(d, last.startIndex, |d|, last.startPort)
  {
    var s, port := st.currentStart.value, st.currentPort.value;
    var last := Boundary(s, |d| - 1, port, UnknownPort, false);
    var bs := st.boundaries + [last];
    assert Finish(st, |d|) == bs;
    assert OpenJourney(d, |d|, st.boundaries, s, port);
    ChainedSnoc(st.boundaries, last);
    assert forall k :: 0 <= k < |bs| - 1 ==> bs[k] == st.boundaries[k];
    assert bs[0].startIndex == (if st.boundaries == [] then s else st.boundaries[0].startIndex);
  }

  /** The boundaries cut the rows into journeys: there are none exactly when
      no row docks; the first starts at the first dock row; every boundary
      but the last is a finished journey between two different ports that
      ends at the first dock at another port; each starts where the one
      before it ends; and the last is the unfinished journey from the last
      port reached to the last row, towards an unknown port. */
  lemma BoundariesSpec(raw: seq<RawDataRow>, analyze: (real, real) -> PortAnalysis)
    ensures var d, bs := Docks(raw, analyze), JourneyBoundaries(raw, analyze);
      (bs == [] <==> NoDockBefore(d, |d|))
      && (bs != [] ==>
            NoDockBefore(d, bs[0].startIndex)
            && Chained(bs)
            && (forall k :: 0 <= k < |bs| - 1 ==> Closed(d, bs[k]))
            && var last := bs[|bs| - 1];
               !last.isComplete && last.endIndex == |d| - 1 && last.endPort == UnknownPort
               && last.startIndex < |d| && d[last.startIndex] == Some(last.startPort)
               && StaysAt(d, last.startIndex, |d|, last.startPort))
  {
    var d := Docks(raw, analyze);
    ScanInvariant(d, |d|);
    var st := ScanUpTo(d, |d|);
    if st.currentStart.Some? {
      OpenAtEnd(d, st);
    }
  }
}
