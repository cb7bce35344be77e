/** `detectGapsInJourney` (frontend/src/hooks/useCSVInterval.ts): one gap
    record per marker row of a journey, and the marker-free rows the
    intervals are cut from. */
module GapDetection {
  import opened Wrappers
  import opened Boundaries

  /** `GapInterval`. The journey indices are `-1` until the journey loop
      files the gap under its journey. */
  datatype GapInterval = GapInterval(
    startTime: string,
    endTime: string,
    duration: string,
    reason: string,
    beforeJourneyIndex: int,
    afterJourneyIndex: int)

  const GapReasonPrefix := "Gap detectado: "
  const UnknownGapDuration := "duración desconocida"
  const ZeroGapDuration := "0s"

  /** The first row at or after `j` that is not a marker. */
  function NextValid(rows: seq<RawDataRow>, j: nat): (r: Option<nat>)
    ensures r.Some? ==> j <= r.value < |rows| && !IsMarker(rows[r.value])
    decreases |rows| - j
  {
    if j >= |rows| then None
    else if !IsMarker(rows[j]) then Some(j)
    else NextValid(rows, j + 1)
  }

  /** `NextValid` finds the first non-marker row at or after `j`, and finds
      none exactly when every row from `j` on is a marker. */
  lemma {:induction false} NextValidSpec(rows: seq<RawDataRow>, j: nat)
    ensures match NextValid(rows, j)
      case None => forall k :: j <= k < |rows| ==> IsMarker(rows[k])
      case Some(k) => j <= k < |rows| && !IsMarker(rows[k])
                      && forall m :: j <= m < k ==> IsMarker(rows[m])
    decreases |rows| - j
  {
    if j < |rows| && IsMarker(rows[j]) {
      NextValidSpec(rows, j + 1);
    }
  }

  /** `value || fallback` for an optional text: an absent or empty text
      falls back. */
  function OrElse(value: Option<string>, fallback: string): (r: string)
    ensures value.Some? && value.value != "" ==> r == value.value
    ensures value.None? || value.value == "" ==> r == fallback
  {
    if value.Some? && value.value != "" then value.value else fallback
  }

  /** The record for the marker at row `i`: it starts at the marker's time
      and ends at the time of the next real row (the marker's own time when
      there is none or that time is empty). */
  function GapFor(rows: seq<RawDataRow>, i: nat): GapInterval
    requires i < |rows|
  {
    var row := rows[i];
    var next := NextValid(rows, i + 1);
    var nextTime := if next.Some? then Some(rows[next.value].timestamp) else None;
    GapInterval(
      row.timestamp,
      OrElse(nextTime, row.timestamp),
      OrElse(row.gapDuration, ZeroGapDuration),
      GapReasonPrefix + OrElse(row.gapDuration, UnknownGapDuration),
      -1, -1)
  }

  /** The records for the markers among the first `n` rows. */
  function GapsUpTo(rows: seq<RawDataRow>, n: nat): seq<GapInterval>
    requires n <= |rows|
  {
    if n == 0 then []
    else GapsUpTo(rows, n - 1) + (if IsMarker(rows[n - 1]) then [GapFor(rows, n - 1)] else [])
  }

  function JourneyGaps(rows: seq<RawDataRow>): seq<GapInterval> {
    GapsUpTo(rows, |rows|)
  }

  /** `detectGapsInJourney(journeyData)`. */
  method DetectGapsInJourney(journeyData: seq<RawDataRow>) returns (gaps: seq<GapInterval>)
    ensures gaps == JourneyGaps(journeyData)
  {
    gaps := [];
    for i := 0 to |journeyData|
      invariant gaps == GapsUpTo(journeyData, i)
    {
      var row := journeyData[i];
      if row.isGapMarker || row.navStatus == "GAP" {
        var nextValidRow: Option<nat> := None;
        var j := i + 1;
        while j < |journeyData|
          invariant i + 1 <= j <= |journeyData|
          invariant nextValidRow.None? ==> NextValid(journeyData, i + 1) == NextValid(journeyData, j)
          invariant nextValidRow.Some? ==> NextValid(journeyData, i + 1) == nextValidRow
          decreases |journeyData| - j
        {
          if !journeyData[j].isGapMarker && journeyData[j].navStatus != "GAP" {
            nextValidRow := Some(j);
            break;
          }
          j := j + 1;
        }
        var endTime := if nextValidRow.Some? && journeyData[nextValidRow.value].timestamp != ""
          then journeyData[nextValidRow.value].timestamp else row.timestamp;
        var duration := if row.gapDuration.Some? && row.gapDuration.value != "" then row.gapDuration.value else "0s";
        var reason := "Gap detectado: " + (if row.gapDuration.Some? && row.gapDuration.value != "" then row.gapDuration.value else "duración desconocida");
        gaps := gaps + [GapInterval(row.timestamp, endTime, duration, reason, -1, -1)];
      }
    }
  }

  // ---------------------------------------------------------------------
  // The marker-free rows
  // ---------------------------------------------------------------------

  /** `journeyDataRaw.filter(row => !row.isGapMarker && row.navStatus !==
      "GAP")`. */
  function RealRows(rows: seq<RawDataRow>): (r: seq<RawDataRow>)
    ensures |r| <= |rows|
  {
    if rows == [] then []
    else RealRows(rows[..|rows| - 1]) + (if IsMarker(rows[|rows| - 1]) then [] else [rows[|rows| - 1]])
  }

  /** The number of markers among the first `n` rows. */
  function MarkersUpTo(rows: seq<RawDataRow>, n: nat): nat
    requires n <= |rows|
  {
    if n == 0 then 0 else MarkersUpTo(rows, n - 1) + (if IsMarker(rows[n - 1]) then 1 else 0)
  }

  /** One record per marker, and the marker-free rows are the other rows:
      records and real rows together account for every row. */
  lemma {:induction false} GapsPerMarker(rows: seq<RawDataRow>, n: nat)
    requires n <= |rows|
    ensures |GapsUpTo(rows, n)| == MarkersUpTo(rows, n)
    ensures |GapsUpTo(rows, n)| + |RealRows(rows[..n])| == n
  {
    if n > 0 {
      GapsPerMarker(rows, n - 1);
      assert rows[..n][..n - 1] == rows[..n - 1];
    }
  }

  /** The record for the `m`-th marker among the first `n` rows is
      `GapFor` of that marker's row. */
  lemma {:induction false} GapsInOrder(rows: seq<RawDataRow>, n: nat, i: nat)
    requires i < n <= |rows| && IsMarker(rows[i])
    ensures var m := MarkersUpTo(rows, i);
      m < |GapsUpTo(rows, n)| && GapsUpTo(rows, n)[m] == GapFor(rows, i)
  {
    GapsPerMarker(rows, i);
    GapsPerMarker(rows, n);
    if n - 1 == i {
    } else {
      GapsInOrder(rows, n - 1, i);
      MarkersMonotone(rows, i + 1, n - 1);
      GapsPerMarker(rows, n - 1);
    }
  }

  lemma {:induction false} MarkersMonotone(rows: seq<RawDataRow>, i: nat, n: nat)
    requires i <= n <= |rows|
    ensures MarkersUpTo(rows, i) <= MarkersUpTo(rows, n)
    decreases n - i
  {
    if i < n {
      MarkersMonotone(rows, i, n - 1);
    }
  }

  /** A journey has gaps exactly when one of its rows is a marker. */
  lemma {:induction false} HasGapsIffMarker(rows: seq<RawDataRow>, n: nat)
    requires n <= |rows|
    ensures |GapsUpTo(rows, n)| > 0 <==> exists k :: 0 <= k < n && IsMarker(rows[k])
  {
    if n > 0 {
      HasGapsIffMarker(rows, n - 1);
    }
  }

  /** A gap record ends at the next real row's time when there is one with
      a time, and at its own start otherwise (no real row follows, or the
      next one has an empty time); its duration is the marker's duration,
      "0s" when the marker carries none or an empty one, and its reason
      names that duration, or "duración desconocida". Records are filed
      under no journey yet. */
  lemma GapForSpec(rows: seq<RawDataRow>, i: nat)
    requires i < |rows|
    ensures var g, d := GapFor(rows, i), rows[i].gapDuration;
      g.startTime == rows[i].timestamp
      && (forall k ::
            (i < k < |rows| && !IsMarker(rows[k]) && (forall m :: i < m < k ==> IsMarker(rows[m]))
             && rows[k].timestamp != "") ==> g.endTime == rows[k].timestamp)
      && (forall k ::
            (i < k < |rows| && !IsMarker(rows[k]) && (forall m :: i < m < k ==> IsMarker(rows[m]))
             && rows[k].timestamp == "") ==> g.endTime == rows[i].timestamp)
      && ((forall k :: i < k < |rows| ==> IsMarker(rows[k])) ==> g.endTime == rows[i].timestamp)
      && (d.Some? && d.value != "" ==> g.duration == d.value && g.reason == GapReasonPrefix + d.value)
      && (d.None? || d.value == "" ==> g.duration == ZeroGapDuration && g.reason == GapReasonPrefix + UnknownGapDuration)
      && g.beforeJourneyIndex == -1 && g.afterJourneyIndex == -1
  {
    NextValidSpec(rows, i + 1);
  }
}
