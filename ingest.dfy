/** `processCSVsToRawData` (backend/index.js): the rows of every CSV export
    are concatenated, put in time order, given their gap markers and
    normalised. */
module Ingest {
  import opened Wrappers
  import opened JsBuiltins
  import opened CsvText
  import opened GapMarkers

  const NoRowsError := "No se pudieron leer filas válidas"

  // ---------------------------------------------------------------------
  // Chronological sort
  // ---------------------------------------------------------------------

  /** The instant of a row as the comparator sees it: the `time` cell read
      as a date, `None` when the cell is empty or missing or is not a date. */
  function TimeKey(row: CsvRow, host: Host): Option<int> {
    var t := Cell(row, ColTime);
    if Truthy(t) then host.parseDate(t.value) else None
  }

  /** The comparator of the sort: `0` when either row has no instant (a
      missing time, or a `NaN` difference, which the sort reads as `0`),
      otherwise the difference of the instants. */
  function Compare(a: CsvRow, b: CsvRow, host: Host): (c: int)
    ensures TimeKey(a, host).None? || TimeKey(b, host).None? ==> c == 0
    ensures TimeKey(a, host).Some? && TimeKey(b, host).Some? ==>
      (c <= 0 <==> TimeKey(a, host).value <= TimeKey(b, host).value)
  {
    var ka, kb := TimeKey(a, host), TimeKey(b, host);
    if ka.None? || kb.None? then 0 else ka.value - kb.value
  }

  /** Puts `x` into `sorted`: behind the last row that does not compare
      greater than it. */
  function Insert(sorted: seq<CsvRow>, x: CsvRow, host: Host): seq<CsvRow> {
    if sorted == [] then [x]
    else if Compare(sorted[|sorted| - 1], x, host) <= 0 then sorted + [x]
    else Insert(sorted[..|sorted| - 1], x, host) + [sorted[|sorted| - 1]]
  }

  /** `combined.sort(comparator)`, as a stable insertion sort. */
  function SortByTime(rows: seq<CsvRow>, host: Host): seq<CsvRow> {
    if rows == [] then [] else Insert(SortByTime(rows[..|rows| - 1], host), rows[|rows| - 1], host)
  }

  predicate AllTimed(rows: seq<CsvRow>, host: Host) {
    forall k :: 0 <= k < |rows| ==> TimeKey(rows[k], host).Some?
  }

  /** No row compares greater than a row after it. */
  predicate TimeSorted(rows: seq<CsvRow>, host: Host) {
    forall i, j :: 0 <= i < j < |rows| ==> Compare(rows[i], rows[j], host) <= 0
  }

  lemma {:induction false} InsertPermutes(sorted: seq<CsvRow>, x: CsvRow, host: Host)
    ensures multiset(Insert(sorted, x, host)) == multiset(sorted) + multiset{x}
    decreases |sorted|
  {
    if sorted != [] && Compare(sorted[|sorted| - 1], x, host) > 0 {
      var init, last := sorted[..|sorted| - 1], sorted[|sorted| - 1];
      InsertPermutes(init, x, host);
      assert sorted == init + [last];
    }
  }

  /** The sort only reorders the rows. */
  lemma {:induction false} SortPermutes(rows: seq<CsvRow>, host: Host)
    ensures multiset(SortByTime(rows, host)) == multiset(rows)
    ensures |SortByTime(rows, host)| == |rows|
  {
    if rows != [] {
      var init, last := rows[..|rows| - 1], rows[|rows| - 1];
      SortPermutes(init, host);
      InsertPermutes(SortByTime(init, host), last, host);
      assert rows == init + [last];
    }
    assert |multiset(SortByTime(rows, host))| == |multiset(rows)|;
  }

  lemma {:induction false} InsertSorted(sorted: seq<CsvRow>, x: CsvRow, host: Host)
    requires AllTimed(sorted, host) && TimeKey(x, host).Some? && TimeSorted(sorted, host)
    ensures TimeSorted(Insert(sorted, x, host), host) && AllTimed(Insert(sorted, x, host), host)
    decreases |sorted|
  {
    InsertPermutes(sorted, x, host);
    var r := Insert(sorted, x, host);
    forall k | 0 <= k < |r|
      ensures TimeKey(r[k], host).Some?
    {
      assert r[k] in multiset(r);
    }
    if sorted != [] && Compare(sorted[|sorted| - 1], x, host) > 0 {
      var init, last := sorted[..|sorted| - 1], sorted[|sorted| - 1];
      InsertSorted(init, x, host);
      var front := Insert(init, x, host);
      InsertPermutes(init, x, host);
      forall i | 0 <= i < |front|
        ensures Compare(front[i], last, host) <= 0
      {
        assert front[i] in multiset(init) + multiset{x};
      }
    }
  }

  /** When every row has an instant, the sorted rows are in time order. */
  lemma {:induction false} SortSorts(rows: seq<CsvRow>, host: Host)
    requires AllTimed(rows, host)
    ensures TimeSorted(SortByTime(rows, host), host)
  {
    if rows != [] {
      var init := rows[..|rows| - 1];
      SortSorts(init, host);
      SortPermutes(init, host);
      var s := SortByTime(init, host);
      forall k | 0 <= k < |s|
        ensures TimeKey(s[k], host).Some?
      {
        assert s[k] in multiset(init);
      }
      InsertSorted(s, rows[|rows| - 1], host);
    }
  }

  /** Rows already in order, whether or not they all have an instant, are
      left as they are: the sort is stable. */
  lemma {:induction false} SortOfSorted(rows: seq<CsvRow>, host: Host)
    requires TimeSorted(rows, host)
    ensures SortByTime(rows, host) == rows
  {
    if rows != [] {
      var init := rows[..|rows| - 1];
      SortOfSorted(init, host);
    }
  }

  /** Sorting twice is sorting once, when every row has an instant. */
  lemma SortIdempotent(rows: seq<CsvRow>, host: Host)
    requires AllTimed(rows, host)
    ensures SortByTime(SortByTime(rows, host), host) == SortByTime(rows, host)
  {
    SortSorts(rows, host);
    SortOfSorted(SortByTime(rows, host), host);
  }

  // ---------------------------------------------------------------------
  // processCSVsToRawData
  // ---------------------------------------------------------------------

  /** What `processCSVsToRawData` returns: the failure object, or the
      normalised rows with their `meta` counts. */
  datatype RawDataResult =
    | RawDataFailure(error: string)
    | RawDataSuccess(data: seq<NormalizedRow>, totalRows: nat, filesProcessed: nat, gapsDetected: int)

  /** The rows of each export, export by export. */
  function RowsOfEach(csvContents: seq<string>, delimiter: string): (parts: seq<seq<CsvRow>>)
    ensures |parts| == |csvContents|
  {
    seq(|csvContents|, i requires 0 <= i < |csvContents| => CsvTextToRows(csvContents[i], delimiter))
  }

  /** The rows of all parts, one part after the other. */
  function Concat(parts: seq<seq<CsvRow>>): seq<CsvRow> {
    if parts == [] then [] else Concat(parts[..|parts| - 1]) + parts[|parts| - 1]
  }

  lemma ConcatSnoc(parts: seq<seq<CsvRow>>, i: nat)
    requires i < |parts|
    ensures Concat(parts[..i + 1]) == Concat(parts[..i]) + parts[i]
  {
    assert parts[..i + 1][..i] == parts[..i];
  }

  /** All the exports' rows, in the order the exports come. */
  function Combined(csvContents: seq<string>, delimiter: string): seq<CsvRow> {
    Concat(RowsOfEach(csvContents, delimiter))
  }

  /** The concatenation is empty exactly when every part is, and holds no
      gap marker when no part does. */
  lemma {:induction false} ConcatRows(parts: seq<seq<CsvRow>>)
    requires forall i, k :: 0 <= i < |parts| && 0 <= k < |parts[i]| ==> !parts[i][k].isGapMarker
    ensures var rows := Concat(parts);
      (rows == [] <==> forall i :: 0 <= i < |parts| ==> parts[i] == [])
      && forall k :: 0 <= k < |rows| ==> !rows[k].isGapMarker
  {
    if parts != [] {
      var init := parts[..|parts| - 1];
      assert forall i :: 0 <= i < |init| ==> init[i] == parts[i];
      ConcatRows(init);
      var front, last := Concat(init), parts[|parts| - 1];
      assert forall k :: 0 <= k < |last| ==> !last[k].isGapMarker;
      assert forall k :: 0 <= k < |front + last| ==> (front + last)[k] == if k < |front| then front[k] else last[k - |front|];
    }
  }

  /** No row is gathered exactly when every export yields no row; the
      gathered rows are never gap markers. */
  lemma CombinedRows(csvContents: seq<string>, delimiter: string)
    ensures var rows := Combined(csvContents, delimiter);
      (rows == [] <==> forall i :: 0 <= i < |csvContents| ==> CsvTextToRows(csvContents[i], delimiter) == [])
      && forall k :: 0 <= k < |rows| ==> !rows[k].isGapMarker
  {
    var parts: seq<seq<CsvRow>> := RowsOfEach(csvContents, delimiter);
    forall i, k | 0 <= i < |parts| && 0 <= k < |parts[i]|
      ensures !parts[i][k].isGapMarker
    {
      CsvRowsCount(csvContents[i], delimiter);
    }
    ConcatRows(parts);
    assert forall i :: 0 <= i < |parts| ==> parts[i] == CsvTextToRows(csvContents[i], delimiter);
  }

  /** Sorting and then marking the gathered rows keeps every row, puts them
      in time order when each has an instant, and adds one marker per gap. */
  lemma SortedWithGaps(combined: seq<CsvRow>, host: Host)
    requires forall k :: 0 <= k < |combined| ==> !combined[k].isGapMarker
    ensures var sorted := SortByTime(combined, host);
      var withGaps := WithGapMarkers(sorted, host);
      multiset(sorted) == multiset(combined) && |sorted| == |combined|
      && (AllTimed(combined, host) ==> TimeSorted(sorted, host))
      && Unmarked(withGaps) == sorted
      && |withGaps| == |combined| + GapCount(sorted, |sorted|, host)
  {
    var sorted := SortByTime(combined, host);
    SortPermutes(combined, host);
    if AllTimed(combined, host) {
      SortSorts(combined, host);
    }
    forall k | 0 <= k < |sorted|
      ensures !sorted[k].isGapMarker
    {
      assert sorted[k] in multiset(combined);
    }
    MarkersRemoved(sorted, host);
  }

  /** `rows.map(normalizeRow)`. */
  function Normalized(rows: seq<CsvRow>, host: Host): (data: seq<NormalizedRow>)
    ensures |data| == |rows|
  {
    seq(|rows|, k requires 0 <= k < |rows| => NormalizeRow(rows[k], host.parseFloat))
  }

  /** The loop of `processCSVsToRawData` that appends the rows of each
      export in turn, skipping the exports that yield none. */
  method GatherRows(csvContents: seq<string>, delimiter: string) returns (combined: seq<CsvRow>)
    ensures combined == Combined(csvContents, delimiter)
  {
    ghost var parts := RowsOfEach(csvContents, delimiter);
    combined := [];
    for i := 0 to |csvContents|
      invariant combined == Concat(parts[..i])
    {
      var rows := CsvTextToRows(csvContents[i], delimiter);
      assert rows == parts[i];
      if |rows| != 0 {
        combined := combined + rows;
      }
      ConcatSnoc(parts, i);
    }
    assert parts[..|parts|] == parts;
  }

  /** `processCSVsToRawData(csvContents, delimiter)`. */
  method ProcessCsvsToRawData(csvContents: seq<string>, delimiter: string, host: Host) returns (result: RawDataResult)
    ensures result.RawDataFailure? <==> forall i :: 0 <= i < |csvContents| ==> CsvTextToRows(csvContents[i], delimiter) == []
    ensures result.RawDataFailure? ==> result.error == NoRowsError
    ensures result.RawDataSuccess? ==>
      var combined := Combined(csvContents, delimiter);
      var sorted := SortByTime(combined, host);
      var withGaps := WithGapMarkers(sorted, host);
      multiset(sorted) == multiset(combined)
      && (AllTimed(combined, host) ==> TimeSorted(sorted, host))
      && Unmarked(withGaps) == sorted
      && result.data == Normalized(withGaps, host)
      && result.totalRows == |withGaps| == |combined| + result.gapsDetected
      && result.gapsDetected == GapCount(sorted, |sorted|, host)
      && result.filesProcessed == |csvContents|
  {
    var combined := GatherRows(csvContents, delimiter);
    CombinedRows(csvContents, delimiter);
    if |combined| == 0 {
      return RawDataFailure(NoRowsError);
    }
    SortedWithGaps(combined, host);
    combined := SortByTime(combined, host);
    var combinedWithGaps := InsertGapMarkers(combined, host);
    var gapsDetected := |combinedWithGaps| - |combined|;
    var normalizedData := Normalized(combinedWithGaps, host);
    result := RawDataSuccess(normalizedData, |normalizedData|, |csvContents|, gapsDetected);
  }
}
