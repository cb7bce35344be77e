/** Gap detection on the combined, time-sorted rows (backend/index.js): a
    synthetic `"GAP"` row goes after every pair of consecutive rows that lie
    more than half a second apart. */
module GapMarkers {
  import opened Wrappers
  import opened JsBuiltins
  import opened CsvText

  const MaxGapThresholdMs := 500

  // ---------------------------------------------------------------------
  // calculateGapDuration
  // ---------------------------------------------------------------------

  /** `calculateGapDuration(startTime, endTime)`: the difference in seconds
      with two decimals and an `s`; an unreadable date makes the difference
      `NaN`. */
  function CalculateGapDuration(startTime: string, endTime: string, host: Host): string {
    var start, end := host.parseDate(startTime), host.parseDate(endTime);
    if start.Some? && end.Some? then host.secondsToFixed2(end.value - start.value) + "s" else "NaNs"
  }

  // ---------------------------------------------------------------------
  // insertGapMarkers
  // ---------------------------------------------------------------------

  /** A gap follows row `i`: a next row exists, both rows have a time, both
      times read as dates, and they lie more than the threshold apart. */
  predicate GapAfter(rows: seq<CsvRow>, i: nat, host: Host) {
    i + 1 < |rows|
    && var current, next := Cell(rows[i], ColTime), Cell(rows[i + 1], ColTime);
       Truthy(current) && Truthy(next)
       && var currentMs, nextMs := host.parseDate(current.value), host.parseDate(next.value);
          currentMs.Some? && nextMs.Some? && nextMs.value - currentMs.value > MaxGapThresholdMs
  }

  /** The marker put after `current` when `next` follows it too late: it
      carries the time of `current`, `null` position and speed, status
      `"GAP"`, and the gap's length. */
  function GapMarker(current: CsvRow, next: CsvRow, host: Host): (marker: CsvRow)
    requires Truthy(Cell(current, ColTime)) && Truthy(Cell(next, ColTime))
    ensures marker.isGapMarker && Cell(marker, ColTime) == Cell(current, ColTime)
    ensures Cell(marker, ColLat).None? && Cell(marker, ColLon).None? && Cell(marker, ColSpeed).None?
    ensures Cell(marker, ColNavStatus) == Some("GAP")
  {
    var currentTime, nextTime := Cell(current, ColTime).value, Cell(next, ColTime).value;
    CsvRow(
      map[ColTime := Some(currentTime), ColLat := None, ColLon := None, ColSpeed := None, ColNavStatus := Some("GAP")],
      true,
      Some(CalculateGapDuration(currentTime, nextTime, host)))
  }

  /** What the scan emits for row `i`: the row, then its marker if a gap
      follows it. */
  function Chunk(rows: seq<CsvRow>, i: nat, host: Host): seq<CsvRow>
    requires i < |rows|
  {
    if GapAfter(rows, i, host) then [rows[i], GapMarker(rows[i], rows[i + 1], host)] else [rows[i]]
  }

  /** The output after the first `n` rows. */
  function Marked(rows: seq<CsvRow>, n: nat, host: Host): seq<CsvRow>
    requires n <= |rows|
  {
    if n == 0 then [] else Marked(rows, n - 1, host) + Chunk(rows, n - 1, host)
  }

  function WithGapMarkers(rows: seq<CsvRow>, host: Host): seq<CsvRow> {
    Marked(rows, |rows|, host)
  }

  /** `insertGapMarkers(rows)`. */
  method InsertGapMarkers(rows: seq<CsvRow>, host: Host) returns (result: seq<CsvRow>)
    ensures result == WithGapMarkers(rows, host)
  {
    if |rows| == 0 {
      return rows;
    }
    result := [];
    for i := 0 to |rows|
      invariant result == Marked(rows, i, host)
    {
      var currentRow := rows[i];
      result := result + [currentRow];
      if i < |rows| - 1 {
        var nextRow := rows[i + 1];
        var currentTime, nextTime := Cell(currentRow, ColTime), Cell(nextRow, ColTime);
        if Truthy(currentTime) && Truthy(nextTime) {
          var currentMs, nextMs := host.parseDate(currentTime.value), host.parseDate(nextTime.value);
          if currentMs.Some? && nextMs.Some? {
            var gapMs := nextMs.value - currentMs.value;
            if gapMs > MaxGapThresholdMs {
              result := result + [GapMarker(currentRow, nextRow, host)];
            }
          }
        }
      }
    }
  }

  // ---------------------------------------------------------------------
  // What the markers do to the sequence
  // ---------------------------------------------------------------------

  /** The number of gaps after the first `n` rows. */
  function GapCount(rows: seq<CsvRow>, n: nat, host: Host): nat
    requires n <= |rows|
  {
    if n == 0 then 0 else GapCount(rows, n - 1, host) + (if GapAfter(rows, n - 1, host) then 1 else 0)
  }

  /** The rows that are not gap markers, in order. */
  function Unmarked(rows: seq<CsvRow>): (r: seq<CsvRow>)
    ensures |r| <= |rows|
  {
    if rows == [] then []
    else Unmarked(rows[..|rows| - 1]) + (if rows[|rows| - 1].isGapMarker then [] else [rows[|rows| - 1]])
  }

  function MarkerCount(rows: seq<CsvRow>): nat {
    |rows| - |Unmarked(rows)|
  }

  lemma {:induction false} UnmarkedAppend(a: seq<CsvRow>, b: seq<CsvRow>)
    ensures Unmarked(a + b) == Unmarked(a) + Unmarked(b)
    decreases |b|
  {
    if b == [] {
      assert a + b == a;
    } else {
      var n := |b| - 1;
      assert (a + b)[..|a + b| - 1] == a + b[..n];
      assert b[..n] + [b[n]] == b;
      UnmarkedAppend(a, b[..n]);
    }
  }

  lemma ChunkUnmarked(rows: seq<CsvRow>, i: nat, host: Host)
    requires i < |rows| && !rows[i].isGapMarker
    ensures Unmarked(Chunk(rows, i, host)) == [rows[i]]
  {
    var chunk := Chunk(rows, i, host);
    if GapAfter(rows, i, host) {
      assert chunk[..1] == [rows[i]];
    } else {
      assert chunk[..0] == [];
    }
  }

  lemma SliceSnoc<T>(s: seq<T>, n: nat)
    requires 0 < n <= |s|
    ensures s[..n - 1] + [s[n - 1]] == s[..n]
  {
  }

  /** Taking the markers out of the output for the first `n` rows gives
      those rows back when none of them was a marker before. */
  lemma {:induction false} MarkedUnmarked(rows: seq<CsvRow>, n: nat, host: Host)
    requires n <= |rows|
    requires forall k :: 0 <= k < |rows| ==> !rows[k].isGapMarker
    ensures Unmarked(Marked(rows, n, host)) == rows[..n]
  {
    if n > 0 {
      MarkedUnmarked(rows, n - 1, host);
      ChunkUnmarked(rows, n - 1, host);
      UnmarkedAppend(Marked(rows, n - 1, host), Chunk(rows, n - 1, host));
      SliceSnoc(rows, n);
    }
  }

  /** Removing the markers from the output gives back the input, in order;
      the output holds one marker per gap. */
  lemma MarkersRemoved(rows: seq<CsvRow>, host: Host)
    requires forall k :: 0 <= k < |rows| ==> !rows[k].isGapMarker
    ensures Unmarked(WithGapMarkers(rows, host)) == rows
    ensures MarkerCount(WithGapMarkers(rows, host)) == GapCount(rows, |rows|, host)
    ensures |WithGapMarkers(rows, host)| == |rows| + GapCount(rows, |rows|, host)
  {
    MarkedUnmarked(rows, |rows|, host);
    MarkedLength(rows, |rows|, host);
    assert rows[..|rows|] == rows;
  }

  /** Later output extends earlier output. */
  lemma {:induction false} MarkedPrefix(rows: seq<CsvRow>, n: nat, m: nat, host: Host)
    requires n <= m <= |rows|
    ensures Marked(rows, n, host) <= Marked(rows, m, host)
    decreases m - n
  {
    if n < m {
      MarkedPrefix(rows, n, m - 1, host);
    }
  }

  lemma {:induction false} MarkedLength(rows: seq<CsvRow>, n: nat, host: Host)
    requires n <= |rows|
    ensures |Marked(rows, n, host)| == n + GapCount(rows, n, host)
  {
    if n > 0 {
      MarkedLength(rows, n - 1, host);
    }
  }

  /** Where row `i` lands in the output: after the rows before it and the
      markers that follow them. */
  function Position(rows: seq<CsvRow>, i: nat, host: Host): nat
    requires i <= |rows|
  {
    i + GapCount(rows, i, host)
  }

  /** Row `i` sits at its position; a marker follows it exactly when a gap
      follows it (otherwise the next row does, or nothing at all after the
      last row), and that marker is built from row `i` and row `i + 1`. */
  lemma MarkerPlacement(rows: seq<CsvRow>, i: nat, host: Host)
    requires i < |rows|
    ensures var out, p := WithGapMarkers(rows, host), Position(rows, i, host);
      p < |out| && out[p] == rows[i]
      && (GapAfter(rows, i, host) ==> p + 1 < |out| && out[p + 1] == GapMarker(rows[i], rows[i + 1], host))
      && (i + 1 < |rows| ==> Position(rows, i + 1, host) == p + (if GapAfter(rows, i, host) then 2 else 1))
      && (i + 1 == |rows| ==> |out| == p + 1)
  {
    var out := WithGapMarkers(rows, host);
    MarkedPrefix(rows, i + 1, |rows|, host);
    MarkedLength(rows, i, host);
    MarkedLength(rows, i + 1, host);
    var upTo := Marked(rows, i + 1, host);
    assert upTo == Marked(rows, i, host) + Chunk(rows, i, host);
    assert out[Position(rows, i, host)] == upTo[Position(rows, i, host)];
    if GapAfter(rows, i, host) {
      assert out[Position(rows, i, host) + 1] == upTo[Position(rows, i, host) + 1];
    }
  }

  /** A marker's duration is the gap in seconds with two decimals, for a gap
      over the threshold. */
  lemma MarkerDuration(rows: seq<CsvRow>, i: nat, host: Host)
    requires i < |rows| && GapAfter(rows, i, host)
    ensures var currentMs := host.parseDate(Cell(rows[i], ColTime).value).value;
      var nextMs := host.parseDate(Cell(rows[i + 1], ColTime).value).value;
      nextMs - currentMs > MaxGapThresholdMs
      && GapMarker(rows[i], rows[i + 1], host).gapDuration == Some(host.secondsToFixed2(nextMs - currentMs) + "s")
  {
  }
}
