/** Reading one CSV export into rows keyed by its header line, and the
    normalisation the backend applies to every row before it sends the rows
    to the browser (backend/index.js). */
module CsvText {
  import opened Wrappers
  import opened JsBuiltins

  const ColLat := "00-lathr [deg]"
  const ColLon := "01-lonhr [deg]"
  const ColSpeed := "04-speed [knots]"
  const ColNavStatus := "06-navstatus [adim]"
  const ColTime := "time"

  /** The cells of a row object by column name; `None` is `null`. */
  type Cells = map<string, Option<string>>

  /** A row object as the backend handles it: the cells, plus the two fields
      only a gap marker sets (a CSV row leaves them `undefined`). */
  datatype CsvRow = CsvRow(cells: Cells, isGapMarker: bool, gapDuration: Option<string>)

  /** JavaScript truthiness of a cell: present, not `null`, not empty. */
  predicate Truthy(cell: Option<string>) {
    cell.Some? && cell.value != ""
  }

  /** `row[column]`; a missing key reads as `undefined`, like `null` here. */
  function Cell(row: CsvRow, column: string): Option<string> {
    if column in row.cells then row.cells[column] else None
  }

  // ---------------------------------------------------------------------
  // csvTextToRows
  // ---------------------------------------------------------------------

  /** `s.replace(/\r\n?/g, "\n")`: every CR LF pair and every lone CR
      becomes a LF. */
  function NormalizeNewlines(s: string): (r: string)
    ensures '\r' !in r
    ensures |r| <= |s|
  {
    if s == [] then []
    else if s[0] == '\r' then
      "\n" + NormalizeNewlines(if |s| >= 2 && s[1] == '\n' then s[2..] else s[1..])
    else [s[0]] + NormalizeNewlines(s[1..])
  }

  /** Text without a CR is left alone, so normalising twice is normalising
      once. */
  lemma {:induction false} NormalizeNewlinesFixed(s: string)
    requires '\r' !in s
    ensures NormalizeNewlines(s) == s
  {
    if s != [] {
      NormalizeNewlinesFixed(s[1..]);
    }
  }

  /** The lines of a CSV text: newlines normalised, the whole text trimmed,
      split on LF. */
  function Lines(csv: string): seq<string> {
    Split(Trim(NormalizeNewlines(csv)), "\n")
  }

  /** The delimiter actually used: the words `"tab"` and `"\t"` (backslash,
      letter t) both mean a tab character. */
  function Delimiter(delimiter: string): (d: string)
    ensures d == "\t" <==> delimiter == "\\t" || delimiter == "tab" || delimiter == "\t"
    ensures d != "\t" ==> d == delimiter
  {
    if delimiter == "\\t" || delimiter == "tab" then "\t" else delimiter
  }

  /** The pieces of a line between delimiters, each trimmed. */
  function Fields(line: string, delim: string): seq<string> {
    var pieces := Split(line, delim);
    seq(|pieces|, k requires 0 <= k < |pieces| => Trim(pieces[k]))
  }

  /** `headers.some((h) => h.toLowerCase().includes("navstatus"))`. */
  predicate HasNavstatusHeader(headers: seq<string>) {
    headers != [] && (Contains(ToLowerAscii(headers[0]), "navstatus") || HasNavstatusHeader(headers[1..]))
  }

  /** `headers.some((h) => h.trim() === "time")`. */
  predicate HasTimeHeader(headers: seq<string>) {
    headers != [] && (Trim(headers[0]) == ColTime || HasTimeHeader(headers[1..]))
  }

  lemma {:induction false} TimeHeaderAt(headers: seq<string>)
    requires HasTimeHeader(headers)
    ensures exists k :: 0 <= k < |headers| && Trim(headers[k]) == ColTime
  {
    if Trim(headers[0]) != ColTime {
      TimeHeaderAt(headers[1..]);
      var k :| 0 <= k < |headers[1..]| && Trim(headers[1..][k]) == ColTime;
      assert Trim(headers[k + 1]) == ColTime;
    }
  }

  /** The key of the column at `idx`: its header, or `column_<idx>` for an
      empty header. */
  function Key(header: string, idx: nat): (key: string)
    ensures key != ""
    ensures header != "" ==> key == header
  {
    if header == "" then "column_" + NatToString(idx) else header
  }

  /** The cell of a line at `idx`: `null` for an empty or missing value. */
  function CellValue(values: seq<string>, idx: nat): (cell: Option<string>)
    ensures cell.None? <==> idx >= |values| || values[idx] == ""
    ensures cell.Some? ==> cell.value == values[idx]
  {
    if idx < |values| && values[idx] != "" then Some(values[idx]) else None
  }

  /** The row object after the first `n` headers have stored their cell; a
      later header with the same key overwrites an earlier one. */
  function RowCells(headers: seq<string>, values: seq<string>, n: nat): Cells
    requires n <= |headers|
  {
    if n == 0 then map[]
    else RowCells(headers, values, n - 1)[Key(headers[n - 1], n - 1) := CellValue(values, n - 1)]
  }

  /** The position of the last of the first `n` headers whose key is
      `key`. */
  function LastKeyIndex(headers: seq<string>, key: string, n: nat): (r: Option<nat>)
    requires n <= |headers|
    ensures r.Some? ==> r.value < n && Key(headers[r.value], r.value) == key
    ensures r.Some? ==> forall j :: r.value < j < n ==> Key(headers[j], j) != key
    ensures r.None? ==> forall j :: 0 <= j < n ==> Key(headers[j], j) != key
  {
    if n == 0 then None
    else if Key(headers[n - 1], n - 1) == key then Some(n - 1)
    else LastKeyIndex(headers, key, n - 1)
  }

  /** A row holds a key exactly when some header has it, and the key then
      holds the cell of the last such header: later headers overwrite
      earlier ones. */
  lemma {:induction false} RowCellsSpec(headers: seq<string>, values: seq<string>, n: nat, key: string)
    requires n <= |headers|
    ensures key in RowCells(headers, values, n) <==> LastKeyIndex(headers, key, n).Some?
    ensures key in RowCells(headers, values, n) ==>
      RowCells(headers, values, n)[key] == CellValue(values, LastKeyIndex(headers, key, n).value)
  {
    if n > 0 {
      RowCellsSpec(headers, values, n - 1, key);
    }
  }

  function LineToRow(headers: seq<string>, line: string, delim: string): CsvRow {
    CsvRow(RowCells(headers, Fields(line, delim), |headers|), false, None)
  }

  /** The lines of a blob are refused when there are fewer than two, or when
      the header line lacks a `time` column or a column mentioning
      `navstatus`. */
  predicate LinesRefused(lines: seq<string>, delim: string) {
    |lines| < 2 || !HasNavstatusHeader(Fields(lines[0], delim)) || !HasTimeHeader(Fields(lines[0], delim))
  }

  /** One row per body line, keyed by the headers. */
  function RowsOf(headers: seq<string>, body: seq<string>, delim: string): seq<CsvRow> {
    seq(|body|, k requires 0 <= k < |body| => LineToRow(headers, body[k], delim))
  }

  /** The rows of the lines of a blob: one per line after the header line,
      keyed by the header line. */
  function RowsOfLines(lines: seq<string>, delim: string): seq<CsvRow> {
    if LinesRefused(lines, delim) then [] else RowsOf(Fields(lines[0], delim), lines[1..], delim)
  }

  /** `csvTextToRows(csv, delimiter)`. */
  function CsvTextToRows(csv: string, delimiter: string): seq<CsvRow> {
    if Trim(csv) == "" then [] else RowsOfLines(Lines(csv), Delimiter(delimiter))
  }

  /** Refused lines yield no row; any others yield one row per line after
      the header line, none of them a gap marker. */
  lemma RowsOfLinesCount(lines: seq<string>, delim: string)
    ensures var rows := RowsOfLines(lines, delim);
      (rows == [] <==> LinesRefused(lines, delim))
      && (!LinesRefused(lines, delim) ==> |rows| == |lines| - 1)
      && forall r :: 0 <= r < |rows| ==> !rows[r].isGapMarker && rows[r].gapDuration.None?
  {
  }

  /** A blank blob, or one whose lines are refused, yields no row; any other
      yields one row per line after the header line. */
  lemma CsvRowsCount(csv: string, delimiter: string)
    ensures var rows := CsvTextToRows(csv, delimiter);
      (rows == [] <==> Trim(csv) == "" || LinesRefused(Lines(csv), Delimiter(delimiter)))
      && (Trim(csv) != "" && !LinesRefused(Lines(csv), Delimiter(delimiter)) ==> |rows| == |Lines(csv)| - 1)
      && forall r :: 0 <= r < |rows| ==> !rows[r].isGapMarker && rows[r].gapDuration.None?
  {
    RowsOfLinesCount(Lines(csv), Delimiter(delimiter));
  }

  /** Every row holds a `time` key, and for each key of the header line the
      cell under the last header with that key: the trimmed field at that
      position, or `null` when the field is empty or missing. */
  lemma RowsOfLinesCells(lines: seq<string>, delim: string, r: nat, key: string)
    requires r < |RowsOfLines(lines, delim)|
    ensures var headers := Fields(lines[0], delim);
      var cells := RowsOfLines(lines, delim)[r].cells;
      ColTime in cells
      && (key in cells <==> LastKeyIndex(headers, key, |headers|).Some?)
      && (key in cells ==> cells[key] == CellValue(Fields(lines[r + 1], delim), LastKeyIndex(headers, key, |headers|).value))
  {
    var headers := Fields(lines[0], delim);
    var values := Fields(lines[r + 1], delim);
    assert lines[1..][r] == lines[r + 1];
    TimeHeaderAt(headers);
    var k :| 0 <= k < |headers| && Trim(headers[k]) == ColTime;
    TrimIdempotent(Split(lines[0], delim)[k]);
    assert Key(headers[k], k) == ColTime;
    RowCellsSpec(headers, values, |headers|, ColTime);
    RowCellsSpec(headers, values, |headers|, key);
  }

  // ---------------------------------------------------------------------
  // parseTimestampParts
  // ---------------------------------------------------------------------

  datatype TimestampParts = TimestampParts(date: string, time: string, raw: string)

  /** `parseTimestampParts(timestamp)`: the first two space-separated pieces
      of a non-empty text, `null` when there is no space. */
  function ParseTimestampParts(timestamp: Option<string>): Option<TimestampParts> {
    if !Truthy(timestamp) then None
    else
      var parts := Split(timestamp.value, " ");
      if |parts| < 2 then None
      else Some(TimestampParts(parts[0], parts[1], timestamp.value))
  }

  lemma {:induction false} JoinStartsWith(parts: seq<string>, sep: string)
    requires |parts| >= 1
    ensures parts[0] <= Join(parts, sep)
    ensures |parts| >= 2 ==> parts[0] + sep + parts[1] <= Join(parts, sep)
    ensures |parts| == 2 ==> Join(parts, sep) == parts[0] + sep + parts[1]
    ensures |parts| >= 3 ==> parts[0] + sep + parts[1] + sep <= Join(parts, sep)
  {
    if |parts| >= 2 {
      var rest := parts[1..];
      JoinStartsWith(rest, sep);
      assert Join(parts, sep) == parts[0] + sep + Join(rest, sep);
      if |parts| >= 3 {
        assert rest[0] + sep <= rest[0] + sep + rest[1];
        assert parts[0] + sep + parts[1] + sep == parts[0] + sep + (rest[0] + sep);
      }
    }
  }

  /** The parts exist exactly for a non-empty text with a space; then the
      date is the text before the first space, the time the text from there
      up to the next space or the end, and neither holds a space. */
  lemma ParseTimestampPartsSpec(timestamp: Option<string>)
    ensures var p := ParseTimestampParts(timestamp);
      (p.Some? <==> Truthy(timestamp) && ' ' in timestamp.value)
      && (p.Some? ==>
            var n := |p.value.date| + 1 + |p.value.time|;
            p.value.raw == timestamp.value
            && p.value.date + " " + p.value.time <= timestamp.value
            && ' ' !in p.value.date && ' ' !in p.value.time
            && (n == |timestamp.value| || (n < |timestamp.value| && timestamp.value[n] == ' ')))
  {
    if Truthy(timestamp) {
      var s := timestamp.value;
      var parts := Split(s, " ");
      SplitPieces(s, " ");
      ContainsChar(s, ' ');
      if |parts| >= 2 {
        JoinStartsWith(parts, " ");
        ContainsChar(parts[0], ' ');
        ContainsChar(parts[1], ' ');
        var n := |parts[0]| + 1 + |parts[1]|;
        if |parts| >= 3 {
          assert (parts[0] + " " + parts[1] + " ")[n] == ' ';
        }
      }
    }
  }

  // ---------------------------------------------------------------------
  // normalizeRow
  // ---------------------------------------------------------------------

  /** A numeric field of a normalised row: `null`, `NaN` (what `parseFloat`
      gives for a text that does not start with a number) or a number. */
  datatype Measure = Null | NaN | Num(value: real)

  /** A normalised row. `columns` are the cells the row object still
      carries, since it is spread into the result. */
  datatype NormalizedRow = NormalizedRow(
    timestamp: string,
    date: string,
    time: Option<string>,
    latitude: Measure,
    longitude: Measure,
    speed: Measure,
    navStatus: string,
    isGapMarker: bool,
    gapDuration: Option<string>,
    columns: Cells)

  /** `row[column] ? parseFloat(row[column]) : null`. */
  function MeasureOf(cell: Option<string>, parseFloat: string -> Option<real>): (m: Measure)
    ensures m.Null? <==> !Truthy(cell)
  {
    if !Truthy(cell) then Null
    else match parseFloat(cell.value)
      case None => NaN
      case Some(x) => Num(x)
  }

  /** `normalizeRow(row)`. The derived `time` field is overwritten by the
      spread of the row object, which holds the whole `time` cell. */
  function NormalizeRow(row: CsvRow, parseFloat: string -> Option<real>): NormalizedRow {
    var timestamp := Cell(row, ColTime);
    var parts := ParseTimestampParts(timestamp);
    var derivedTime := if parts.Some? then parts.value.time else "";
    NormalizedRow(
      if Truthy(timestamp) then timestamp.value else "",
      if parts.Some? then parts.value.date else "",
      if ColTime in row.cells then row.cells[ColTime] else Some(derivedTime),
      MeasureOf(Cell(row, ColLat), parseFloat),
      MeasureOf(Cell(row, ColLon), parseFloat),
      MeasureOf(Cell(row, ColSpeed), parseFloat),
      var nav := Cell(row, ColNavStatus); if Truthy(nav) then nav.value else "",
      row.isGapMarker,
      row.gapDuration,
      row.cells)
  }

  /** What a normalised row holds: the `time` field is the raw `time` cell
      (not the time-of-day part), the timestamp and status are the raw cells
      or empty, the date is the text before the first space of the
      timestamp, a measure is `null` exactly when its cell is empty, and the
      marker fields pass through. */
  lemma NormalizeRowSpec(row: CsvRow, parseFloat: string -> Option<real>)
    requires ColTime in row.cells
    ensures var n := NormalizeRow(row, parseFloat);
      n.time == row.cells[ColTime]
      && (Truthy(row.cells[ColTime]) ==> n.timestamp == row.cells[ColTime].value)
      && (!Truthy(row.cells[ColTime]) ==> n.timestamp == "" && n.date == "")
      && ' ' !in n.date && n.date <= n.timestamp
      && (' ' in n.timestamp ==> n.date + " " <= n.timestamp)
      && (' ' !in n.timestamp ==> n.date == "")
      && (n.latitude.Null? <==> !Truthy(Cell(row, ColLat)))
      && (n.longitude.Null? <==> !Truthy(Cell(row, ColLon)))
      && (n.speed.Null? <==> !Truthy(Cell(row, ColSpeed)))
      && (n.navStatus == "" <==> !Truthy(Cell(row, ColNavStatus)))
      && n.isGapMarker == row.isGapMarker && n.gapDuration == row.gapDuration
  {
    ParseTimestampPartsSpec(Cell(row, ColTime));
  }
}
