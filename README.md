# Vessel telemetry: from CSV exports to journeys and intervals

This project models the data pipeline of the vessel-telemetry dashboard
and proves properties of it. The pipeline has three parts.

- **Backend ingestion** (`backend/index.js`). Each CSV export becomes
  header-keyed rows. The rows of all exports are combined and sorted by
  time. A synthetic `"GAP"` marker row is inserted wherever two
  consecutive rows are more than 500 ms apart. Every row is then
  normalised into a `RawDataRow`.
- **Journey reconstruction** (`frontend/src/hooks/useCSVInterval.ts`).
  - `processRawData` scans the rows for journey boundaries. A journey
    runs from a docked row (status `"0.0"`) within 5 km of a port to the
    next docked row at a different port.
  - It collects each journey's gaps.
  - It cuts each complete, gap-free journey into maximal runs of equal
    navigation status. Each run becomes one `SimpleInterval`, labelled by
    `classifyIntervalType`.
  - It draws up a summary.
  - The nearest-port analysis behind all of this uses a bounded,
    insertion-ordered cache.
- **Text helpers.**
  - Durations as `"Xd Yh Zm Ws"` text (`frontend/src/lib/utils.ts` and
    `calculateTimeDifference`).
  - The journey colour palette (`frontend/src/lib/colors.ts`).

Modules, one per file:

| file | module | models |
|---|---|---|
| `wrappers.dfy` | `Wrappers` | `Option` and `Result` |
| `js_builtins.dfy` | `JsBuiltins` | the JavaScript built-ins the code relies on: truncating `%`, `parseInt`, number printing, `trim`, `includes`, `split`/`join`, `toLowerCase`, `replace` of one character |
| `durations.dfy` | `Durations` | `formatDuration`, `parseDurationToSeconds` and `calculateTimeDifference` |
| `colors.dfy` | `Colors` | `JOURNEY_COLORS` and `getJourneyColor` |
| `csv_text.dfy` | `CsvText` | `csvTextToRows`, `parseTimestampParts` and `normalizeRow` |
| `gap_markers.dfy` | `GapMarkers` | `calculateGapDuration` and `insertGapMarkers` |
| `ingest.dfy` | `Ingest` | `processCSVsToRawData` |
| `ports.dfy` | `Ports` | the port analysis and the distance cache (`calculateAllPortDistances`, `clearDistanceCache`) |
| `boundaries.dfy` | `Boundaries` | `RawDataRow` and the boundary scan of `processRawData` |
| `journey_gaps.dfy` | `GapDetection` | `detectGapsInJourney` and the marker-free rows |
| `intervals.dfy` | `Intervals` | `classifyIntervalType`, `calculateAverageSpeed` and `createSimpleInterval` |
| `runs.dfy` | `Runs` | the two interval passes of `processRawData` |
| `journeys.dfy` | `Journeys` | the journey loop and the summary of `processRawData` |

Everything that depends on the environment is a parameter:

- JavaScript `Date` parsing: `string -> Option<int>` milliseconds, where `None` is an invalid date;
- `parseFloat`: `string -> Option<real>`, where `None` is `NaN`;
- the haversine distance: `(lat, lon, portLat, portLon) -> real`;
- `toFixed(3)`: `real -> string`;
- `(ms / 1000).toFixed(2)`: `int -> string` over milliseconds.

Each function or method that models a loop of the source is proved
equal to a specification function. The properties are stated as lemmas
about those specification functions.

## Model

| member | source | states |
|---|---|---|
| Colors.GetJourneyColor | frontend/src/lib/colors.ts:16-18 | Defined exactly for a non-negative index or a negative multiple of 10, because JavaScript's `%` keeps the sign of a negative index. The colour is always a palette entry. For `i >= 0` it is `JOURNEY_COLORS[i mod 10]`. |
| Colors.PaletteSize | frontend/src/lib/colors.ts:2-13 | The palette has exactly ten colours, pairwise distinct. |
| Colors.ColorPeriodic | frontend/src/lib/colors.ts:16-18 | `getJourneyColor(i + 10) == getJourneyColor(i)` for `i >= 0`. |
| Colors.FirstColors | frontend/src/lib/colors.ts:2-18 | Index 0 gives `#FF4444` and index 1 gives `#00AA44`. |
| JsBuiltins.TruncRem | frontend/src/lib/utils.ts:35-37 | JavaScript's `%` agrees with the mathematical remainder for a non-negative dividend. Its result lies strictly between `-d` and `d` and is negative only for a negative dividend. |
| JsBuiltins.ParseIntOfIntToString | frontend/src/lib/utils.ts:16-22 | `parseInt` reads back every integer printed by a template string, for integers of magnitude below 2^53 (see Left out). |
| JsBuiltins.SplitJoin | frontend/src/lib/utils.ts:11 | Splitting on a one-character separator undoes joining with it, when no piece contains the separator. |
| JsBuiltins.Split | backend/index.js:123 | Joining the pieces gives back the text, and a non-empty separator always gives at least one piece. |
| JsBuiltins.TrimStartSpec | backend/index.js:127-130 | `trimStart` drops exactly the leading white space: the result is a suffix of the text, every dropped character is white space, and the result does not start with white space. |
| JsBuiltins.TrimEndSpec | backend/index.js:127-130 | `trimEnd` drops exactly the trailing white space: the result is a prefix of the text, every dropped character is white space, and the result does not end with white space. |
| JsBuiltins.TrimSpec | backend/index.js:127-130 | `trim` keeps one contiguous slice of the text: everything before and after it is white space, and the slice neither starts nor ends with white space. |
| JsBuiltins.TrimIdempotent | backend/index.js:127-130 | Trimming twice is trimming once, so the header check on trimmed headers sees the trimmed text. |
| Durations.Decompose | frontend/src/lib/utils.ts:34-37 | A natural number of seconds splits into days, hours below 24, minutes below 60 and seconds below 60, whose total is that number. |
| Durations.DecomposeTotal | frontend/src/lib/utils.ts:34-37 | The split is unique: splitting the total of a normal span gives that span back. |
| Durations.FormatDuration | frontend/src/lib/utils.ts:33-48 | `formatDuration`: days by floor division, then hours, minutes and seconds from the truncating remainders, printed from the first non-zero unit on. Its shape and round trip are stated by `FormatDurationShape` and `FormatDurationRoundTrip`. |
| Durations.FormatDurationShape | frontend/src/lib/utils.ts:33-48 | `formatDuration(n)` prints the split of `n` in one of four forms: `"Dd Hh Mm Ss"` when days > 0, otherwise `"Hh Mm Ss"` when hours > 0, otherwise `"Mm Ss"` when minutes > 0, otherwise `"Ss"`. |
| Durations.UnitLetter | frontend/src/lib/utils.ts:15-22 | A part is tested for `d`, then `h`, then `m`, then `s`. No unit is found exactly when the part contains none of the four. |
| Durations.ParseDurationToSeconds | frontend/src/lib/utils.ts:9-30 | The `forEach` loop computes `DurationSeconds`: the sum of value × unit factor over the space-separated parts. A part without a unit adds 0, and an unreadable number makes the total `NaN` (`None`). |
| Durations.DurationOfEmpty | frontend/src/lib/utils.ts:9-30 | `parseDurationToSeconds("") == 0`. |
| Durations.UnitPart | frontend/src/lib/utils.ts:15-22 | A printed amount with its unit letter contains no space, and it reads back as value × unit factor. |
| Durations.ReadAmounts | frontend/src/lib/utils.ts:11-24 | A space-joined list of printed amounts reads back as the sum of the amounts in seconds. |
| Durations.SpanAmountsTotal | frontend/src/lib/utils.ts:39-47 | The amounts printed by `formatDuration`, and those printed by `calculateTimeDifference`, add up to the span's total seconds. Their units are among `d h m s`. |
| Durations.SpanTextRoundTrip | frontend/src/lib/utils.ts:9-48 | Reading back the `formatDuration` text of any span gives its total seconds. |
| Durations.ElapsedTextRoundTrip | frontend/src/hooks/useCSVInterval.ts:195-214 | Reading back the `calculateTimeDifference` text of any span gives its total seconds. |
| Durations.FormatDurationRoundTrip | frontend/src/lib/utils.ts:9-48 | `parseDurationToSeconds(formatDuration(n)) == n` for every natural `n` below 2^53 (see Left out). |
| Durations.CalculateTimeDifference | frontend/src/hooks/useCSVInterval.ts:195-214 | `calculateTimeDifference`: the units of the millisecond difference of the two parsed dates, `"NaNh NaNm NaNs"` when either date is invalid. Its units and round trip are stated by `ElapsedSpanOfNonNegative` and `TimeDifferenceRoundTrip`. |
| Durations.ElapsedSpanOfNonNegative | frontend/src/hooks/useCSVInterval.ts:199-204 | For a non-negative difference in ms, the units computed are the split of its whole seconds. |
| Durations.ElapsedDiffRoundTrip | frontend/src/hooks/useCSVInterval.ts:195-214 | Reading back the printed difference gives `floor(diff / 1000)`. |
| Durations.TimeDifferenceRoundTrip | frontend/src/hooks/useCSVInterval.ts:195-214 | `parseDurationToSeconds(calculateTimeDifference(a, b)) == floor((b - a) / 1000)` for valid dates with `b >= a` and a difference below 2^53 ms (see Left out). |
| CsvText.NormalizeNewlines | backend/index.js:123 | No carriage return is left after `\r\n?` is replaced by `\n`, and the text does not grow. |
| CsvText.NormalizeNewlinesFixed | backend/index.js:123 | A text without a carriage return is left unchanged. |
| CsvText.Delimiter | backend/index.js:126 | The delimiter is a tab exactly for `"\\t"`, `"tab"` or a tab itself. Otherwise it is the given delimiter. |
| CsvText.TimeHeaderAt | backend/index.js:130 | The time check finds a header whose trimmed text is `time`. |
| CsvText.Key | backend/index.js:137 | A key is never empty. A non-empty header is its own key; an empty one becomes `column_<idx>`. |
| CsvText.CellValue | backend/index.js:138-139 | A cell is null exactly when its field is missing or empty, and otherwise it is the field. |
| CsvText.LastKeyIndex | backend/index.js:136-140 | Finds the last header carrying a key, which is the one whose assignment wins, or reports that no header carries it. |
| CsvText.RowCellsSpec | backend/index.js:135-141 | A row has a key exactly when some header carries it. Its cell is the field under the last such header. |
| CsvText.RowsOfLinesCount | backend/index.js:124-142 | No rows exactly when the lines are refused: fewer than 2 lines, no `time` header, or no header containing `navstatus` in any case. Otherwise there is one row per line after the header. No row is a gap marker. |
| CsvText.CsvTextToRows | backend/index.js:120-143 | `csvTextToRows`: no rows for blank text, otherwise the rows of the normalised, trimmed lines. Their number and cells are stated by `CsvRowsCount` and `RowsOfLinesCells`. |
| CsvText.CsvRowsCount | backend/index.js:120-142 | The same for a whole export, where a blank export also yields no rows. |
| CsvText.RowsOfLinesCells | backend/index.js:133-142 | Every row has a `time` key. Each key holds the trimmed field under the last header with that key, null when that field is empty or missing. |
| CsvText.ParseTimestampParts | backend/index.js:110-115 | `parseTimestampParts`: the first two pieces of the text split on spaces, `null` for an empty text or one piece. Stated by `ParseTimestampPartsSpec`. |
| CsvText.ParseTimestampPartsSpec | backend/index.js:110-115 | Null exactly for an absent or empty text, or a text without a space. Otherwise the date and time are the first two space-free pieces: the text starts with the date and a space, then the time, which runs up to the text's end or its next space. `raw` is the text. |
| CsvText.MeasureOf | backend/index.js:156-158 | A coordinate or speed is null exactly when its cell is empty or absent. |
| CsvText.NormalizeRow | backend/index.js:148-164 | `normalizeRow`, with the row's own cells spread last. Stated by `NormalizeRowSpec`. |
| CsvText.NormalizeRowSpec | backend/index.js:148-164 | `timestamp` is the `time` cell (or `""`). `date` is the text before its first space, followed there by the space, and `""` when it has none. `time` is the raw `time` cell, because the spread comes last. Lat/lon/speed are null exactly for empty cells. The status is `""` exactly for an empty cell. The marker flag and duration are kept. |
| GapMarkers.GapMarker | backend/index.js:205-213 | A marker copies the earlier row's `time`, has null lat/lon/speed, status `"GAP"`, and is flagged as a marker. |
| GapMarkers.InsertGapMarkers | backend/index.js:184-224 | The loop builds `WithGapMarkers`: each row, followed by a marker when a gap follows it. |
| GapMarkers.ChunkUnmarked | backend/index.js:190-215 | What one step pushes, minus markers, is just its row. |
| GapMarkers.MarkedUnmarked | backend/index.js:189-221 | After `n` steps, the output minus markers is the first `n` input rows. |
| GapMarkers.MarkersRemoved | backend/index.js:184-224 | Removing the markers gives the input back unchanged and in order. The output has one marker per gap, and its length is the input length plus the gap count. |
| GapMarkers.MarkedPrefix | backend/index.js:189-221 | The output only grows: earlier outputs are prefixes of later ones. |
| GapMarkers.MarkedLength | backend/index.js:189-221 | After `n` steps the output has `n` rows plus one per gap so far. |
| GapMarkers.MarkerPlacement | backend/index.js:189-221 | Input row `i` sits at its position. A marker follows it exactly when both rows have times and the next is more than 500 ms later. That marker is built from rows `i` and `i + 1`. Otherwise the next row follows, and nothing follows the last row. |
| GapMarkers.CalculateGapDuration | backend/index.js:169-179 | `calculateGapDuration`: the millisecond difference in seconds with two decimals and `"s"`, `"NaNs"` when a date is invalid. Stated for markers by `MarkerDuration`. |
| GapMarkers.MarkerDuration | backend/index.js:169-179 | A marker's duration is the gap, over 500 ms, in seconds with two decimals, followed by `s`. |
| Ingest.Compare | backend/index.js:255-268 | The comparator is 0 when either row lacks an instant. Otherwise it is non-positive exactly when the first row is not later. |
| Ingest.InsertPermutes | backend/index.js:255-268 | Inserting into the sorted prefix adds exactly that row. |
| Ingest.SortPermutes | backend/index.js:255-268 | Sorting permutes the rows. |
| Ingest.InsertSorted | backend/index.js:255-268 | Inserting a timed row into a sorted, timed list keeps it sorted. |
| Ingest.SortByTime | backend/index.js:255-268 | The stable time sort of the combined rows, as an insertion sort under the source's comparator. Stated by `SortPermutes`, `SortSorts` and `SortOfSorted`. |
| Ingest.SortSorts | backend/index.js:255-268 | When every row has an instant, the result is in non-decreasing time order. |
| Ingest.SortOfSorted | backend/index.js:255-268 | Sorting leaves rows that are already in order unchanged. |
| Ingest.SortIdempotent | backend/index.js:255-268 | Sorting twice is sorting once. |
| Ingest.RowsOfEach | backend/index.js:235-237 | One row list per export. |
| Ingest.ConcatSnoc | backend/index.js:242 | Each export's rows are appended after the rows gathered so far. |
| Ingest.ConcatRows | backend/index.js:235-247 | The gathered rows are empty exactly when every export yields none, and none of them is a marker. |
| Ingest.CombinedRows | backend/index.js:235-249 | The same for the exports' text: the failure condition is exactly "every export yields no rows". |
| Ingest.SortedWithGaps | backend/index.js:255-273 | Sorting then marking keeps every row. The rows are time-sorted when all have instants. Removing the markers gives the sorted rows. The length grows by the gap count. |
| Ingest.Normalized | backend/index.js:278 | One normalised row per row. |
| Ingest.GatherRows | backend/index.js:232-245 | The loop gathers the rows of each export in turn. |
| Ingest.ProcessCsvsToRawData | backend/index.js:229-291 | Fails with "No se pudieron leer filas válidas" exactly when every export yields no rows. On success: the rows are a permutation of the combined rows, time-sorted when all are timed, and the data is the normalised rows with markers. `totalRows` is the output length. `gapsDetected` is the output length minus the combined length, which is the number of gaps. `filesProcessed` counts every export passed. |
| Ports.PortDistances | frontend/src/hooks/useCSVInterval.ts:166-171 | One distance per port. |
| Ports.NearestIndex | frontend/src/hooks/useCSVInterval.ts:173-176 | The `reduce` picks an index among those scanned. |
| Ports.NearestIndexIsFirstMinimum | frontend/src/hooks/useCSVInterval.ts:173-176 | The picked distance is the minimum, and every earlier port is strictly farther, so ties go to the earlier port. |
| Ports.Analyze | frontend/src/hooks/useCSVInterval.ts:159-182 | The port analysis of one position: every port's distance, and the nearest port found by the strict-`<` reduce. Stated by `AnalyzeNearest`. |
| Ports.AnalyzeNearest | frontend/src/hooks/useCSVInterval.ts:159-182 | The analysis holds each port's distance. The nearest distance is the smallest of the four, and the nearest port is the first port at that distance. |
| Ports.CacheKey | frontend/src/hooks/useCSVInterval.ts:160 | The key joins the two rounded coordinates with a comma, so it is never empty. |
| Ports.ListedEvict | frontend/src/hooks/useCSVInterval.ts:184-188 | Dropping the oldest key keeps the key list in step with the map, one key fewer. |
| Ports.ListedAppend | frontend/src/hooks/useCSVInterval.ts:189 | Adding a new key last keeps the key list in step with the map. |
| Ports.ListedCount | frontend/src/hooks/useCSVInterval.ts:184-191 | The map has as many keys as the insertion-ordered key list. |
| Ports.CoherentRemove | frontend/src/hooks/useCSVInterval.ts:184-188 | Removing an entry keeps every entry the analysis of a position with its key. |
| Ports.CoherentAdd | frontend/src/hooks/useCSVInterval.ts:189 | Adding the fresh analysis under its key keeps that invariant. |
| Ports.DistanceCache.constructor | frontend/src/hooks/useCSVInterval.ts:141 | The cache starts empty and valid. |
| Ports.DistanceCache.Lookup | frontend/src/hooks/useCSVInterval.ts:159-193 | A hit returns the stored value and changes nothing. A miss computes the analysis. If the cache is full it first evicts the oldest key, then stores the analysis as the newest key. Either way the result is the analysis of a position with the same key, and the cache stays valid, with at most 10 000 entries. |
| Ports.DistanceCache.EvictOldest | frontend/src/hooks/useCSVInterval.ts:184-188 | Removes exactly the oldest key and its entry. |
| Ports.DistanceCache.Store | frontend/src/hooks/useCSVInterval.ts:189 | Adds exactly the new entry, as the newest key. |
| Ports.DistanceCache.Clear | frontend/src/hooks/useCSVInterval.ts:144-146 | Empties the cache. |
| Ports.CacheBounded | frontend/src/hooks/useCSVInterval.ts:184-191 | A valid cache never holds more than 10 000 entries. |
| Boundaries.DockPortSpec | frontend/src/hooks/useCSVInterval.ts:440-464 | A row docks exactly when it is not a marker, has both coordinates, has status `"0.0"` and lies within 5 km of its nearest port. It then docks at that port's trimmed name. |
| Boundaries.Docks | frontend/src/hooks/useCSVInterval.ts:437-464 | Where each row docks, row by row. |
| Boundaries.DetectBoundaries | frontend/src/hooks/useCSVInterval.ts:437-492 | The scan loop computes `JourneyBoundaries`. |
| Boundaries.StepKeepsInv | frontend/src/hooks/useCSVInterval.ts:456-479 | Each row keeps the scan invariant: finished journeys are closed and chained, and the open journey stays at its port. |
| Boundaries.ScanInvariant | frontend/src/hooks/useCSVInterval.ts:437-481 | The invariant holds after every prefix of the rows. |
| Boundaries.OpenAtEnd | frontend/src/hooks/useCSVInterval.ts:484-492 | With a journey open at the end, the final boundaries end in one incomplete journey. It runs from its dock row to the last row, with end port "Desconocido", and every earlier boundary is closed and chained. |
| Boundaries.BoundariesSpec | frontend/src/hooks/useCSVInterval.ts:437-492 | No boundaries exactly when no row docks. Otherwise the first journey starts at the first dock row. The boundaries are chained (`end[k] == start[k+1]`, and ports too). Every boundary but the last is complete: it starts at a dock row, ends at the first later dock row at another port, and `startPort != endPort`. The last is the only incomplete one: it ends at the last row, with end port "Desconocido", and no later row docks elsewhere. |
| GapDetection.NextValid | frontend/src/hooks/useCSVInterval.ts:235-241 | The next valid row found is a non-marker at or after the start. |
| GapDetection.NextValidSpec | frontend/src/hooks/useCSVInterval.ts:235-241 | It is the first non-marker from the start. None is found exactly when every remaining row is a marker. |
| GapDetection.OrElse | frontend/src/hooks/useCSVInterval.ts:245-247 | The value unless it is absent or empty, else the fallback (JavaScript's logical or on texts). |
| GapDetection.DetectGapsInJourney | frontend/src/hooks/useCSVInterval.ts:226-255 | The nested loops compute `JourneyGaps`: one record per marker, in row order. |
| GapDetection.RealRows | frontend/src/hooks/useCSVInterval.ts:510 | The filter never adds rows. |
| GapDetection.GapsPerMarker | frontend/src/hooks/useCSVInterval.ts:226-255 | Exactly one record per marker row. Records plus marker-free rows account for every row. |
| GapDetection.GapsInOrder | frontend/src/hooks/useCSVInterval.ts:226-255 | The record for the `m`-th marker is that marker's record. |
| GapDetection.MarkersMonotone | frontend/src/hooks/useCSVInterval.ts:229-233 | The marker count never decreases along the rows. |
| GapDetection.HasGapsIffMarker | frontend/src/hooks/useCSVInterval.ts:506-507 | A journey has gaps exactly when one of its rows is a marker. |
| GapDetection.GapForSpec | frontend/src/hooks/useCSVInterval.ts:243-250 | A record starts at its marker's time. It ends at the next non-marker row's time when that time is non-empty, and at its own start when that time is empty or no non-marker row follows. Its duration is the marker's, or `"0s"` when absent or empty. Its reason is `"Gap detectado: "` followed by the marker's duration, or by `"duración desconocida"` when absent or empty. Both journey indices are -1. |
| Intervals.ClassifyIntervalType | frontend/src/hooks/useCSVInterval.ts:257-314 | `classifyIntervalType`: the label rules in source order. Stated by the `Classify*` lemmas. |
| Intervals.ClassifyByStatus | frontend/src/hooks/useCSVInterval.ts:257-314 | The label is "Desconocido" exactly for a status other than `"0.0"`, `"1.0"` and `"2.0"`. `"2.0"` always gives "Navegando hacia {endPort}". |
| Intervals.ClassifyDocked | frontend/src/hooks/useCSVInterval.ts:268-311 | A `"0.0"` run gives "Atracado en {startPort}" when it is first and either end is within 5 km of its nearest port. Otherwise it gives "Parada". |
| Intervals.ClassifyFirstManeuveringWins | frontend/src/hooks/useCSVInterval.ts:278-285 | The first `"1.0"` run is labelled at the start port, or as heading to Puerto B, whatever its position. So this rule wins over the second-to-last rule. |
| Intervals.ClassifyLaterManeuvering | frontend/src/hooks/useCSVInterval.ts:288-301 | A later `"1.0"` run is labelled at the end port when it is second to last and near a port. When second to last and not near a port, it is heading to Puerto B. Otherwise it is manoeuvring speed towards the end port. |
| Intervals.Speeds | frontend/src/hooks/useCSVInterval.ts:217-218 | The filtered speeds are no more than the points. |
| Intervals.SpeedsMembers | frontend/src/hooks/useCSVInterval.ts:217-218 | Each filtered speed is some point's speed. None is kept exactly when no point has a speed. |
| Intervals.CalculateAverageSpeed | frontend/src/hooks/useCSVInterval.ts:216-224 | `calculateAverageSpeed`: the mean of the points' known speeds, `null` when there is none. Stated by `AverageSpeedBounds`. |
| Intervals.AverageSpeedBounds | frontend/src/hooks/useCSVInterval.ts:216-224 | The mean is null exactly when no point has a speed. Otherwise, over the reals, it lies between the smallest and the largest present speed. |
| Intervals.MinMaxMembers | frontend/src/hooks/useCSVInterval.ts:216-224 | The bounds used are speeds that occur. |
| Intervals.SumBetween | frontend/src/hooks/useCSVInterval.ts:219-220 | Over the reals, the left-to-right sum lies between n·min and n·max. |
| Intervals.MeanBetween | frontend/src/hooks/useCSVInterval.ts:221-223 | Over the reals, the mean lies between the minimum and the maximum. |
| Intervals.Points | frontend/src/hooks/useCSVInterval.ts:352-358 | One coordinate point per row, in order, copying its coordinates, time, speed and status. |
| Intervals.EndDateTime | frontend/src/hooks/useCSVInterval.ts:361-377 | The end date and end time of an interval from its last timestamp, with the `"Fecha inválida"`/`"Hora inválida"` defaults. Stated by `EndDateTimeSpec`. |
| Intervals.EndDateTimeSpec | frontend/src/hooks/useCSVInterval.ts:362-377 | A `"date rest"` timestamp gives its date and the whole timestamp. A space-free one gives itself twice. |
| Intervals.CreateSimpleInterval | frontend/src/hooks/useCSVInterval.ts:316-401 | `createSimpleInterval`: the interval of a run of points, with its label, duration, mean speed, ends and coordinate points. Stated by `CreateSimpleIntervalSpec`. |
| Intervals.CreateSimpleIntervalSpec | frontend/src/hooks/useCSVInterval.ts:316-401 | The result is null exactly for no points. It is the `TypeError` exactly when an end point lacks a coordinate. Otherwise `sampleCount == coordinatePoints.length == points.length`, the points are those of the rows in order, and the status, start and end coordinates come from the first and last points. The port analyses are those of the two ends, and the journey index and number are passed through. The label is `classifyIntervalType` of the first point's status, the two analyses, the index, the count, the ports and the flag. The end date and time come from the last point, the duration is `calculateTimeDifference` of the two ends, and the speed is the mean of the points. |
| Runs.RunStartsUpTo | frontend/src/hooks/useCSVInterval.ts:564-572 | The first run starts at row 0, and every run starts inside the rows. |
| Runs.RunStartsSpec | frontend/src/hooks/useCSVInterval.ts:564-572 | Run starts increase strictly. A row other than the first starts a run exactly when its status (empty read as `"0.0"`) differs from the row before. |
| Runs.RunStartsPrefix | frontend/src/hooks/useCSVInterval.ts:564-572 | The starts of a prefix are a prefix of the starts. |
| Runs.RunUniform | frontend/src/hooks/useCSVInterval.ts:578-617 | Every row of a run has the run's status. |
| Runs.NeighbourRunsDiffer | frontend/src/hooks/useCSVInterval.ts:578-617 | Neighbouring runs differ in status, so the runs are maximal. |
| Runs.CountIntervals | frontend/src/hooks/useCSVInterval.ts:557-572 | Pass 1 counts the runs (1 for no rows). |
| Runs.Pass2UpTo | frontend/src/hooks/useCSVInterval.ts:574-617 | The open run starts before the current row. |
| Runs.Pass2FailureSticks | frontend/src/hooks/useCSVInterval.ts:574-617 | Once a `TypeError` is thrown, nothing after it changes the outcome. |
| Runs.EmitSpec | frontend/src/hooks/useCSVInterval.ts:585-611 | Closing a run throws the `TypeError` exactly when an end row lacks a coordinate. Otherwise it appends exactly that run's interval, numbered next. |
| Runs.Pass2Runs | frontend/src/hooks/useCSVInterval.ts:574-617 | After each prefix, pass 2 has failed exactly when a closed run has an end without coordinates. Otherwise it has built one interval per closed run, in order, and keeps the last run open. |
| Runs.SecondPassFailed | frontend/src/hooks/useCSVInterval.ts:556-645 | When the second pass stops, the journey fails with the `TypeError`, and some run has an end without a coordinate. |
| Runs.SecondPassDone | frontend/src/hooks/useCSVInterval.ts:556-645 | When the second pass gets through every row, emitting the last run gives the same outcome `JourneyIntervalsSpec` states. |
| Runs.JourneyIntervalsSpec | frontend/src/hooks/useCSVInterval.ts:556-645 | Both passes fail exactly when some run has an end without a coordinate, with the `TypeError`. On success there is one interval per run, as many as pass 1 counted. Interval `k` has `intervalNumber == k + 1` and `sampleCount == coordinatePoints.length ==` the run's length. Its points are the run's rows, and its status, time and coordinates come from the run's first and last rows. Its label is `classifyIntervalType` with index `k`, the pass-1 count, and a flag that is true exactly for the first run with status `"1.0"`. |
| Runs.JourneyEnds | frontend/src/hooks/useCSVInterval.ts:556-645 | The first interval starts at the journey's first real row, with its status. The last interval ends at the journey's last real row. When the first row is docked within 5 km of its nearest port, the first interval is labelled "Atracado en {startPort}". |
| Runs.NeighbourIntervalsDiffer | frontend/src/hooks/useCSVInterval.ts:578-617 | Adjacent intervals differ in status, an empty status read as `"0.0"`. |
| Runs.CoveredPoints | frontend/src/hooks/useCSVInterval.ts:586-622 | The points of the first `m` intervals are the rows of their runs, in order. |
| Runs.IntervalsCoverJourney | frontend/src/hooks/useCSVInterval.ts:556-645 | Concatenating the intervals' coordinate points reproduces the marker-free rows of the journey, in order. |
| Runs.PushInterval | frontend/src/hooks/useCSVInterval.ts:586-611 | The code closing a run computes `Emit`. |
| Runs.CloseRun | frontend/src/hooks/useCSVInterval.ts:581-613 | One status change in pass 2 performs `Pass2Step`. |
| Runs.JourneyIntervals | frontend/src/hooks/useCSVInterval.ts:556-645 | The intervals of a journey's real rows: the second pass and then its last interval. Stated by `JourneyIntervalsSpec`, `JourneyEnds` and `IntervalsCoverJourney`. |
| Runs.BuildIntervals | frontend/src/hooks/useCSVInterval.ts:556-645 | The two passes and the last interval compute `JourneyIntervals`. |
| Journeys.DistinctSpec | frontend/src/hooks/useCSVInterval.ts:668 | `[...new Set(types)]` keeps every type and no other, each once. |
| Journeys.Types | frontend/src/hooks/useCSVInterval.ts:668 | The labels of the intervals, in order. |
| Journeys.Labelled | frontend/src/hooks/useCSVInterval.ts:513-519 | Each gap is filed under journey `journeyIndex + 1`, on both sides. |
| Journeys.MapUpToAt | frontend/src/hooks/useCSVInterval.ts:501-671 | The outcomes are listed in boundary order: element `k` of the list built for the first `n` boundaries is the outcome for boundary `k`. |
| Journeys.OutcomeAt | frontend/src/hooks/useCSVInterval.ts:501-671 | Outcome `k` is that of journey `k`. |
| Journeys.CollectSucceeds | frontend/src/hooks/useCSVInterval.ts:501-671 | The journey loop gets through every boundary exactly when no journey fails. |
| Journeys.CollectKeeps | frontend/src/hooks/useCSVInterval.ts:501-671 | When the loop gets through, it keeps every journey in order, appends each journey's gaps, and adds up the interval counts. |
| Journeys.CollectOk | frontend/src/hooks/useCSVInterval.ts:501-671 | The loop finishes exactly when every journey succeeds. It then keeps every journey in order, all their gaps, and the sum of their interval counts. |
| Journeys.CollectFailure | frontend/src/hooks/useCSVInterval.ts:501-698 | A failed loop fails with the error of the first failing journey. |
| Journeys.CountIncompleteSpec | frontend/src/hooks/useCSVInterval.ts:683 | The incomplete count is at most the journey count. It is 0 exactly when no journey is incomplete, and equal to the journey count exactly when all are. |
| Journeys.GapsFiledSnoc | frontend/src/hooks/useCSVInterval.ts:513-519 | Appending gaps filed under journey `n` keeps the gaps filed under journeys 1 to `n`. |
| Journeys.JourneyOfGaps | frontend/src/hooks/useCSVInterval.ts:506-519 | A journey contributes one gap per marker row in its slice. Each gap is that marker's record, filed under `journeyIndex + 1`. |
| Journeys.GapsOfOutcomes | frontend/src/hooks/useCSVInterval.ts:501-671 | All gaps number the marker rows of all journeys, each filed under an existing journey. |
| Journeys.JourneyOfMetadata | frontend/src/hooks/useCSVInterval.ts:501-670 | A journey is incomplete exactly when its boundary is incomplete or its slice holds a gap marker. It fails only when it is complete and its intervals hit the `TypeError`. It carries its number (`index + 1`) and its boundary's ports, and `isIncomplete == incompleteEnd`, while `incompleteStart` is false. |
| Journeys.JourneyOfIntervals | frontend/src/hooks/useCSVInterval.ts:529-670 | An incomplete journey has no intervals. A complete one has the intervals of its marker-free rows. `intervalCount` is the number of intervals, and `classificationTypes` lists each label of an interval exactly once. |
| Journeys.ProcessResultSpec | frontend/src/hooks/useCSVInterval.ts:407-698 | Fails with "No hay datos para procesar" for no rows, and otherwise only with the `TypeError`. On success there is one journey per boundary, in order. `totalJourneys`, `totalRows`, `filesProcessed == 1`, `totalIntervals` (the sum of the interval counts) and `incompleteJourneys` are as listed. `totalGaps == gaps.length ==` the number of marker rows inside journeys, each gap filed under an existing journey. |
| Journeys.BoundaryRowsInRange | frontend/src/hooks/useCSVInterval.ts:501-503 | Every journey's slice lies inside the rows, from its start row to its end row, and its start row docks at its start port. |
| Journeys.RealRowsWithoutMarkers | frontend/src/hooks/useCSVInterval.ts:510 | The filter keeps rows that hold no marker unchanged. |
| Journeys.LastJourneyIncomplete | frontend/src/hooks/useCSVInterval.ts:484-554 | When there are journeys, the last one is incomplete, has no intervals, and is counted among the incomplete ones. |
| Journeys.NoJourneysWithoutDocking | frontend/src/hooks/useCSVInterval.ts:437-687 | For rows present, there are no journeys exactly when no row docks. The result is then an empty success counting only the rows. |
| Journeys.KeptJourney | frontend/src/hooks/useCSVInterval.ts:556-645 | A journey kept complete comes from a complete boundary, and its intervals are built from all of its rows. |
| Journeys.CompleteJourneyIntervals | frontend/src/hooks/useCSVInterval.ts:556-645 | A complete journey's first interval starts at its first row and its last interval ends at its last row. |
| Journeys.JourneyAt | frontend/src/hooks/useCSVInterval.ts:501-671 | Journey `k` of the result is the journey of boundary `k`. |
| Journeys.DockToDock | frontend/src/hooks/useCSVInterval.ts:556-645 | A complete journey starting at a dock row begins with an interval labelled "Atracado en {startPort}", docked and starting at that row. Its last interval ends at the journey's last row. |
| Journeys.JourneyOutcomeAt | frontend/src/hooks/useCSVInterval.ts:501-671 | Journey `k` of a successful result is the journey of outcome `k`. |
| Journeys.ClosedJourney | frontend/src/hooks/useCSVInterval.ts:437-670 | A finished boundary kept complete docks at two different ports. Its intervals run from the opening dock row to the closing dock row, and the first is labelled "Atracado en {startPort}". |
| Journeys.FinishedJourney | frontend/src/hooks/useCSVInterval.ts:437-670 | A journey kept complete is never the last, open-ended one, so it is a finished boundary with the guarantees of `ClosedJourney`. |
| Journeys.CompleteJourneyDockToDock | frontend/src/hooks/useCSVInterval.ts:437-670 | Every complete journey of the result runs between two different ports, from one dock row to a later dock row. Its first interval is docked, labelled "Atracado en {startPort}", and starts at the first row. Its last interval ends at the dock row. |
| Journeys.JourneyOf | frontend/src/hooks/useCSVInterval.ts:502-670 | The outcome of one journey: its gaps filed under it, then either an incomplete journey without intervals or the complete journey with its intervals and metadata. Stated by `JourneyOfGaps`, `JourneyOfMetadata` and `JourneyOfIntervals`. |
| Journeys.ProcessJourney | frontend/src/hooks/useCSVInterval.ts:502-670 | One iteration of the journey loop computes `JourneyOf`. |
| Journeys.JourneyOutcome | frontend/src/hooks/useCSVInterval.ts:502-670 | The iteration for journey `k` computes outcome `k`. |
| Journeys.CollectFailureSticks | frontend/src/hooks/useCSVInterval.ts:501-698 | Once the loop has failed, later journeys do not change the result. |
| Journeys.CollectSnoc | frontend/src/hooks/useCSVInterval.ts:501-671 | One iteration appends the journey, its gaps and its interval count, or stops with its error. |
| Journeys.CollectJourneys | frontend/src/hooks/useCSVInterval.ts:501-671 | The journey loop computes `Collect` of the outcomes. |
| Journeys.ProcessResult | frontend/src/hooks/useCSVInterval.ts:407-698 | What `processRawData` returns: the no-data error, the first journey error, or the journeys, gaps and summary. Stated by `ProcessResultSpec`. |
| Journeys.ProcessRawData | frontend/src/hooks/useCSVInterval.ts:407-698 | `processRawData` computes `ProcessResult`. |

## Left out

- The Express server, the login and download routes, the HTML scraping and the session store in `backend/index.js`: network I/O.
- Console logging, the React state (`setResults`, `setIsProcessing`), `clearResults` and the UI components: presentation only.
  - `processRawData` is modelled as returning its result.
  - The `success: false` result for empty input is the `NoDataError` failure, although the hook also returns `null` in that case.
- The haversine distance, `toFixed`, `parseFloat` and JavaScript `Date` parsing are parameters, not arithmetic: they are floating-point or time-zone dependent.
- Ports.DistanceCache.Lookup: a cache hit returns the analysis of the position first stored under the same rounded key. The contract says exactly that; it does not say the result equals the analysis of the position asked for.
- `processRawData` takes the port analysis as a function. The shared cache is modelled on its own (`Ports.DistanceCache`), not threaded through the journey loop.
- Ingest.SortByTime: the sort is modelled as a stable insertion sort. With a missing time the comparator is inconsistent and the JavaScript sort order is implementation-defined. Only permutation holds then; sortedness is proved only when every row has a time.
- Row keys that coincide with the derived fields (other than `time`) and override them through the spread in `normalizeRow`: left out, since the CSV columns never carry those names.
- `toFixed(2)` in `calculateGapDuration` is a parameter, so its rounding of binary doubles is not modelled.
- The `try`/`catch` around `calculateGapDuration` and around the date handling in `insertGapMarkers` and `createSimpleInterval`: JavaScript dates do not throw there, so the catch branches are not modelled.
- The only exception modelled in `processRawData` is the `TypeError` of `toFixed` on a missing coordinate at the end of a run. It aborts the whole call.
- The `time` field of a journey's rows and of `RawDataRow` is left out of the frontend row: the journey code never reads it.
- `intervalData.length > 0` before each `createSimpleInterval` call is always true for a run, so its false branch is not modelled.
- `totalIntervals++` per built interval is modelled as adding each journey's interval count after the journey is built. The two agree because a failure aborts the whole call.
- Numbers are modelled as unbounded integers, not IEEE doubles. JavaScript prints an integer of magnitude 1e21 or more in exponent form, and integers above 2^53 are not all representable, so the equalities below hold in JavaScript only below 2^53.
- JsBuiltins.ParseIntOfIntToString: holds for every integer in the model; in JavaScript only for integers of magnitude below 2^53.
- Durations.FormatDurationRoundTrip: holds for every natural number in the model; in JavaScript only below 2^53 seconds.
- Durations.TimeDifferenceRoundTrip: holds for every millisecond difference in the model; in JavaScript only for differences below 2^53 ms.
- Intervals.AverageSpeedBounds: the speeds, their sum and their mean are exact reals, not binary doubles. JavaScript's `reduce` and division round at each step, so there the bound holds only up to rounding: for the speeds 0.1, 0.1, 0.1 the JavaScript mean is 0.10000000000000002, above the maximum. The same holds for `Intervals.SumBetween` and `Intervals.MeanBetween`.
