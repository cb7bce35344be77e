/** Duration texts of the form "Xd Yh Zm Ws": `formatDuration` and
    `parseDurationToSeconds` (frontend/src/lib/utils.ts) and
    `calculateTimeDifference` (frontend/src/hooks/useCSVInterval.ts), which
    prints the duration of an interval or a journey. */
module Durations {
  import opened Wrappers
  import opened JsBuiltins

  const SecondsPerMinute := 60
  const SecondsPerHour := 3600
  const SecondsPerDay := 86400
  const MsPerSecond := 1000
  const MsPerMinute := 60000
  const MsPerHour := 3600000
  const MsPerDay := 86400000

  /** A duration split into units. */
  datatype Span = Span(days: int, hours: int, minutes: int, seconds: int) {
    /** Every unit below its carry limit, nothing negative. */
    predicate Normal() {
      days >= 0 && 0 <= hours < 24 && 0 <= minutes < 60 && 0 <= seconds < 60
    }

    predicate NonNegative() {
      days >= 0 && hours >= 0 && minutes >= 0 && seconds >= 0
    }

    function TotalSeconds(): int {
      days * SecondsPerDay + hours * SecondsPerHour + minutes * SecondsPerMinute + seconds
    }
  }

  /** Whole seconds split into days, hours, minutes and seconds. */
  function Decompose(n: nat): (sp: Span)
    ensures sp.Normal() && sp.TotalSeconds() == n
  {
    var belowDay := n % SecondsPerDay;
    assert n == SecondsPerHour * (24 * (n / SecondsPerDay) + belowDay / SecondsPerHour) + belowDay % SecondsPerHour;
    Span(n / SecondsPerDay, (n % SecondsPerDay) / SecondsPerHour, (n % SecondsPerHour) / SecondsPerMinute, n % SecondsPerMinute)
  }

  /** A normal span is determined by its total: `Decompose` inverts
      `TotalSeconds`. */
  lemma DecomposeTotal(sp: Span)
    requires sp.Normal()
    ensures Decompose(sp.TotalSeconds()) == sp
  {
    var n := sp.TotalSeconds();
    var below := sp.hours * SecondsPerHour + sp.minutes * SecondsPerMinute + sp.seconds;
    assert 0 <= below < SecondsPerDay;
    DivModUnique(n, SecondsPerDay, sp.days, below);
    var belowHour := sp.minutes * SecondsPerMinute + sp.seconds;
    DivModUnique(below, SecondsPerHour, sp.hours, belowHour);
    DivModUnique(n, SecondsPerHour, sp.days * 24 + sp.hours, belowHour);
    DivModUnique(belowHour, SecondsPerMinute, sp.minutes, sp.seconds);
    DivModUnique(n, SecondsPerMinute, sp.days * 1440 + sp.hours * 60 + sp.minutes, sp.seconds);
  }

  lemma DivModUnique(n: int, d: int, q: int, r: int)
    requires d > 0 && 0 <= r < d && n == d * q + r
    ensures n / d == q && n % d == r
  {
    var q0, r0 := n / d, n % d;
    MulAwayFromZero(d, q0 - q);
    assert d * (q0 - q) == r - r0;
  }

  /** A non-zero multiple of `d` is at least `d` away from zero. */
  lemma {:induction false} MulAwayFromZero(d: int, k: int)
    requires d > 0
    ensures k >= 1 ==> d * k >= d
    ensures k <= -1 ==> d * k <= -d
    decreases if k >= 0 then k else -k
  {
    if k > 1 {
      MulAwayFromZero(d, k - 1);
      assert d * k == d * (k - 1) + d;
    } else if k < -1 {
      MulAwayFromZero(d, k + 1);
      assert d * k == d * (k + 1) - d;
    }
  }

  /** `${v}` followed by a unit letter. */
  function UnitText(v: int, unit: char): string {
    IntToString(v) + [unit]
  }

  /** A count of one unit, as printed in a duration text. */
  datatype Amount = Amount(value: int, unit: char)

  /** The texts of a list of amounts. */
  function Texts(amounts: seq<Amount>): seq<string> {
    seq(|amounts|, k requires 0 <= k < |amounts| => UnitText(amounts[k].value, amounts[k].unit))
  }

  /** The amounts `formatDuration` prints: leading zero units are left out,
      the seconds are always there. */
  function SpanAmounts(sp: Span): seq<Amount> {
    var d, h, m, s := Amount(sp.days, 'd'), Amount(sp.hours, 'h'), Amount(sp.minutes, 'm'), Amount(sp.seconds, 's');
    if sp.days > 0 then [d, h, m, s]
    else if sp.hours > 0 then [h, m, s]
    else if sp.minutes > 0 then [m, s]
    else [s]
  }

  /** The amounts `calculateTimeDifference` prints: only a zero day count is
      left out. */
  function ElapsedAmounts(sp: Span): seq<Amount> {
    var d, h, m, s := Amount(sp.days, 'd'), Amount(sp.hours, 'h'), Amount(sp.minutes, 'm'), Amount(sp.seconds, 's');
    if sp.days > 0 then [d, h, m, s] else [h, m, s]
  }

  function SpanText(sp: Span): string {
    Join(Texts(SpanAmounts(sp)), " ")
  }

  function ElapsedText(sp: Span): string {
    Join(Texts(ElapsedAmounts(sp)), " ")
  }

  /** `formatDuration(seconds)` for an integer count of seconds, with
      JavaScript's flooring division and truncating remainder. */
  function FormatDuration(seconds: int): string {
    SpanText(Span(seconds / SecondsPerDay,
                  TruncRem(seconds, SecondsPerDay) / SecondsPerHour,
                  TruncRem(seconds, SecondsPerHour) / SecondsPerMinute,
                  TruncRem(seconds, SecondsPerMinute)))
  }

  /** The span `calculateTimeDifference` computes from a difference in
      milliseconds. */
  function ElapsedSpan(diffMs: int): Span {
    Span(diffMs / MsPerDay,
         TruncRem(diffMs, MsPerDay) / MsPerHour,
         TruncRem(diffMs, MsPerHour) / MsPerMinute,
         TruncRem(diffMs, MsPerMinute) / MsPerSecond)
  }

  /** `calculateTimeDifference(startTime, endTime)`. Date parsing is the
      parameter `parseDate` (`None` is an invalid date, whose `getTime()` is
      NaN, so every unit prints as "NaN"). */
  function CalculateTimeDifference(startTime: string, endTime: string, parseDate: string -> Option<int>): string {
    var start, end := parseDate(startTime), parseDate(endTime);
    if start.Some? && end.Some? then ElapsedText(ElapsedSpan(end.value - start.value))
    else "NaNh NaNm NaNs"
  }

  // ---------------------------------------------------------------------
  // parseDurationToSeconds
  // ---------------------------------------------------------------------

  /** `NaN`-propagating multiplication and addition. */
  function Scale(v: Option<int>, factor: int): Option<int> {
    match v
    case Some(x) => Some(x * factor)
    case None => None
  }

  function AddSeconds(a: Option<int>, b: Option<int>): Option<int> {
    if a.Some? && b.Some? then Some(a.value + b.value) else None
  }

  /** The unit letter a part is read with: the letters are tested in the
      order d, h, m, s. */
  function UnitLetter(part: string): (u: Option<char>)
    ensures u.Some? ==> u.value in part
    ensures u.None? <==> 'd' !in part && 'h' !in part && 'm' !in part && 's' !in part
  {
    if 'd' in part then Some('d')
    else if 'h' in part then Some('h')
    else if 'm' in part then Some('m')
    else if 's' in part then Some('s')
    else None
  }

  /** Seconds per unit letter. */
  function UnitFactor(unit: char): int {
    if unit == 'd' then SecondsPerDay
    else if unit == 'h' then SecondsPerHour
    else if unit == 'm' then SecondsPerMinute
    else 1
  }

  /** `v` units in seconds. */
  function UnitSeconds(v: int, unit: char): int {
    if unit == 'd' then v * SecondsPerDay
    else if unit == 'h' then v * SecondsPerHour
    else if unit == 'm' then v * SecondsPerMinute
    else v
  }

  /** What one space-separated part adds: the number left after removing
      the first unit letter, times the unit, and 0 for a part with no unit
      letter. */
  function PartSeconds(part: string): Option<int> {
    match UnitLetter(part)
    case None => Some(0)
    case Some(unit) => Scale(ParseInt(RemoveFirst(part, unit)), UnitFactor(unit))
  }

  /** The running total after the given parts. */
  function SumParts(parts: seq<string>, read: string -> Option<int>): Option<int> {
    if parts == [] then Some(0)
    else AddSeconds(SumParts(parts[..|parts| - 1], read), read(parts[|parts| - 1]))
  }

  /** The number `parseDurationToSeconds` returns (`None` is NaN). */
  function DurationSeconds(duration: string): Option<int> {
    SumParts(Split(duration, " "), PartSeconds)
  }

  /** `parseDurationToSeconds(duration)`: accumulates the parts' seconds in
      the order they appear. */
  method ParseDurationToSeconds(duration: string) returns (totalSeconds: Option<int>)
    ensures totalSeconds == DurationSeconds(duration)
  {
    var parts := Split(duration, " ");
    totalSeconds := Some(0);
    var i := 0;
    while i < |parts|
      invariant 0 <= i <= |parts|
      invariant totalSeconds == SumParts(parts[..i], PartSeconds)
    {
      var part := parts[i];
      var unit := UnitLetter(part);
      if unit.Some? {
        var value := ParseInt(RemoveFirst(part, unit.value));
        totalSeconds := AddSeconds(totalSeconds, Scale(value, UnitFactor(unit.value)));
      }
      assert parts[..i + 1][..i] == parts[..i];
      i := i + 1;
    }
    assert parts[..i] == parts;
  }

  /** The empty text and any text without unit letters is worth 0 seconds. */
  lemma DurationOfEmpty()
    ensures DurationSeconds("") == Some(0)
  {
    assert Split("", " ") == [""];
  }

  // ---------------------------------------------------------------------
  // Round trips
  // ---------------------------------------------------------------------

  /** The digits of a number hold no unit letter and no space. */
  lemma NumberTextLetters(v: int)
    ensures var t := IntToString(v); 'd' !in t && 'h' !in t && 'm' !in t && 's' !in t && ' ' !in t
  {
    var t := IntToString(v);
    IntToStringChars(v);
    forall k | 0 <= k < |t| ensures t[k] !in "dhms " {
      assert IsDigit(t[k]) || t[k] == '-';
    }
  }

  lemma UnitNoSpace(v: int, unit: char)
    requires unit != ' '
    ensures ' ' !in UnitText(v, unit)
  {
    NumberTextLetters(v);
  }

  /** A unit part holds no space and reads back as its value times the
      unit. */
  lemma UnitPart(v: int, unit: char)
    requires unit in "dhms"
    ensures ' ' !in UnitText(v, unit)
    ensures PartSeconds(UnitText(v, unit)) == Some(UnitSeconds(v, unit))
  {
    var digits := IntToString(v);
    NumberTextLetters(v);
    var t := digits + [unit];
    assert forall c :: c in t <==> c in digits || c == unit;
    RemoveFirstAtEnd(digits, unit);
    ParseIntOfIntToString(v);
  }

  /** The seconds each of a list of amounts stands for. */
  function Values(amounts: seq<Amount>): seq<int> {
    seq(|amounts|, k requires 0 <= k < |amounts| => UnitSeconds(amounts[k].value, amounts[k].unit))
  }

  function Total(values: seq<int>): int {
    if values == [] then 0 else Total(values[..|values| - 1]) + values[|values| - 1]
  }

  /** Parts whose values the reader knows add up to the sum of those
      values. */
  lemma {:induction false} SumKnownParts(read: string -> Option<int>, parts: seq<string>, values: seq<int>)
    requires |parts| == |values|
    requires forall k :: 0 <= k < |parts| ==> read(parts[k]) == Some(values[k])
    ensures SumParts(parts, read) == Some(Total(values))
    decreases |parts|
  {
    if parts != [] {
      var n := |parts| - 1;
      SumKnownParts(read, parts[..n], values[..n]);
    }
  }

  /** Space-free parts joined with single spaces read back part by part. */
  lemma ReadJoined(read: string -> Option<int>, parts: seq<string>, values: seq<int>)
    requires |parts| == |values| >= 1
    requires forall k :: 0 <= k < |parts| ==> ' ' !in parts[k] && read(parts[k]) == Some(values[k])
    ensures SumParts(Split(Join(parts, " "), " "), read) == Some(Total(values))
  {
    SplitJoin(parts, ' ');
    SumKnownParts(read, parts, values);
  }

  /** `parseDurationToSeconds` reads the text of amounts back as their
      seconds. */
  lemma ReadAmounts(amounts: seq<Amount>)
    requires |amounts| >= 1
    requires forall k :: 0 <= k < |amounts| ==> amounts[k].unit in "dhms"
    ensures DurationSeconds(Join(Texts(amounts), " ")) == Some(Total(Values(amounts)))
  {
    var texts, values := Texts(amounts), Values(amounts);
    forall k | 0 <= k < |texts| ensures ' ' !in texts[k] && PartSeconds(texts[k]) == Some(values[k]) {
      UnitPart(amounts[k].value, amounts[k].unit);
    }
    ReadJoined(PartSeconds, texts, values);
  }

  /** The amounts of a span stand for its total, for a span without negative
      units. */
  lemma SpanAmountsTotal(sp: Span)
    requires sp.NonNegative()
    ensures Total(Values(SpanAmounts(sp))) == sp.TotalSeconds()
    ensures Total(Values(ElapsedAmounts(sp))) == sp.TotalSeconds()
    ensures forall k :: 0 <= k < |SpanAmounts(sp)| ==> SpanAmounts(sp)[k].unit in "dhms"
    ensures forall k :: 0 <= k < |ElapsedAmounts(sp)| ==> ElapsedAmounts(sp)[k].unit in "dhms"
  {
    var d, h, m, s := Amount(sp.days, 'd'), Amount(sp.hours, 'h'), Amount(sp.minutes, 'm'), Amount(sp.seconds, 's');
    var a, b, c, e := sp.days * SecondsPerDay, sp.hours * SecondsPerHour, sp.minutes * SecondsPerMinute, sp.seconds;
    assert Values([d, h, m, s]) == [a, b, c, e];
    assert Values([h, m, s]) == [b, c, e];
    assert Values([m, s]) == [c, e];
    assert Values([s]) == [e];
    TotalOfFour(a, b, c, e);
  }

  lemma TotalOfFour(a: int, b: int, c: int, d: int)
    ensures Total([a, b, c, d]) == a + b + c + d
    ensures Total([b, c, d]) == b + c + d
    ensures Total([c, d]) == c + d
    ensures Total([d]) == d
  {
    assert [d][..0] == [] && [c][..0] == [] && [b][..0] == [];
    assert [c, d][..1] == [c] && [b, c][..1] == [b];
    assert [b, c, d][..2] == [b, c] && [a, b, c][..2] == [a, b] && [a, b][..1] == [a];
    assert [a, b, c, d][..3] == [a, b, c];
    assert Total([b]) == b && Total([c]) == c && Total([d]) == d;
    assert Total([b, c]) == b + c && Total([c, d]) == c + d;
    assert [a][..0] == [] && Total([a]) == a && Total([a, b]) == a + b;
    assert Total([a, b, c]) == Total([a, b]) + c;
  }

  /** Reading a `formatDuration`-style text gives back the span's total. */
  lemma SpanTextRoundTrip(sp: Span)
    requires sp.NonNegative()
    ensures DurationSeconds(SpanText(sp)) == Some(sp.TotalSeconds())
  {
    SpanAmountsTotal(sp);
    ReadAmounts(SpanAmounts(sp));
  }

  /** Reading a `calculateTimeDifference`-style text gives back the span's
      total. */
  lemma ElapsedTextRoundTrip(sp: Span)
    requires sp.NonNegative()
    ensures DurationSeconds(ElapsedText(sp)) == Some(sp.TotalSeconds())
  {
    SpanAmountsTotal(sp);
    ReadAmounts(ElapsedAmounts(sp));
  }

  /** For a natural number `formatDuration` prints days, hours, minutes and
      seconds with hours < 24, minutes < 60, seconds < 60, leaving out
      leading zero units. */
  lemma FormatDurationShape(n: nat)
    ensures FormatDuration(n) == SpanText(Decompose(n))
    ensures Decompose(n).Normal() && Decompose(n).TotalSeconds() == n
  {
  }

  /** `parseDurationToSeconds(formatDuration(n)) == n`. */
  lemma FormatDurationRoundTrip(n: nat)
    ensures DurationSeconds(FormatDuration(n)) == Some(n)
  {
    FormatDurationShape(n);
    SpanTextRoundTrip(Decompose(n));
  }

  /** For a non-negative difference the span printed by
      `calculateTimeDifference` is the whole seconds of the difference. */
  lemma ElapsedSpanOfNonNegative(diffMs: nat)
    ensures ElapsedSpan(diffMs) == Decompose(diffMs / MsPerSecond)
  {
    var n := diffMs / MsPerSecond;
    var r := diffMs % MsPerSecond;
    var sp := Decompose(n);
    DivModUnique(diffMs, MsPerDay, sp.days, (sp.hours * SecondsPerHour + sp.minutes * SecondsPerMinute + sp.seconds) * 1000 + r);
    DivModUnique(diffMs, MsPerHour, sp.days * 24 + sp.hours, (sp.minutes * SecondsPerMinute + sp.seconds) * 1000 + r);
    DivModUnique(diffMs % MsPerDay, MsPerHour, sp.hours, (sp.minutes * SecondsPerMinute + sp.seconds) * 1000 + r);
    DivModUnique(diffMs, MsPerMinute, sp.days * 1440 + sp.hours * 60 + sp.minutes, sp.seconds * 1000 + r);
    DivModUnique(diffMs % MsPerHour, MsPerMinute, sp.minutes, sp.seconds * 1000 + r);
    DivModUnique(diffMs % MsPerMinute, MsPerSecond, sp.seconds, r);
  }

  /** The elapsed text of a non-negative difference reads back as its whole
      seconds. */
  lemma ElapsedDiffRoundTrip(diffMs: nat)
    ensures DurationSeconds(ElapsedText(ElapsedSpan(diffMs))) == Some(diffMs / MsPerSecond)
  {
    var sp := Decompose(diffMs / MsPerSecond);
    ElapsedSpanOfNonNegative(diffMs);
    ElapsedTextRoundTrip(sp);
  }

  /** The charts read interval durations back with
      `parseDurationToSeconds`: for an end not before the start this gives
      the whole seconds elapsed. */
  lemma TimeDifferenceRoundTrip(startTime: string, endTime: string, parseDate: string -> Option<int>)
    requires parseDate(startTime).Some? && parseDate(endTime).Some?
    requires parseDate(endTime).value >= parseDate(startTime).value
    ensures DurationSeconds(CalculateTimeDifference(startTime, endTime, parseDate))
         == Some((parseDate(endTime).value - parseDate(startTime).value) / MsPerSecond)
  {
    var diff: nat := parseDate(endTime).value - parseDate(startTime).value;
    var text := CalculateTimeDifference(startTime, endTime, parseDate);
    assert text == ElapsedText(ElapsedSpan(diff));
    ElapsedDiffRoundTrip(diff);
    assert DurationSeconds(text) == Some(diff / MsPerSecond);
    assert diff == parseDate(endTime).value - parseDate(startTime).value;
    assert DurationSeconds(CalculateTimeDifference(startTime, endTime, parseDate)) == Some(diff / MsPerSecond);
  }
}
