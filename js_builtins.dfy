/** The JavaScript built-ins the core leans on, stated over `string` and
    `int`: decimal printing of integers, `parseInt`, `String.prototype.trim`,
    `split`, `includes`, `toLowerCase` on ASCII letters, `replace` of a single
    character, and the truncating remainder operator `%`. */
module JsBuiltins {
  import opened Wrappers

  /** The built-ins whose results depend on the host's clock and time zone
      or on binary floating point, taken as given: `new Date(s).getTime()`
      and `parseFloat(s)` (`None` for `NaN`), and the text of
      `(ms / 1000).toFixed(2)` for a whole number of milliseconds. */
  datatype Host = Host(
    parseDate: string -> Option<int>,
    parseFloat: string -> Option<real>,
    secondsToFixed2: int -> string)

  // ---------------------------------------------------------------------
  // Integer arithmetic
  // ---------------------------------------------------------------------

  /** JavaScript's `a % d`: the remainder takes the sign of the dividend.
      (Dafny's `%` is Euclidean; Dafny's `/` with a positive divisor is
      already `Math.floor(a / d)`.) */
  function TruncRem(a: int, d: int): (r: int)
    requires d > 0
    ensures a >= 0 ==> r == a % d
    ensures -d < r < d && (r < 0 ==> a < 0)
  {
    if a >= 0 then a % d else -((-a) % d)
  }

  // ---------------------------------------------------------------------
  // Digits and printing of integers
  // ---------------------------------------------------------------------

  predicate IsDigit(c: char) { '0' <= c <= '9' }

  /** A digit of base 10, or of base 16 when `hex` holds. */
  predicate IsRadixDigit(c: char, hex: bool) {
    IsDigit(c) || (hex && ('a' <= c <= 'f' || 'A' <= c <= 'F'))
  }

  predicate AllRadixDigits(s: string, hex: bool) {
    forall i :: 0 <= i < |s| ==> IsRadixDigit(s[i], hex)
  }

  function DigitValue(c: char): nat
    requires IsRadixDigit(c, true)
  {
    if IsDigit(c) then c as int - '0' as int
    else if 'a' <= c <= 'f' then c as int - 'a' as int + 10
    else c as int - 'A' as int + 10
  }

  function DigitChar(d: nat): (c: char)
    requires d < 10
    ensures IsDigit(c) && DigitValue(c) == d
  {
    ('0' as int + d) as char
  }

  /** The number a string of digits denotes, most significant digit first. */
  function RadixValue(s: string, hex: bool): nat
    requires AllRadixDigits(s, hex)
  {
    if s == [] then 0
    else RadixValue(s[..|s| - 1], hex) * (if hex then 16 else 10) + DigitValue(s[|s| - 1])
  }

  /** `${n}` for a natural number: its decimal digits, no leading zero. */
  function NatToString(n: nat): (s: string)
    ensures |s| >= 1
  {
    if n < 10 then [DigitChar(n)] else NatToString(n / 10) + [DigitChar(n % 10)]
  }

  /** The text of a natural number is made of decimal digits that denote it,
      with no leading zero. */
  lemma {:induction false} NatToStringDigits(n: nat)
    ensures var s := NatToString(n);
      AllRadixDigits(s, false) && RadixValue(s, false) == n && (s[0] == '0' ==> n == 0 && |s| == 1)
  {
    if n >= 10 {
      NatToStringDigits(n / 10);
      var prefix := NatToString(n / 10);
      var s := NatToString(n);
      assert s[..|s| - 1] == prefix;
    }
  }

  /** `${i}` for an integer. */
  function IntToString(i: int): (s: string)
    ensures |s| >= 1
  {
    if i < 0 then "-" + NatToString(-i) else NatToString(i)
  }

  /** The text of an integer is made of digits and a minus sign. */
  lemma IntToStringChars(i: int)
    ensures forall k :: 0 <= k < |IntToString(i)| ==> IsDigit(IntToString(i)[k]) || IntToString(i)[k] == '-'
  {
    NatToStringDigits(if i < 0 then -i else i);
  }

  // ---------------------------------------------------------------------
  // parseInt (no radix argument)
  // ---------------------------------------------------------------------

  /** The digits `s` starts with. */
  function LeadingDigits(s: string, hex: bool): string {
    if s == [] || !IsRadixDigit(s[0], hex) then []
    else [s[0]] + LeadingDigits(s[1..], hex)
  }

  /** `LeadingDigits` is the longest prefix of `s` made of digits. */
  lemma {:induction false} LeadingDigitsPrefix(s: string, hex: bool)
    ensures var d := LeadingDigits(s, hex);
      d <= s && AllRadixDigits(d, hex) && (|d| == |s| || !IsRadixDigit(s[|d|], hex))
    decreases |s|
  {
    if s != [] && IsRadixDigit(s[0], hex) {
      LeadingDigitsPrefix(s[1..], hex);
    }
  }

  /** The digits `parseInt` reads after the sign: hexadecimal after a
      `0x`/`0X` prefix, decimal otherwise, up to the first other character;
      `None` when there is no digit. */
  function ParseUnsigned(u: string): Option<nat> {
    var hex := |u| >= 2 && u[0] == '0' && (u[1] == 'x' || u[1] == 'X');
    var rest := if hex then u[2..] else u;
    var digits := LeadingDigits(rest, hex);
    LeadingDigitsPrefix(rest, hex);
    if digits == [] then None else Some(RadixValue(digits, hex))
  }

  /** An optional sign, then the digits. */
  function ParseSigned(t: string): Option<int> {
    var negative := |t| > 0 && t[0] == '-';
    var unsigned := if |t| > 0 && (t[0] == '-' || t[0] == '+') then t[1..] else t;
    var v := ParseUnsigned(unsigned);
    if v.None? then None else Some(if negative then -(v.value as int) else v.value)
  }

  /** `parseInt(s)`: skip leading white space, read an optional sign, then
      the digits; `None` is `NaN` (no digit at all). */
  function ParseInt(s: string): Option<int> {
    ParseSigned(TrimStart(s))
  }

  lemma {:induction false} LeadingDigitsOfDigits(s: string, hex: bool)
    requires AllRadixDigits(s, hex)
    ensures LeadingDigits(s, hex) == s
    decreases |s|
  {
    if s != [] {
      LeadingDigitsOfDigits(s[1..], hex);
    }
  }

  /** A minus sign negates what the digits after it read as. */
  lemma ParseSignedMinus(u: string)
    ensures var v := ParseUnsigned(u);
      ParseSigned("-" + u) == if v.None? then None else Some(-(v.value as int))
  {
    assert ("-" + u)[1..] == u;
  }

  /** `parseInt` reads an unsigned number that starts with a digit. */
  lemma ParseIntUnsigned(u: string)
    requires u != [] && IsDigit(u[0])
    ensures ParseInt(u) == ParseUnsigned(u)
  {
    TrimStartUnchanged(u);
    var v := ParseUnsigned(u);
    assert ParseSigned(u) == if v.None? then None else Some(v.value as int);
  }

  /** `parseInt` negates an unsigned number after a minus sign. */
  lemma ParseIntMinus(u: string)
    requires ParseUnsigned(u).Some?
    ensures ParseInt("-" + u) == Some(-(ParseUnsigned(u).value as int))
  {
    ParseSignedMinus(u);
    TrimStartUnchanged("-" + u);
  }

  lemma ParseUnsignedOfDigits(d: string)
    requires |d| >= 1 && AllRadixDigits(d, false) && (d[0] == '0' ==> |d| == 1)
    ensures ParseUnsigned(d) == Some(RadixValue(d, false))
  {
    LeadingDigitsOfDigits(d, false);
  }

  /** `parseInt` reads back what `${i}` prints. */
  lemma ParseIntOfIntToString(i: int)
    ensures ParseInt(IntToString(i)) == Some(i)
  {
    var n: nat := if i < 0 then -i else i;
    var d := NatToString(n);
    NatToStringDigits(n);
    ParseUnsignedOfDigits(d);
    if i < 0 {
      ParseIntMinus(d);
    } else {
      ParseIntUnsigned(d);
    }
  }

  // ---------------------------------------------------------------------
  // trim
  // ---------------------------------------------------------------------

  /** The characters `String.prototype.trim` removes: white space and line
      terminators. */
  predicate IsJsSpace(c: char) {
    c == '\t' || c == '\n' || c == '\U{000B}' || c == '\U{000C}' || c == '\r' || c == ' '
    || c == '\U{00A0}' || c == '\U{1680}' || ('\U{2000}' <= c <= '\U{200A}')
    || c == '\U{2028}' || c == '\U{2029}' || c == '\U{202F}' || c == '\U{205F}'
    || c == '\U{3000}' || c == '\U{FEFF}'
  }

  function TrimStart(s: string): string {
    if s != [] && IsJsSpace(s[0]) then TrimStart(s[1..]) else s
  }

  /** `trimStart` drops the leading white space and nothing else. */
  lemma {:induction false} TrimStartSpec(s: string)
    ensures var r := TrimStart(s);
      |r| <= |s| && r == s[|s| - |r|..]
      && (r == [] || !IsJsSpace(r[0]))
      && forall i :: 0 <= i < |s| - |r| ==> IsJsSpace(s[i])
  {
    if s != [] && IsJsSpace(s[0]) {
      var t := s[1..];
      TrimStartSpec(t);
      var r := TrimStart(t);
      assert TrimStart(s) == r;
      assert t[|t| - |r|..] == s[|s| - |r|..];
      forall i | 0 <= i < |s| - |r|
        ensures IsJsSpace(s[i])
      {
        if i > 0 {
          assert s[i] == t[i - 1];
        }
      }
    }
  }

  lemma TrimStartUnchanged(s: string)
    requires s == [] || !IsJsSpace(s[0])
    ensures TrimStart(s) == s
  {
  }

  function TrimEnd(s: string): string {
    if s != [] && IsJsSpace(s[|s| - 1]) then TrimEnd(s[..|s| - 1]) else s
  }

  /** `trimEnd` drops the trailing white space and nothing else. */
  lemma {:induction false} TrimEndSpec(s: string)
    ensures var r := TrimEnd(s);
      |r| <= |s| && r == s[..|r|]
      && (r == [] || !IsJsSpace(r[|r| - 1]))
      && forall i :: |r| <= i < |s| ==> IsJsSpace(s[i])
  {
    if s != [] && IsJsSpace(s[|s| - 1]) {
      var t := s[..|s| - 1];
      TrimEndSpec(t);
      var r := TrimEnd(t);
      assert TrimEnd(s) == r;
      assert t[..|r|] == s[..|r|];
      forall i | |r| <= i < |s|
        ensures IsJsSpace(s[i])
      {
        if i < |s| - 1 {
          assert s[i] == t[i];
        }
      }
    }
  }

  function Trim(s: string): string {
    TrimEnd(TrimStart(s))
  }

  /** `trim` leaves a piece of the text that neither starts nor ends with
      white space, and drops only white space around it. */
  lemma TrimSpec(s: string)
    ensures var r, a := Trim(s), |s| - |TrimStart(s)|;
      (r == [] || (!IsJsSpace(r[0]) && !IsJsSpace(r[|r| - 1])))
      && 0 <= a <= |s| - |r| && r == s[a..a + |r|]
      && (forall i :: 0 <= i < a ==> IsJsSpace(s[i]))
      && (forall i :: a + |r| <= i < |s| ==> IsJsSpace(s[i]))
  {
    var t := TrimStart(s);
    TrimStartSpec(s);
    TrimEndSpec(t);
    var r := TrimEnd(t);
    var a := |s| - |t|;
    assert t == s[a..] && r == t[..|r|];
    assert s[a..][..|r|] == s[a..a + |r|];
    if r != [] {
      assert r[0] == t[0];
    }
    forall i | a + |r| <= i < |s|
      ensures IsJsSpace(s[i])
    {
      assert s[i] == t[i - a];
    }
  }

  /** Trimming twice is trimming once. */
  lemma TrimIdempotent(s: string)
    ensures Trim(Trim(s)) == Trim(s)
  {
    var r := Trim(s);
    TrimSpec(s);
    TrimStartUnchanged(r);
    if r != [] {
      assert TrimEnd(r) == r;
    }
  }

  // ---------------------------------------------------------------------
  // includes, split, join
  // ---------------------------------------------------------------------

  /** `sub` occurs in `s` starting at position `q`. */
  predicate OccursAt(s: string, sub: string, q: nat) {
    q + |sub| <= |s| && s[q..q + |sub|] == sub
  }

  lemma OccursShift(s: string, sub: string, q: nat)
    requires |s| >= 1
    ensures OccursAt(s, sub, q + 1) <==> OccursAt(s[1..], sub, q)
  {
    if q + 1 + |sub| <= |s| {
      var whole, tail := s[q + 1..q + 1 + |sub|], s[1..][q..q + |sub|];
      assert forall k :: 0 <= k < |sub| ==> whole[k] == tail[k];
      assert whole == tail;
    }
  }

  lemma OccursShiftAll(s: string, sub: string)
    requires |s| >= 1
    ensures forall q: nat :: OccursAt(s, sub, q + 1) <==> OccursAt(s[1..], sub, q)
  {
    forall q: nat ensures OccursAt(s, sub, q + 1) <==> OccursAt(s[1..], sub, q) {
      OccursShift(s, sub, q);
    }
  }

  lemma OccursInPrefix(s: string, sub: string, p: nat, q: nat)
    requires p <= |s|
    ensures OccursAt(s[..p], sub, q) <==> q + |sub| <= p && OccursAt(s, sub, q)
  {
    if q + |sub| <= p {
      assert s[..p][q..q + |sub|] == s[q..q + |sub|];
    }
  }

  /** `s.indexOf(sub)`: the first position where `sub` occurs. */
  function IndexOf(s: string, sub: string): (r: Option<nat>)
    ensures r.Some? ==> OccursAt(s, sub, r.value)
    ensures r.Some? ==> forall q: nat :: q < r.value ==> !OccursAt(s, sub, q)
    ensures r.None? ==> forall q: nat :: !OccursAt(s, sub, q)
    decreases |s|
  {
    if |s| < |sub| then None
    else if s[..|sub|] == sub then Some(0)
    else
      var rest := IndexOf(s[1..], sub);
      OccursShiftAll(s, sub);
      assert !OccursAt(s, sub, 0);
      assert forall q: nat :: q >= 1 ==> (OccursAt(s, sub, q) <==> OccursAt(s[1..], sub, q - 1));
      match rest
      case None => None
      case Some(p) => Some(p + 1)
  }

  /** `s.includes(sub)`. */
  predicate Contains(s: string, sub: string) {
    IndexOf(s, sub).Some?
  }

  /** Searching for a one-character string finds exactly its occurrences. */
  lemma ContainsChar(s: string, c: char)
    ensures Contains(s, [c]) <==> c in s
  {
    if c in s {
      var q :| 0 <= q < |s| && s[q] == c;
      assert s[q..q + 1] == [c];
      assert OccursAt(s, [c], q);
    }
    if Contains(s, [c]) {
      var q := IndexOf(s, [c]).value;
      assert s[q..q + 1][0] == s[q];
    }
  }

  /** `parts.join(sep)`. */
  function Join(parts: seq<string>, sep: string): string {
    if parts == [] then []
    else if |parts| == 1 then parts[0]
    else parts[0] + sep + Join(parts[1..], sep)
  }

  /** `s.split(sep)` for a string separator: with an empty separator the
      characters of `s` (none for the empty string), otherwise the pieces
      between the occurrences of `sep`, found left to right. Joining the
      pieces with `sep` gives `s` back. */
  function Split(s: string, sep: string): (parts: seq<string>)
    ensures Join(parts, sep) == s
    ensures sep != [] ==> |parts| >= 1
    decreases |s|
  {
    if sep == [] then
      if s == [] then [] else [[s[0]]] + Split(s[1..], sep)
    else
      match IndexOf(s, sep)
      case None => [s]
      case Some(p) =>
        assert s == s[..p] + sep + s[p + |sep|..];
        [s[..p]] + Split(s[p + |sep|..], sep)
  }

  /** With a non-empty separator no piece contains the separator, and there
      is more than one piece exactly when `s` contains it. */
  lemma {:induction false} SplitPieces(s: string, sep: string)
    requires sep != []
    ensures forall k :: 0 <= k < |Split(s, sep)| ==> !Contains(Split(s, sep)[k], sep)
    ensures |Split(s, sep)| == 1 <==> !Contains(s, sep)
    decreases |s|
  {
    match IndexOf(s, sep)
    case None =>
    case Some(p) =>
      var rest := s[p + |sep|..];
      SplitPieces(rest, sep);
      forall q: nat ensures !OccursAt(s[..p], sep, q) {
        OccursInPrefix(s, sep, p, q);
      }
      assert !Contains(s[..p], sep);
      assert Split(s, sep) == [s[..p]] + Split(rest, sep);
  }

  /** Splitting on a one-character separator cuts at its first occurrence. */
  lemma SplitAtFirst(a: string, c: char, b: string)
    requires c !in a
    ensures Split(a + [c] + b, [c]) == [a] + Split(b, [c])
  {
    var s := a + [c] + b;
    assert OccursAt(s, [c], |a|);
    forall q: nat | q < |a| ensures !OccursAt(s, [c], q) {
      assert s[q] == a[q];
    }
    assert IndexOf(s, [c]) == Some(|a|);
    assert s[..|a|] == a;
    assert s[|a| + 1..] == b;
  }

  /** A string without the separator splits into itself. */
  lemma SplitWhole(a: string, c: char)
    requires c !in a
    ensures Split(a, [c]) == [a]
  {
    forall q: nat ensures !OccursAt(a, [c], q) {
      if q < |a| { assert a[q..q + 1] == [a[q]]; }
    }
  }

  /** Splitting undoes joining with a one-character separator that no part
      contains. */
  lemma {:induction false} SplitJoin(parts: seq<string>, c: char)
    requires |parts| >= 1
    requires forall k :: 0 <= k < |parts| ==> c !in parts[k]
    ensures Split(Join(parts, [c]), [c]) == parts
    decreases |parts|
  {
    if |parts| == 1 {
      SplitWhole(parts[0], c);
    } else {
      SplitJoin(parts[1..], c);
      SplitAtFirst(parts[0], c, Join(parts[1..], [c]));
      assert parts == [parts[0]] + parts[1..];
    }
  }

  // ---------------------------------------------------------------------
  // toLowerCase, replace
  // ---------------------------------------------------------------------

  function LowerChar(c: char): char {
    if 'A' <= c <= 'Z' then (c as int - 'A' as int + 'a' as int) as char else c
  }

  /** `s.toLowerCase()` on ASCII letters. */
  function ToLowerAscii(s: string): (r: string)
    ensures |r| == |s|
  {
    seq(|s|, i requires 0 <= i < |s| => LowerChar(s[i]))
  }

  /** `s.replace(c, '')` for a one-character pattern: only the first
      occurrence goes. */
  function RemoveFirst(s: string, c: char): (r: string)
    ensures c in s ==> |r| == |s| - 1
    ensures c !in s ==> r == s
  {
    if s == [] then []
    else if s[0] == c then s[1..]
    else [s[0]] + RemoveFirst(s[1..], c)
  }

  /** Removing the first `c` from a string that ends with its only `c`
      drops that last character. */
  lemma {:induction false} RemoveFirstAtEnd(s: string, c: char)
    requires c !in s
    ensures RemoveFirst(s + [c], c) == s
  {
    if s != [] {
      assert (s + [c])[1..] == s[1..] + [c];
      RemoveFirstAtEnd(s[1..], c);
    }
  }
}
