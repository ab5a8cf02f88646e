/** Calendar dates and the three `datetime.strptime` formats the account
    extraction uses: "%Y-%m-%d", "%m/%d/%Y" and "%Y-%m-%dT%H:%M:%SZ".

    CPython's strptime builds one regular expression per format, matches it
    against the whole string (a leftover suffix is a ValueError), compares
    literal characters case-insensitively, and then builds a `date`, which
    rejects a day that does not exist in its month (leap years included) and
    the year 0.  The field patterns are those of CPython's `_strptime`:
      %Y  four digits
      %m  1[0-2] | 0[1-9] | [1-9]
      %d  3[01] | [12]d | 0[1-9] | [1-9] | " "[1-9]
      %H  2[0-3] | [01]d | d
      %M  [0-5]d | d
      %S  6[01] | [0-5]d | d      (60 and 61 are then rejected by `datetime`)
    A `None` result below stands for the ValueError strptime raises. */
module Dates {
  import opened Wrappers

  /** A `datetime.date`: year, month (1..12), day. */
  datatype Date = Date(year: int, month: int, day: int)

  predicate IsLeapYear(year: int) {
    year % 4 == 0 && (year % 100 != 0 || year % 400 == 0)
  }

  function DaysInMonth(year: int, month: int): (n: int)
    requires 1 <= month <= 12
    ensures 28 <= n <= 31
  {
    if month == 2 then (if IsLeapYear(year) then 29 else 28)
    else if month == 4 || month == 6 || month == 9 || month == 11 then 30
    else 31
  }

  /** The dates `datetime.date` can hold: years 1..9999, a day that exists. */
  predicate ValidDate(d: Date) {
    1 <= d.year <= 9999 && 1 <= d.month <= 12 && 1 <= d.day <= DaysInMonth(d.year, d.month)
  }

  /** Chronological order. */
  predicate DateLe(a: Date, b: Date) {
    a.year < b.year
    || (a.year == b.year && (a.month < b.month || (a.month == b.month && a.day <= b.day)))
  }

  /** `date(year, month, day)`: `None` where Python raises ValueError. */
  function MakeDate(year: int, month: int, day: int): (r: Option<Date>)
    ensures r.Some? <==> ValidDate(Date(year, month, day))
    ensures r.Some? ==> r.value == Date(year, month, day)
  {
    if 1 <= year <= 9999 && 1 <= month <= 12 && 1 <= day <= DaysInMonth(year, month)
    then Some(Date(year, month, day))
    else None
  }

  // ---------------------------------------------------------------------
  // Format strings

  datatype Field = YearField | MonthField | DayField | HourField | MinuteField | SecondField

  /** A format string: literal characters and numeric `%` directives. */
  datatype Format = End | Lit(c: char, rest: Format) | Num(field: Field, rest: Format)

  predicate IsDigit(c: char) { '0' <= c <= '9' }
  predicate IsNonZeroDigit(c: char) { '1' <= c <= '9' }
  predicate IsLetter(c: char) { 'A' <= c <= 'Z' || 'a' <= c <= 'z' }

  /** Characters a numeric field can consist of (a day may start with a blank). */
  predicate IsFieldChar(c: char) { IsDigit(c) || c == ' ' }

  /** The strings the regular expression of directive `f` matches. */
  predicate InField(f: Field, s: string) {
    match f
    case YearField =>
      |s| == 4 && IsDigit(s[0]) && IsDigit(s[1]) && IsDigit(s[2]) && IsDigit(s[3])
    case MonthField =>
      (|s| == 1 && IsNonZeroDigit(s[0]))
      || (|s| == 2 && ((s[0] == '1' && '0' <= s[1] <= '2') || (s[0] == '0' && IsNonZeroDigit(s[1]))))
    case DayField =>
      (|s| == 1 && IsNonZeroDigit(s[0]))
      || (|s| == 2 && ((s[0] == '3' && '0' <= s[1] <= '1')
                       || ('1' <= s[0] <= '2' && IsDigit(s[1]))
                       || (s[0] == '0' && IsNonZeroDigit(s[1]))
                       || (s[0] == ' ' && IsNonZeroDigit(s[1]))))
    case HourField =>
      (|s| == 1 && IsDigit(s[0]))
      || (|s| == 2 && ((s[0] == '2' && '0' <= s[1] <= '3') || ('0' <= s[0] <= '1' && IsDigit(s[1]))))
    case MinuteField =>
      (|s| == 1 && IsDigit(s[0])) || (|s| == 2 && '0' <= s[0] <= '5' && IsDigit(s[1]))
    case SecondField =>
      (|s| == 1 && IsDigit(s[0]))
      || (|s| == 2 && ((s[0] == '6' && '0' <= s[1] <= '1') || ('0' <= s[0] <= '5' && IsDigit(s[1]))))
  }

  lemma InFieldChars(f: Field, s: string)
    requires InField(f, s)
    ensures forall i :: 0 <= i < |s| ==> IsFieldChar(s[i])
  {
  }

  function CharValue(c: char): nat {
    if IsDigit(c) then c as int - '0' as int else 0
  }

  /** `int(s)` for a field string (a leading blank counts as nothing). */
  function DigitsValue(s: string): nat {
    if s == [] then 0 else 10 * DigitsValue(s[..|s| - 1]) + CharValue(s[|s| - 1])
  }

  /** Length of the longest prefix of `s` made of field characters. */
  function FieldRun(s: string): (n: nat)
    ensures n <= |s|
    ensures forall i :: 0 <= i < n ==> IsFieldChar(s[i])
    ensures n < |s| ==> !IsFieldChar(s[n])
  {
    if s == [] || !IsFieldChar(s[0]) then 0 else 1 + FieldRun(s[1..])
  }

  /** Literal characters are compared ignoring ASCII case. */
  predicate LitMatches(c: char, x: char) {
    x == c
    || ('A' <= c <= 'Z' && x as int == c as int + 32)
    || ('a' <= c <= 'z' && x as int == c as int - 32)
  }

  function NumCount(fmt: Format): nat {
    match fmt
    case End => 0
    case Lit(_, rest) => NumCount(rest)
    case Num(_, rest) => 1 + NumCount(rest)
  }

  /** `parts` holds one string per numeric directive of `fmt`, each in its field's language. */
  predicate PartsFit(fmt: Format, parts: seq<string>) {
    match fmt
    case End => parts == []
    case Lit(_, rest) => PartsFit(rest, parts)
    case Num(f, rest) => |parts| > 0 && InField(f, parts[0]) && PartsFit(rest, parts[1..])
  }

  /** Every numeric directive is followed by a literal (or ends the format), and
      no literal is a field character: then a field extends exactly to the next
      non-field character, as the regular expression's backtracking forces.
      All three formats used by the extraction have this shape. */
  predicate WellFormed(fmt: Format) {
    match fmt
    case End => true
    case Lit(c, rest) => !IsFieldChar(c) && WellFormed(rest)
    case Num(_, rest) => !rest.Num? && WellFormed(rest)
  }

  predicate LetterFree(fmt: Format) {
    match fmt
    case End => true
    case Lit(c, rest) => !IsLetter(c) && LetterFree(rest)
    case Num(_, rest) => LetterFree(rest)
  }

  /** Full-string match of `s` against `fmt`; the matched field strings on success. */
  function MatchParts(fmt: Format, s: string): (r: Option<seq<string>>)
    ensures r.Some? ==> PartsFit(fmt, r.value) && |r.value| == NumCount(fmt)
  {
    match fmt
    case End => if s == [] then Some([]) else None
    case Lit(c, rest) =>
      if |s| > 0 && LitMatches(c, s[0]) then MatchParts(rest, s[1..]) else None
    case Num(f, rest) =>
      var k := FieldRun(s);
      if !InField(f, s[..k]) then None
      else match MatchParts(rest, s[k..])
        case None => None
        case Some(ps) => Some([s[..k]] + ps)
  }

  function Values(parts: seq<string>): (vs: seq<nat>)
    ensures |vs| == |parts|
    ensures forall i :: 0 <= i < |parts| ==> vs[i] == DigitsValue(parts[i])
  {
    if parts == [] then [] else [DigitsValue(parts[0])] + Values(parts[1..])
  }

  /** The string a format produces from field strings, literals as written. */
  function Assemble(fmt: Format, parts: seq<string>): string
    requires PartsFit(fmt, parts)
  {
    match fmt
    case End => []
    case Lit(c, rest) => [c] + Assemble(rest, parts)
    case Num(_, rest) => parts[0] + Assemble(rest, parts[1..])
  }

  lemma {:induction false} FieldRunStops(p: string, rest: string)
    requires forall i :: 0 <= i < |p| ==> IsFieldChar(p[i])
    requires rest == [] || !IsFieldChar(rest[0])
    ensures FieldRun(p + rest) == |p|
  {
    if p != [] {
      assert (p + rest)[1..] == p[1..] + rest;
      FieldRunStops(p[1..], rest);
    }
  }

  /** Matching accepts every string assembled from field strings of the right
      shapes (padded or not) and returns exactly those field strings. */
  lemma {:induction false} MatchAssembled(fmt: Format, parts: seq<string>)
    requires WellFormed(fmt) && PartsFit(fmt, parts)
    ensures MatchParts(fmt, Assemble(fmt, parts)) == Some(parts)
  {
    match fmt
    case End =>
    case Lit(c, rest) =>
      var s := Assemble(fmt, parts);
      assert s[1..] == Assemble(rest, parts);
      MatchAssembled(rest, parts);
    case Num(f, rest) =>
      var s := Assemble(fmt, parts);
      var tail := Assemble(rest, parts[1..]);
      assert s == parts[0] + tail;
      InFieldChars(f, parts[0]);
      assert tail == [] || !IsFieldChar(tail[0]);
      FieldRunStops(parts[0], tail);
      assert s[..|parts[0]|] == parts[0];
      assert s[|parts[0]|..] == tail;
      MatchAssembled(rest, parts[1..]);
      assert [parts[0]] + parts[1..] == parts;
  }

  /** For a format without letters, a successful match means the string is
      exactly the format filled with the returned field strings. */
  lemma {:induction false} MatchedIsAssembled(fmt: Format, s: string)
    requires LetterFree(fmt) && MatchParts(fmt, s).Some?
    ensures s == Assemble(fmt, MatchParts(fmt, s).value)
  {
    match fmt
    case End =>
    case Lit(c, rest) =>
      MatchedIsAssembled(rest, s[1..]);
      assert s == [s[0]] + s[1..];
    case Num(f, rest) =>
      var k := FieldRun(s);
      MatchedIsAssembled(rest, s[k..]);
      assert s == s[..k] + s[k..];
  }

  // ---------------------------------------------------------------------
  // Zero-padded rendering, for the round trips

  function Pow10(n: nat): (p: nat)
    ensures p >= 1
  {
    if n == 0 then 1 else 10 * Pow10(n - 1)
  }

  function Digit(v: nat): char
    requires v < 10
  {
    ('0' as int + v) as char
  }

  /** `v` in decimal, zero-padded (or truncated) to `width` digits. */
  function Pad(v: nat, width: nat): (s: string)
    ensures |s| == width
    ensures forall i :: 0 <= i < width ==> IsDigit(s[i])
  {
    if width == 0 then [] else Pad(v / 10, width - 1) + [Digit(v % 10)]
  }

  lemma {:induction false} PadValue(v: nat, width: nat)
    requires v < Pow10(width)
    ensures DigitsValue(Pad(v, width)) == v
  {
    if width > 0 {
      var s := Pad(v, width);
      assert s[..|s| - 1] == Pad(v / 10, width - 1);
      PadValue(v / 10, width - 1);
    }
  }

  function Width(f: Field): nat {
    if f == YearField then 4 else 2
  }

  /** The values each field can take when written by `strftime`. */
  predicate InRange(f: Field, v: int) {
    match f
    case YearField => 0 <= v <= 9999
    case MonthField => 1 <= v <= 12
    case DayField => 1 <= v <= 31
    case HourField => 0 <= v <= 23
    case MinuteField => 0 <= v <= 59
    case SecondField => 0 <= v <= 59
  }

  lemma PadInField(f: Field, v: nat)
    requires InRange(f, v)
    ensures InField(f, Pad(v, Width(f)))
    ensures DigitsValue(Pad(v, Width(f))) == v
  {
    assert Pow10(2) == 100 && Pow10(4) == 10000;
    PadValue(v, Width(f));
    if f != YearField {
      var s := Pad(v, 2);
      assert Pad(v / 10, 1) == [Digit(v / 10 % 10)];
      assert s == [Digit(v / 10 % 10), Digit(v % 10)];
    }
  }

  // ---------------------------------------------------------------------
  // The three formats

  /** "%Y-%m-%d" */
  const IsoFormat: Format := Num(YearField, Lit('-', Num(MonthField, Lit('-', Num(DayField, End)))))
  /** "%m/%d/%Y" */
  const UsFormat: Format := Num(MonthField, Lit('/', Num(DayField, Lit('/', Num(YearField, End)))))
  /** "%Y-%m-%dT%H:%M:%SZ" */
  const StampFormat: Format :=
    Num(YearField, Lit('-', Num(MonthField, Lit('-', Num(DayField, Lit('T',
    Num(HourField, Lit(':', Num(MinuteField, Lit(':', Num(SecondField, Lit('Z', End))))))))))))

  /** `strptime(s, "%Y-%m-%d").date()`; `None` where it raises ValueError. */
  function ParseIsoDate(s: string): (r: Option<Date>)
    ensures r.Some? ==> ValidDate(r.value)
  {
    match MatchParts(IsoFormat, s)
    case None => None
    case Some(ps) =>
      var vs := Values(ps);
      MakeDate(vs[0], vs[1], vs[2])
  }

  /** `strptime(s, "%m/%d/%Y").date()`; `None` where it raises ValueError. */
  function ParseUsDate(s: string): (r: Option<Date>)
    ensures r.Some? ==> ValidDate(r.value)
  {
    match MatchParts(UsFormat, s)
    case None => None
    case Some(ps) =>
      var vs := Values(ps);
      MakeDate(vs[2], vs[0], vs[1])
  }

  /** `strptime(s, "%Y-%m-%dT%H:%M:%SZ").date()`; `None` where it raises
      ValueError, which includes a second of 60 or 61. */
  function ParseStampDate(s: string): (r: Option<Date>)
    ensures r.Some? ==> ValidDate(r.value)
  {
    match MatchParts(StampFormat, s)
    case None => None
    case Some(ps) =>
      var vs := Values(ps);
      if vs[5] <= 59 then MakeDate(vs[0], vs[1], vs[2]) else None
  }

  /** One field followed by one literal: how `PartsFit` and `Assemble` unfold. */
  lemma FieldThenLit(f: Field, c: char, rest: Format, parts: seq<string>)
    requires |parts| > 0
    ensures PartsFit(Num(f, Lit(c, rest)), parts) <==> InField(f, parts[0]) && PartsFit(rest, parts[1..])
    ensures PartsFit(Num(f, Lit(c, rest)), parts) ==>
              Assemble(Num(f, Lit(c, rest)), parts) == parts[0] + [c] + Assemble(rest, parts[1..])
  {
  }

  /** A field that ends the format. */
  lemma FieldAtEnd(f: Field, parts: seq<string>)
    requires |parts| == 1
    ensures PartsFit(Num(f, End), parts) <==> InField(f, parts[0])
    ensures PartsFit(Num(f, End), parts) ==> Assemble(Num(f, End), parts) == parts[0]
  {
    assert parts[1..] == [];
  }

  /** An ISO date string is accepted when it is three field strings of the %Y,
      %m and %d shapes joined by '-' (not necessarily zero-padded); the result
      is the date they name, or a ValueError when that date does not exist. */
  lemma IsoDateAccepts(y: string, m: string, d: string)
    requires InField(YearField, y) && InField(MonthField, m) && InField(DayField, d)
    ensures ParseIsoDate(y + "-" + m + "-" + d)
            == MakeDate(DigitsValue(y), DigitsValue(m), DigitsValue(d))
  {
    var parts := [y, m, d];
    var dayOn := Num(DayField, End);
    var monthOn := Num(MonthField, Lit('-', dayOn));
    FieldAtEnd(DayField, parts[2..]);
    FieldThenLit(MonthField, '-', dayOn, parts[1..]);
    assert parts[1..][1..] == parts[2..];
    FieldThenLit(YearField, '-', monthOn, parts);
    assert Assemble(IsoFormat, parts) == y + "-" + m + "-" + d;
    MatchAssembled(IsoFormat, parts);
    var vs := Values(parts);
    assert vs[0] == DigitsValue(y) && vs[1] == DigitsValue(m) && vs[2] == DigitsValue(d);
  }

  /** ... and only such strings are accepted. */
  lemma IsoDateOnlyAccepts(s: string)
    requires ParseIsoDate(s).Some?
    ensures exists y, m, d :: InField(YearField, y) && InField(MonthField, m) && InField(DayField, d)
                              && s == y + "-" + m + "-" + d
  {
    var ps := MatchParts(IsoFormat, s).value;
    MatchedIsAssembled(IsoFormat, s);
    var dayOn := Num(DayField, End);
    var monthOn := Num(MonthField, Lit('-', dayOn));
    FieldThenLit(YearField, '-', monthOn, ps);
    FieldThenLit(MonthField, '-', dayOn, ps[1..]);
    assert ps[1..][1..] == ps[2..];
    FieldAtEnd(DayField, ps[2..]);
    var y, m, d := ps[0], ps[1], ps[2];
    assert s == y + "-" + m + "-" + d;
  }

  function FormatIsoDate(d: Date): string
    requires ValidDate(d)
  {
    Pad(d.year, 4) + "-" + Pad(d.month, 2) + "-" + Pad(d.day, 2)
  }

  /** Writing a valid date as "%Y-%m-%d" and parsing it back gives the date. */
  lemma IsoDateRoundTrip(d: Date)
    requires ValidDate(d)
    ensures ParseIsoDate(FormatIsoDate(d)) == Some(d)
  {
    PadInField(YearField, d.year);
    PadInField(MonthField, d.month);
    PadInField(DayField, d.day);
    IsoDateAccepts(Pad(d.year, 4), Pad(d.month, 2), Pad(d.day, 2));
  }

  function FormatUsDate(d: Date): string
    requires ValidDate(d)
  {
    Pad(d.month, 2) + "/" + Pad(d.day, 2) + "/" + Pad(d.year, 4)
  }

  /** A US date string is accepted when it is three field strings of the %m,
      %d and %Y shapes joined by '/' (not necessarily zero-padded); the result
      is the date they name, or a ValueError when that date does not exist. */
  lemma UsDateAccepts(m: string, d: string, y: string)
    requires InField(MonthField, m) && InField(DayField, d) && InField(YearField, y)
    ensures ParseUsDate(m + "/" + d + "/" + y)
            == MakeDate(DigitsValue(y), DigitsValue(m), DigitsValue(d))
  {
    var parts := [m, d, y];
    var yearOn := Num(YearField, End);
    var dayOn := Num(DayField, Lit('/', yearOn));
    FieldAtEnd(YearField, parts[2..]);
    FieldThenLit(DayField, '/', yearOn, parts[1..]);
    assert parts[1..][1..] == parts[2..];
    FieldThenLit(MonthField, '/', dayOn, parts);
    assert Assemble(UsFormat, parts) == m + "/" + d + "/" + y;
    MatchAssembled(UsFormat, parts);
    var vs := Values(parts);
    assert vs[0] == DigitsValue(m) && vs[1] == DigitsValue(d) && vs[2] == DigitsValue(y);
  }

  /** ... and only such strings are accepted. */
  lemma UsDateOnlyAccepts(s: string)
    requires ParseUsDate(s).Some?
    ensures exists m, d, y :: InField(MonthField, m) && InField(DayField, d) && InField(YearField, y)
                              && s == m + "/" + d + "/" + y
  {
    var ps := MatchParts(UsFormat, s).value;
    MatchedIsAssembled(UsFormat, s);
    var yearOn := Num(YearField, End);
    var dayOn := Num(DayField, Lit('/', yearOn));
    FieldThenLit(MonthField, '/', dayOn, ps);
    FieldThenLit(DayField, '/', yearOn, ps[1..]);
    assert ps[1..][1..] == ps[2..];
    FieldAtEnd(YearField, ps[2..]);
    var m, d, y := ps[0], ps[1], ps[2];
    assert s == m + "/" + d + "/" + y;
  }

  /** Writing a valid date as "%m/%d/%Y" and parsing it back gives the date. */
  lemma UsDateRoundTrip(d: Date)
    requires ValidDate(d)
    ensures ParseUsDate(FormatUsDate(d)) == Some(d)
  {
    PadInField(YearField, d.year);
    PadInField(MonthField, d.month);
    PadInField(DayField, d.day);
    UsDateAccepts(Pad(d.month, 2), Pad(d.day, 2), Pad(d.year, 4));
  }

  /** The six zero-padded fields `strftime` writes for a time stamp. */
  function StampParts(d: Date, hour: nat, minute: nat, second: nat): seq<string>
    requires ValidDate(d)
  {
    [Pad(d.year, 4), Pad(d.month, 2), Pad(d.day, 2), Pad(hour, 2), Pad(minute, 2), Pad(second, 2)]
  }

  /** `strftime("%Y-%m-%dT%H:%M:%SZ")`: the format's literals between the padded fields. */
  function FormatStamp(d: Date, hour: nat, minute: nat, second: nat): string
    requires ValidDate(d) && hour <= 23 && minute <= 59 && second <= 59
  {
    StampFitsPadded(d, hour, minute, second);
    Assemble(StampFormat, StampParts(d, hour, minute, second))
  }

  lemma StampFitsPadded(d: Date, hour: nat, minute: nat, second: nat)
    requires ValidDate(d) && hour <= 23 && minute <= 59 && second <= 59
    ensures PartsFit(StampFormat, StampParts(d, hour, minute, second))
  {
    var ps := StampParts(d, hour, minute, second);
    PadInField(YearField, d.year);
    PadInField(MonthField, d.month);
    PadInField(DayField, d.day);
    PadInField(HourField, hour);
    PadInField(MinuteField, minute);
    PadInField(SecondField, second);
    var secondOn := Num(SecondField, Lit('Z', End));
    var minuteOn := Num(MinuteField, Lit(':', secondOn));
    var hourOn := Num(HourField, Lit(':', minuteOn));
    var dayOn := Num(DayField, Lit('T', hourOn));
    var monthOn := Num(MonthField, Lit('-', dayOn));
    assert ps[5..][1..] == [];
    FieldThenLit(SecondField, 'Z', End, ps[5..]);
    assert ps[4..][1..] == ps[5..];
    FieldThenLit(MinuteField, ':', secondOn, ps[4..]);
    assert ps[3..][1..] == ps[4..];
    FieldThenLit(HourField, ':', minuteOn, ps[3..]);
    assert ps[2..][1..] == ps[3..];
    FieldThenLit(DayField, 'T', hourOn, ps[2..]);
    assert ps[1..][1..] == ps[2..];
    FieldThenLit(MonthField, '-', dayOn, ps[1..]);
    FieldThenLit(YearField, '-', monthOn, ps);
  }

  /** A time stamp made of six field strings parses to the date of its first
      three, unless the date does not exist or the second is 60 or 61. */
  lemma StampAccepts(ps: seq<string>)
    requires PartsFit(StampFormat, ps)
    ensures |ps| == 6
    ensures ParseStampDate(Assemble(StampFormat, ps))
            == if DigitsValue(ps[5]) <= 59
               then MakeDate(DigitsValue(ps[0]), DigitsValue(ps[1]), DigitsValue(ps[2]))
               else None
  {
    MatchAssembled(StampFormat, ps);
    var vs := Values(ps);
    assert vs[5] == DigitsValue(ps[5]);
  }

  /** A registration time stamp written as "%Y-%m-%dT%H:%M:%SZ" parses back to its date. */
  lemma StampRoundTrip(d: Date, hour: nat, minute: nat, second: nat)
    requires ValidDate(d) && hour <= 23 && minute <= 59 && second <= 59
    ensures ParseStampDate(FormatStamp(d, hour, minute, second)) == Some(d)
  {
    var ps := StampParts(d, hour, minute, second);
    StampFitsPadded(d, hour, minute, second);
    PadInField(YearField, d.year);
    PadInField(MonthField, d.month);
    PadInField(DayField, d.day);
    PadInField(SecondField, second);
    StampAccepts(ps);
  }
}
