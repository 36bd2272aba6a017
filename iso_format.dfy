/**
 * The text form of a naive date-time that the uploader writes and reads:
 * `datetime.isoformat()` (`YYYY-MM-DDTHH:MM:SS`, followed by `.ffffff` only
 * when the microseconds are not zero), the `datetime.fromisoformat` reading
 * of exactly those strings, and the `publishAt` value of the upload request,
 * which is the isoformat text with a `Z` appended: the date-time form of
 * section 5.6 of RFC 3339.
 */
module IsoDateTime {
  import opened Wrappers
  import opened Calendar

  predicate IsDigit(c: char) {
    '0' <= c <= '9'
  }

  predicate AllDigits(s: string) {
    forall i :: 0 <= i < |s| ==> IsDigit(s[i])
  }

  function DigitChar(d: int): (c: char)
    requires 0 <= d < 10
    ensures IsDigit(c)
  {
    (48 + d) as char
  }

  function DigitValue(c: char): (d: int)
    requires IsDigit(c)
    ensures 0 <= d < 10 && DigitChar(d) == c
  {
    c as int - 48
  }

  function Pow10(n: nat): (p: nat)
    ensures p >= 1
  {
    if n == 0 then 1 else 10 * Pow10(n - 1)
  }

  /** `n` written in decimal with exactly `width` digits, zero-padded on the left (`%0<width>d`). */
  function Digits(n: nat, width: nat): (s: string)
    ensures |s| == width && AllDigits(s)
  {
    if width == 0 then [] else Digits(n / 10, width - 1) + [DigitChar(n % 10)]
  }

  /** The number a string of decimal digits denotes. */
  function Value(s: string): nat
    requires AllDigits(s)
  {
    if s == [] then 0 else 10 * Value(s[..|s| - 1]) + DigitValue(s[|s| - 1])
  }

  lemma {:induction false} ValueOfDigits(n: nat, width: nat)
    requires n < Pow10(width)
    ensures Value(Digits(n, width)) == n
  {
    if width > 0 {
      var s := Digits(n, width);
      assert s[..|s| - 1] == Digits(n / 10, width - 1);
      ValueOfDigits(n / 10, width - 1);
    }
  }

  lemma {:induction false} DigitsOfValue(s: string)
    requires AllDigits(s)
    ensures Value(s) < Pow10(|s|) && Digits(Value(s), |s|) == s
  {
    if s != [] {
      var init := s[..|s| - 1];
      DigitsOfValue(init);
      assert s == init + [s[|s| - 1]];
    }
  }

  /** The fields and separators of a date written `YYYY-MM-DD`. */
  predicate IsDateShape(d: string)
    requires |d| == 10
  {
    AllDigits(d[0..4]) && d[4] == '-' && AllDigits(d[5..7]) && d[7] == '-' && AllDigits(d[8..10])
  }

  /** The fields and separators of a time of day written `HH:MM:SS`. */
  predicate IsTimeShape(h: string)
    requires |h| == 8
  {
    AllDigits(h[0..2]) && h[2] == ':' && AllDigits(h[3..5]) && h[5] == ':' && AllDigits(h[6..8])
  }

  /** `YYYY-MM-DDTHH:MM:SS` at the start of `s`. */
  predicate HasIsoShape(s: string)
    requires |s| >= 19
  {
    IsDateShape(s[..10]) && s[10] == 'T' && IsTimeShape(s[11..19])
  }

  /** The optional `.ffffff` microsecond part. */
  predicate HasFraction(s: string) {
    |s| == 26 && s[19] == '.' && AllDigits(s[20..26])
  }

  /** `t.date().isoformat()`. */
  function DatePart(t: DateTime): (d: string)
    requires t.Valid()
    ensures |d| == 10
  {
    Digits(t.year, 4) + "-" + Digits(t.month, 2) + "-" + Digits(t.day, 2)
  }

  /** `t.time().isoformat()` without the microseconds. */
  function TimePart(t: DateTime): (h: string)
    requires t.Valid()
    ensures |h| == 8
  {
    Digits(t.hour, 2) + ":" + Digits(t.minute, 2) + ":" + Digits(t.second, 2)
  }

  /** `t.isoformat()` for a naive date-time. */
  function IsoFormat(t: DateTime): (s: string)
    requires t.Valid()
    ensures |s| == (if t.microsecond == 0 then 19 else 26)
  {
    DatePart(t) + "T" + TimePart(t) + (if t.microsecond == 0 then "" else "." + Digits(t.microsecond, 6))
  }

  /**
   * `datetime.fromisoformat(s)` for the strings `isoformat()` produces;
   * None where Python raises ValueError (wrong shape, or a field out of range
   * such as month 13 or February 30).
   */
  function ParseIso(s: string): (r: Option<DateTime>)
    ensures r.Some? ==> r.value.Valid()
  {
    if (|s| == 19 || HasFraction(s)) && HasIsoShape(s) then
      var d, h := s[..10], s[11..19];
      var t := DateTime(Value(d[0..4]), Value(d[5..7]), Value(d[8..10]),
                        Value(h[0..2]), Value(h[3..5]), Value(h[6..8]),
                        if |s| == 26 then Value(s[20..26]) else 0);
      if t.Valid() then Some(t) else None
    else
      None
  }

  /** Reading back what `isoformat()` wrote gives the same date-time. */
  lemma ParseIsoFormat(t: DateTime)
    requires t.Valid()
    ensures ParseIso(IsoFormat(t)) == Some(t)
  {
    IsoParts(t);
    DateFields(t);
    TimeFields(t);
    if t.microsecond != 0 {
      ValueOfDigits(t.microsecond, 6);
    }
  }

  lemma IsoParts(t: DateTime)
    requires t.Valid()
    ensures var s := IsoFormat(t);
      s[..10] == DatePart(t) && s[10] == 'T' && s[11..19] == TimePart(t) &&
      (t.microsecond != 0 ==> s[19] == '.' && s[20..26] == Digits(t.microsecond, 6))
  {
  }

  lemma DateFields(t: DateTime)
    requires t.Valid()
    ensures var d := DatePart(t);
      IsDateShape(d) && Value(d[0..4]) == t.year && Value(d[5..7]) == t.month && Value(d[8..10]) == t.day
  {
    var d := DatePart(t);
    assert d[0..4] == Digits(t.year, 4);
    assert d[5..7] == Digits(t.month, 2);
    assert d[8..10] == Digits(t.day, 2);
    ValueOfDigits(t.year, 4);
    ValueOfDigits(t.month, 2);
    ValueOfDigits(t.day, 2);
  }

  lemma TimeFields(t: DateTime)
    requires t.Valid()
    ensures var h := TimePart(t);
      IsTimeShape(h) && Value(h[0..2]) == t.hour && Value(h[3..5]) == t.minute && Value(h[6..8]) == t.second
  {
    var h := TimePart(t);
    assert h[0..2] == Digits(t.hour, 2);
    assert h[3..5] == Digits(t.minute, 2);
    assert h[6..8] == Digits(t.second, 2);
    ValueOfDigits(t.hour, 2);
    ValueOfDigits(t.minute, 2);
    ValueOfDigits(t.second, 2);
  }

  /**
   * Formatting what was read gives the text back, except that a fraction of
   * `.000000`, which `isoformat()` never writes, is dropped.
   */
  lemma FormatParseIso(s: string)
    requires ParseIso(s).Some?
    ensures IsoFormat(ParseIso(s).value) == if ParseIso(s).value.microsecond == 0 then s[..19] else s
  {
    var t := ParseIso(s).value;
    ParsedDate(s);
    ParsedTime(s);
    assert s[..19] == s[..10] + "T" + s[11..19];
    if t.microsecond != 0 {
      ParsedFraction(s);
      assert s == s[..19] + "." + s[20..26];
    }
  }

  lemma ParsedDate(s: string)
    requires ParseIso(s).Some?
    ensures DatePart(ParseIso(s).value) == s[..10]
  {
    DateOfShape(s[..10]);
  }

  lemma ParsedTime(s: string)
    requires ParseIso(s).Some?
    ensures TimePart(ParseIso(s).value) == s[11..19]
  {
    TimeOfShape(s[11..19]);
  }

  lemma ParsedFraction(s: string)
    requires ParseIso(s).Some? && ParseIso(s).value.microsecond != 0
    ensures |s| == 26 && s[19] == '.' && Digits(ParseIso(s).value.microsecond, 6) == s[20..26]
  {
    DigitsOfValue(s[20..26]);
  }

  lemma DateOfShape(d: string)
    requires |d| == 10 && IsDateShape(d)
    ensures Digits(Value(d[0..4]), 4) + "-" + Digits(Value(d[5..7]), 2) + "-" + Digits(Value(d[8..10]), 2) == d
  {
    DigitsOfValue(d[0..4]);
    DigitsOfValue(d[5..7]);
    DigitsOfValue(d[8..10]);
    assert d == d[0..4] + "-" + d[5..7] + "-" + d[8..10];
  }

  lemma TimeOfShape(h: string)
    requires |h| == 8 && IsTimeShape(h)
    ensures Digits(Value(h[0..2]), 2) + ":" + Digits(Value(h[3..5]), 2) + ":" + Digits(Value(h[6..8]), 2) == h
  {
    DigitsOfValue(h[0..2]);
    DigitsOfValue(h[3..5]);
    DigitsOfValue(h[6..8]);
    assert h == h[0..2] + ":" + h[3..5] + ":" + h[6..8];
  }

  /** The `publishAt` value: `t.isoformat() + "Z"`. */
  function PublishAt(t: DateTime): string
    requires t.Valid()
  {
    IsoFormat(t) + "Z"
  }

  /** The date-time a `publishAt` value denotes. */
  function ParsePublishAt(s: string): Option<DateTime> {
    if |s| > 0 && s[|s| - 1] == 'Z' then ParseIso(s[..|s| - 1]) else None
  }

  lemma PublishAtRoundTrip(t: DateTime)
    requires t.Valid()
    ensures ParsePublishAt(PublishAt(t)) == Some(t)
  {
    assert PublishAt(t)[..|PublishAt(t)| - 1] == IsoFormat(t);
    ParseIsoFormat(t);
  }

  /** The slot of the scheduling and upload tests, 2026-01-24 at noon, in isoformat. */
  lemma IsoFormatExample()
    ensures IsoFormat(DateTime(2026, 1, 24, 12, 0, 0, 0)) == "2026-01-24T12:00:00"
  {
    var t := DateTime(2026, 1, 24, 12, 0, 0, 0);
    ExampleFields();
    assert DatePart(t) == "2026-01-24";
    assert TimePart(t) == "12:00:00";
  }

  /** The upload test's `publishAt` text for that slot. */
  lemma PublishAtExample()
    ensures PublishAt(DateTime(2026, 1, 24, 12, 0, 0, 0)) == "2026-01-24T12:00:00Z"
  {
    IsoFormatExample();
  }

  lemma ExampleFields()
    ensures Digits(2026, 4) == "2026" && Digits(1, 2) == "01" && Digits(24, 2) == "24"
    ensures Digits(12, 2) == "12" && Digits(0, 2) == "00"
  {
    assert Digits(2, 1) == "2";
    assert Digits(20, 2) == "20";
    assert Digits(202, 3) == "202";
    assert Digits(0, 1) == "0";
    assert Digits(1, 1) == "1";
  }
}
