/**
 * The UTC timestamp that prefixes every blob name: a clock reading formatted
 * with the pattern "%Y%m%dT%H%M%S" (app.py:79), i.e. zero-padded year (4),
 * month (2), day (2), the letter T, hour (2), minute (2) and second (2).
 *
 * The clock itself is an input: `Clock` is the reading `datetime.utcnow()`
 * would have produced, with the ranges a datetime value always respects.
 */
module Timestamp {
  import opened Wrappers

  /** A clock reading at whole-second resolution. */
  datatype Clock = Clock(year: int, month: int, day: int, hour: int, minute: int, second: int)

  predicate IsLeapYear(y: int) {
    y % 4 == 0 && (y % 100 != 0 || y % 400 == 0)
  }

  /** Number of days in month `m` of year `y` (proleptic Gregorian calendar). */
  function DaysInMonth(y: int, m: int): (d: int)
    requires 1 <= m <= 12
    ensures 28 <= d <= 31
    ensures d == 29 <==> m == 2 && IsLeapYear(y)
  {
    if m == 2 then (if IsLeapYear(y) then 29 else 28)
    else if m == 4 || m == 6 || m == 9 || m == 11 then 30
    else 31
  }

  /** The ranges every datetime value keeps (years 1 to 9999, no leap seconds). */
  predicate ValidClock(c: Clock) {
    && 1 <= c.year <= 9999
    && 1 <= c.month <= 12
    && 1 <= c.day <= DaysInMonth(c.year, c.month)
    && 0 <= c.hour < 24
    && 0 <= c.minute < 60
    && 0 <= c.second < 60
  }

  predicate IsDigit(ch: char) {
    '0' <= ch <= '9'
  }

  predicate AllDigits(s: string) {
    forall i :: 0 <= i < |s| ==> IsDigit(s[i])
  }

  function DigitValue(ch: char): (d: nat)
    requires IsDigit(ch)
    ensures d < 10
  {
    ch as int - '0' as int
  }

  function DigitChar(d: nat): (ch: char)
    requires d < 10
    ensures IsDigit(ch) && DigitValue(ch) == d
  {
    ('0' as int + d) as char
  }

  function Pow10(n: nat): (p: nat)
    ensures p >= 1
  {
    if n == 0 then 1 else 10 * Pow10(n - 1)
  }

  /** The decimal number a string of digits spells, most significant digit first. */
  function DecimalValue(s: string): (v: nat)
    requires AllDigits(s)
    ensures v < Pow10(|s|)
  {
    if s == [] then 0 else DecimalValue(s[..|s| - 1]) * 10 + DigitValue(s[|s| - 1])
  }

  /** `n` written in decimal, left-padded with zeros to exactly `width` digits. */
  function ZeroPad(n: nat, width: nat): (s: string)
    requires n < Pow10(width)
    ensures |s| == width
    ensures AllDigits(s)
    ensures DecimalValue(s) == n
  {
    if width == 0 then []
    else
      var s := ZeroPad(n / 10, width - 1) + [DigitChar(n % 10)];
      assert s[..|s| - 1] == ZeroPad(n / 10, width - 1);
      s
  }

  /** Reading a digit string back and padding it to its own width gives the string. */
  lemma {:induction false} ZeroPadDecimalValue(s: string)
    requires AllDigits(s)
    ensures ZeroPad(DecimalValue(s), |s|) == s
  {
    if s != [] {
      var init := s[..|s| - 1];
      ZeroPadDecimalValue(init);
      var v := DecimalValue(s);
      assert v / 10 == DecimalValue(init);
      assert v % 10 == DigitValue(s[|s| - 1]);
      assert DigitChar(DigitValue(s[|s| - 1])) == s[|s| - 1];
      assert s == init + [s[|s| - 1]];
    }
  }

  /** The timestamp "%Y%m%dT%H%M%S" of a clock reading. */
  function Format(c: Clock): (s: string)
    requires ValidClock(c)
    ensures |s| == 15
    ensures s[8] == 'T'
    ensures forall i :: 0 <= i < 15 && i != 8 ==> IsDigit(s[i])
  {
    ZeroPad(c.year, 4) + ZeroPad(c.month, 2) + ZeroPad(c.day, 2) + "T"
      + ZeroPad(c.hour, 2) + ZeroPad(c.minute, 2) + ZeroPad(c.second, 2)
  }

  /** A string has the shape of a timestamp: 15 characters, a T at index 8, digits elsewhere. */
  predicate WellFormed(s: string) {
    |s| == 15 && s[8] == 'T' && forall i :: 0 <= i < 15 && i != 8 ==> IsDigit(s[i])
  }

  /** The number spelled by the digits `s[lo..hi]` of a well-formed timestamp. */
  function Field(s: string, lo: nat, hi: nat): (v: nat)
    requires WellFormed(s) && lo <= hi && (hi <= 8 || (9 <= lo && hi <= 15))
    ensures v < Pow10(hi - lo)
  {
    assert forall i :: 0 <= i < hi - lo ==> s[lo..hi][i] == s[lo + i];
    DecimalValue(s[lo..hi])
  }

  /** Reads a timestamp back into the clock reading it denotes, if it denotes one. */
  function Parse(s: string): (r: Option<Clock>)
    ensures r.Some? ==> WellFormed(s) && ValidClock(r.value)
  {
    if WellFormed(s) then
      var c := Clock(Field(s, 0, 4), Field(s, 4, 6), Field(s, 6, 8),
                     Field(s, 9, 11), Field(s, 11, 13), Field(s, 13, 15));
      if ValidClock(c) then Some(c) else None
    else None
  }

  /** Parsing a formatted clock gives the clock back. */
  lemma FormatThenParse(c: Clock)
    requires ValidClock(c)
    ensures Parse(Format(c)) == Some(c)
  {
    var s := Format(c);
    assert s[0..4] == ZeroPad(c.year, 4);
    assert s[4..6] == ZeroPad(c.month, 2);
    assert s[6..8] == ZeroPad(c.day, 2);
    assert s[9..11] == ZeroPad(c.hour, 2);
    assert s[11..13] == ZeroPad(c.minute, 2);
    assert s[13..15] == ZeroPad(c.second, 2);
  }

  /** A digit field of a well-formed timestamp, re-padded to its width, is that field. */
  lemma FieldRoundTrip(s: string, lo: nat, hi: nat)
    requires WellFormed(s) && lo <= hi && (hi <= 8 || (9 <= lo && hi <= 15))
    ensures ZeroPad(Field(s, lo, hi), hi - lo) == s[lo..hi]
  {
    assert forall i :: 0 <= i < hi - lo ==> s[lo..hi][i] == s[lo + i];
    ZeroPadDecimalValue(s[lo..hi]);
  }

  /** Every string that parses is the format of the clock it parses to. */
  lemma ParseThenFormat(s: string)
    requires Parse(s).Some?
    ensures Format(Parse(s).value) == s
  {
    var c := Parse(s).value;
    assert c == Clock(Field(s, 0, 4), Field(s, 4, 6), Field(s, 6, 8),
                      Field(s, 9, 11), Field(s, 11, 13), Field(s, 13, 15));
    FieldRoundTrip(s, 0, 4);
    FieldRoundTrip(s, 4, 6);
    FieldRoundTrip(s, 6, 8);
    FieldRoundTrip(s, 9, 11);
    FieldRoundTrip(s, 11, 13);
    FieldRoundTrip(s, 13, 15);
    calc {
      Format(c);
      ZeroPad(c.year, 4) + ZeroPad(c.month, 2) + ZeroPad(c.day, 2) + "T"
        + ZeroPad(c.hour, 2) + ZeroPad(c.minute, 2) + ZeroPad(c.second, 2);
      s[0..4] + s[4..6] + s[6..8] + "T" + s[9..11] + s[11..13] + s[13..15];
      { SplitAtFields(s); }
      s;
    }
  }

  lemma SplitAtFields(s: string)
    requires |s| == 15 && s[8] == 'T'
    ensures s == s[0..4] + s[4..6] + s[6..8] + "T" + s[9..11] + s[11..13] + s[13..15]
  {
  }

  /** Distinct seconds give distinct timestamps. */
  lemma FormatInjective(c1: Clock, c2: Clock)
    requires ValidClock(c1) && ValidClock(c2)
    ensures Format(c1) == Format(c2) <==> c1 == c2
  {
    FormatThenParse(c1);
    FormatThenParse(c2);
  }
}
