/** Dates and times as the handlers see them, and the two exact-format parsers
    (`DateTime.TryParseExact` with "yyyyMMddHHmmss" and with "yyyyMMdd").
    Culture-dependent generic parsing is not defined here: it is a parameter. */
module Calendar {
  import opened Wrappers

  /** A `System.DateTime` value without time-zone information, to the second. */
  datatype DateTime = DateTime(year: nat, month: nat, day: nat, hour: nat, minute: nat, second: nat)

  /** The outcome of `DateTime.Parse` on one string: the value, or the message of
      the `FormatException` it throws. `DateTime.TryParse` succeeds exactly on `Parsed`. */
  datatype DateParse = Parsed(value: DateTime) | Rejected(message: string)

  /** The culture-dependent generic parser, supplied by the environment. */
  type DateParser = string -> DateParse

  /** `DateTime.TryParse(s, out d)`: false for `null` and for whatever the
      generic parser rejects. */
  function TryParse(parse: DateParser, s: Option<string>): (r: Option<DateTime>)
    ensures r.Some? <==> s.Some? && parse(s.value).Parsed?
    ensures r.Some? ==> parse(s.value) == Parsed(r.value)
  {
    if s.Some? && parse(s.value).Parsed? then Some(parse(s.value).value) else None
  }

  predicate IsLeapYear(y: nat) {
    y % 4 == 0 && (y % 100 != 0 || y % 400 == 0)
  }

  function DaysInMonth(y: nat, m: nat): nat
    requires 1 <= m <= 12
  {
    if m == 2 then (if IsLeapYear(y) then 29 else 28)
    else if m == 4 || m == 6 || m == 9 || m == 11 then 30
    else 31
  }

  /** The values `DateTime` can represent in the Gregorian calendar. */
  predicate ValidDateTime(d: DateTime) {
    1 <= d.year <= 9999 && 1 <= d.month <= 12 && 1 <= d.day <= DaysInMonth(d.year, d.month) &&
    d.hour < 24 && d.minute < 60 && d.second < 60
  }

  predicate IsDigit(c: char) {
    '0' <= c <= '9'
  }

  predicate AllDigits(s: string) {
    forall i :: 0 <= i < |s| ==> IsDigit(s[i])
  }

  function DigitValue(c: char): nat
    requires IsDigit(c)
  {
    c as int - '0' as int
  }

  function DigitChar(d: nat): (c: char)
    requires d < 10
    ensures IsDigit(c) && DigitValue(c) == d
  {
    ('0' as int + d) as char
  }

  function Pow10(n: nat): (p: nat)
    ensures p >= 1
  {
    if n == 0 then 1 else 10 * Pow10(n - 1)
  }

  /** The number written by a string of decimal digits, most significant first. */
  function NumberValue(s: string): nat
    requires AllDigits(s)
  {
    if s == [] then 0 else NumberValue(s[..|s| - 1]) * 10 + DigitValue(s[|s| - 1])
  }

  /** `n` written with exactly `width` digits, zero-padded on the left. */
  function PadDigits(n: nat, width: nat): (r: string)
    ensures |r| == width && AllDigits(r)
  {
    if width == 0 then [] else PadDigits(n / 10, width - 1) + [DigitChar(n % 10)]
  }

  lemma {:induction false} NumberValueOfPadDigits(n: nat, width: nat)
    requires n < Pow10(width)
    ensures NumberValue(PadDigits(n, width)) == n
  {
    if width > 0 {
      var r := PadDigits(n, width);
      var front := PadDigits(n / 10, width - 1);
      assert r == front + [DigitChar(n % 10)];
      assert r[..width - 1] == front;
      assert n / 10 < Pow10(width - 1);
      NumberValueOfPadDigits(n / 10, width - 1);
      assert NumberValue(r) == NumberValue(front) * 10 + n % 10;
    }
  }

  lemma {:induction false} PadDigitsOfNumberValue(s: string)
    requires AllDigits(s)
    ensures NumberValue(s) < Pow10(|s|)
    ensures PadDigits(NumberValue(s), |s|) == s
  {
    if s != [] {
      var t := s[..|s| - 1];
      PadDigitsOfNumberValue(t);
      var v := NumberValue(s);
      assert v == NumberValue(t) * 10 + DigitValue(s[|s| - 1]);
      assert v / 10 == NumberValue(t) && v % 10 == DigitValue(s[|s| - 1]);
      assert s == t + [s[|s| - 1]];
    }
  }

  /** The three numbers written in successive digit fields of widths `w1`, `w2`, `w3`. */
  function Fields(s: string, w1: nat, w2: nat, w3: nat): (nat, nat, nat)
    requires |s| == w1 + w2 + w3 && AllDigits(s)
  {
    (NumberValue(s[..w1]), NumberValue(s[w1..w1 + w2]), NumberValue(s[w1 + w2..]))
  }

  /** Three numbers rendered zero-padded side by side.*/
  function PadFields(a: nat, b: nat, c: nat, w1: nat, w2: nat, w3: nat): (r: string)
    ensures |r| == w1 + w2 + w3 && AllDigits(r)
  {
    PadDigits(a, w1) + PadDigits(b, w2) + PadDigits(c, w3)
  }

  lemma FieldsOfPadFields(a: nat, b: nat, c: nat, w1: nat, w2: nat, w3: nat)
    requires a < Pow10(w1) && b < Pow10(w2) && c < Pow10(w3)
    ensures Fields(PadFields(a, b, c, w1, w2, w3), w1, w2, w3) == (a, b, c)
  {
    var s := PadFields(a, b, c, w1, w2, w3);
    assert s[..w1] == PadDigits(a, w1);
    assert s[w1..w1 + w2] == PadDigits(b, w2);
    assert s[w1 + w2..] == PadDigits(c, w3);
    NumberValueOfPadDigits(a, w1);
    NumberValueOfPadDigits(b, w2);
    NumberValueOfPadDigits(c, w3);
  }

  lemma PadFieldsOfFields(s: string, w1: nat, w2: nat, w3: nat)
    requires |s| == w1 + w2 + w3 && AllDigits(s)
    ensures var f := Fields(s, w1, w2, w3);
            f.0 < Pow10(w1) && f.1 < Pow10(w2) && f.2 < Pow10(w3) &&
            PadFields(f.0, f.1, f.2, w1, w2, w3) == s
  {
    var a, b, c := s[..w1], s[w1..w1 + w2], s[w1 + w2..];
    SplitThree(s, w1, w1 + w2);
    AllDigitsSlice(s, 0, w1);
    AllDigitsSlice(s, w1, w1 + w2);
    AllDigitsSlice(s, w1 + w2, |s|);
    PadOfNumbers(a, b, c);
    var f := Fields(s, w1, w2, w3);
    assert f == (NumberValue(a), NumberValue(b), NumberValue(c));
    assert PadFields(f.0, f.1, f.2, w1, w2, w3) == a + b + c;
  }

  lemma AllDigitsSlice(s: string, i: nat, j: nat)
    requires i <= j <= |s| && AllDigits(s)
    ensures AllDigits(s[i..j])
  {
    assert forall k :: 0 <= k < j - i ==> s[i..j][k] == s[i + k];
  }

  lemma PadOfNumbers(a: string, b: string, c: string)
    requires AllDigits(a) && AllDigits(b) && AllDigits(c)
    ensures NumberValue(a) < Pow10(|a|) && NumberValue(b) < Pow10(|b|) && NumberValue(c) < Pow10(|c|)
    ensures PadFields(NumberValue(a), NumberValue(b), NumberValue(c), |a|, |b|, |c|) == a + b + c
  {
    PadDigitsOfNumberValue(a);
    PadDigitsOfNumberValue(b);
    PadDigitsOfNumberValue(c);
  }

  lemma SplitThree(s: string, i: nat, j: nat)
    requires i <= j <= |s|
    ensures s == s[..i] + s[i..j] + s[j..]
  {
    var r := s[..i] + s[i..j] + s[j..];
    forall k | 0 <= k < |s| ensures r[k] == s[k] {
      if k < i {
        assert r[k] == s[..i][k];
      } else if k < j {
        assert r[k] == s[i..j][k - i];
      } else {
        assert r[k] == s[j..][k - j];
      }
    }
  }

  /** The layout of "yyyyMMdd". */
  function FormatCompactDate(d: DateTime): (r: string)
    ensures |r| == 8 && AllDigits(r)
  {
    PadFields(d.year, d.month, d.day, 4, 2, 2)
  }

  /** The layout of "HHmmss". */
  function FormatClock(d: DateTime): (r: string)
    ensures |r| == 6 && AllDigits(r)
  {
    PadFields(d.hour, d.minute, d.second, 2, 2, 2)
  }

  /** The layout of "yyyyMMddHHmmss". */
  function FormatCompactDateTime(d: DateTime): (r: string)
    ensures |r| == 14
  {
    FormatCompactDate(d) + FormatClock(d)
  }

  /** `DateTime.TryParseExact(s, "yyyyMMddHHmmss", InvariantCulture, None)`:
      exactly fourteen ASCII digits, no surrounding white space, naming a valid
      Gregorian date and time. */
  function ParseCompactDateTime(s: string): Option<DateTime> {
    if |s| != 14 || !AllDigits(s) then None
    else
      var date := Fields(s[..8], 4, 2, 2);
      var clock := Fields(s[8..], 2, 2, 2);
      var d := DateTime(date.0, date.1, date.2, clock.0, clock.1, clock.2);
      if ValidDateTime(d) then Some(d) else None
  }

  /** `DateTime.TryParseExact(s, "yyyyMMdd", null, None)`: exactly eight ASCII
      digits naming a valid date; the result is at midnight. */
  function ParseCompactDate(s: string): Option<DateTime> {
    if |s| != 8 || !AllDigits(s) then None
    else
      var date := Fields(s, 4, 2, 2);
      var d := DateTime(date.0, date.1, date.2, 0, 0, 0);
      if ValidDateTime(d) then Some(d) else None
  }

  /** Every valid date and time is accepted back from its own rendering. */
  lemma CompactDateTimeRoundTrip(d: DateTime)
    requires ValidDateTime(d)
    ensures ParseCompactDateTime(FormatCompactDateTime(d)) == Some(d)
  {
    var s := FormatCompactDateTime(d);
    assert s[..8] == FormatCompactDate(d) && s[8..] == FormatClock(d);
    assert Pow10(2) == 100 && Pow10(4) == 10000;
    FieldsOfPadFields(d.year, d.month, d.day, 4, 2, 2);
    FieldsOfPadFields(d.hour, d.minute, d.second, 2, 2, 2);
  }

  /** The parser accepts only canonical renderings: what it accepts is a valid
      value that renders back to the very same string. */
  lemma CompactDateTimeCanonical(s: string)
    requires ParseCompactDateTime(s).Some?
    ensures ValidDateTime(ParseCompactDateTime(s).value)
    ensures FormatCompactDateTime(ParseCompactDateTime(s).value) == s
  {
    var date, clock := s[..8], s[8..];
    assert AllDigits(date) && AllDigits(clock) by {
      AllDigitsSlice(s, 0, 8);
      AllDigitsSlice(s, 8, 14);
      assert s[0..8] == date && s[8..14] == clock;
    }
    var d := ParseCompactDateTime(s).value;
    assert FormatCompactDate(d) == date by {
      PadFieldsOfFields(date, 4, 2, 2);
    }
    assert FormatClock(d) == clock by {
      PadFieldsOfFields(clock, 2, 2, 2);
    }
    assert s == date + clock;
  }

  lemma CompactDateRoundTrip(d: DateTime)
    requires ValidDateTime(d) && d.hour == 0 && d.minute == 0 && d.second == 0
    ensures ParseCompactDate(FormatCompactDate(d)) == Some(d)
  {
    assert Pow10(2) == 100 && Pow10(4) == 10000;
    FieldsOfPadFields(d.year, d.month, d.day, 4, 2, 2);
  }

  /** What the "yyyyMMdd" parser accepts is a valid midnight that renders back
      to the same string. */
  lemma CompactDateCanonical(s: string)
    requires ParseCompactDate(s).Some?
    ensures var d := ParseCompactDate(s).value;
            ValidDateTime(d) && d.hour == 0 && d.minute == 0 && d.second == 0 &&
            FormatCompactDate(d) == s
  {
    PadFieldsOfFields(s, 4, 2, 2);
  }
}
