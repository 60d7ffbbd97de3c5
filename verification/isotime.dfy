/** The second-precision ISO-8601 timestamp that the trail stamps on every
 trace record: `YYYY-MM-DDTHH:MM:SS`, every field zero-padded.

 `Format` renders a calendar date-time; `Parse` is its independent inverse,
 reading a string back field by field and rejecting anything that is not
 such a timestamp. The two round-trip lemmas connect them in both
 directions.
 */
module IsoTime {
  import opened Outcomes

  /** A naive date-time with the microseconds already dropped. */
  datatype DateTime = DateTime(year: int, month: int, day: int, hour: int, minute: int, second: int)

  /** Gregorian leap years, as `datetime` counts them. */
  predicate IsLeapYear(year: int) {
    year % 4 == 0 && (year % 100 != 0 || year % 400 == 0)
  }

  function DaysInMonth(year: int, month: int): int
    requires 1 <= month <= 12
  {
    if month == 2 then (if IsLeapYear(year) then 29 else 28)
    else if month == 4 || month == 6 || month == 9 || month == 11 then 30
    else 31
  }

  /** The values `datetime` can hold: years 1 through 9999, real calendar days. */
  predicate Valid(dt: DateTime) {
    && 1 <= dt.year <= 9999
    && 1 <= dt.month <= 12
    && 1 <= dt.day <= DaysInMonth(dt.year, dt.month)
    && 0 <= dt.hour < 24
    && 0 <= dt.minute < 60
    && 0 <= dt.second < 60
  }

  function Pow10(n: nat): (p: nat)
    ensures p >= 1
  {
    if n == 0 then 1 else 10 * Pow10(n - 1)
  }

  predicate IsDigit(c: char) {
    '0' <= c <= '9'
  }

  predicate AllDigits(s: string) {
    forall i :: 0 <= i < |s| ==> IsDigit(s[i])
  }

  function DigitChar(d: nat): (c: char)
    requires d < 10
    ensures IsDigit(c)
  {
    (48 + d) as char
  }

  function DigitOf(c: char): (d: nat)
    requires IsDigit(c)
    ensures d < 10
  {
    c as int - 48
  }

  /** The decimal form of `n` in exactly `width` digits, zero-padded on the left. */
  function Pad(n: nat, width: nat): (s: string)
    requires n < Pow10(width)
    ensures |s| == width
    ensures AllDigits(s)
  {
    if width == 0 then ""
    else
      assert n / 10 < Pow10(width - 1);
      Pad(n / 10, width - 1) + [DigitChar(n % 10)]
  }

  /** The number a string of decimal digits denotes. */
  function DigitsValue(s: string): (n: nat)
    requires AllDigits(s)
    ensures n < Pow10(|s|)
  {
    if |s| == 0 then 0
    else
      var init := s[..|s| - 1];
      assert AllDigits(init);
      var v := DigitsValue(init);
      assert v <= Pow10(|s| - 1) - 1;
      10 * v + DigitOf(s[|s| - 1])
  }

  /** Reading back a padded number gives the number. */
  lemma {:induction false} ValueOfPad(n: nat, width: nat)
    requires n < Pow10(width)
    ensures DigitsValue(Pad(n, width)) == n
  {
    if width > 0 {
      var s := Pad(n, width);
      assert s[..|s| - 1] == Pad(n / 10, width - 1);
      ValueOfPad(n / 10, width - 1);
    }
  }

  /** Padding the value of a digit string to its own length gives the string back. */
  lemma {:induction false} PadOfValue(s: string)
    requires AllDigits(s)
    ensures Pad(DigitsValue(s), |s|) == s
  {
    if |s| > 0 {
      var init := s[..|s| - 1];
      assert AllDigits(init);
      PadOfValue(init);
      var n := DigitsValue(s);
      assert n / 10 == DigitsValue(init);
      assert DigitChar(n % 10) == s[|s| - 1];
      assert s == init + [s[|s| - 1]];
    }
  }

  /** The character layout of a timestamp: digits everywhere except the
      separators `-`, `-`, `T`, `:`, `:` at offsets 4, 7, 10, 13 and 16. */
  predicate IsoShape(s: string) {
    && |s| == 19
    && s[4] == '-' && s[7] == '-' && s[10] == 'T' && s[13] == ':' && s[16] == ':'
    && AllDigits(s[0..4]) && AllDigits(s[5..7]) && AllDigits(s[8..10])
    && AllDigits(s[11..13]) && AllDigits(s[14..16]) && AllDigits(s[17..19])
  }

  /** `YYYY-MM-DDTHH:MM:SS` for a valid date-time. */
  function Format(dt: DateTime): (s: string)
    requires Valid(dt)
    ensures IsoShape(s)
    ensures s[0..4] == Pad(dt.year, 4) && s[5..7] == Pad(dt.month, 2) && s[8..10] == Pad(dt.day, 2)
    ensures s[11..13] == Pad(dt.hour, 2) && s[14..16] == Pad(dt.minute, 2) && s[17..19] == Pad(dt.second, 2)
  {
    Pad(dt.year, 4) + "-" + Pad(dt.month, 2) + "-" + Pad(dt.day, 2) + "T"
      + Pad(dt.hour, 2) + ":" + Pad(dt.minute, 2) + ":" + Pad(dt.second, 2)
  }

  /** Reads a timestamp back; `None` for a string of the wrong layout or one
      naming a date-time that does not exist (month 13, February 30, hour 24). */
  function Parse(s: string): (r: Option<DateTime>)
    ensures r.Some? ==> Valid(r.value) && IsoShape(s)
  {
    if !IsoShape(s) then None
    else
      var dt := DateTime(DigitsValue(s[0..4]), DigitsValue(s[5..7]), DigitsValue(s[8..10]),
                         DigitsValue(s[11..13]), DigitsValue(s[14..16]), DigitsValue(s[17..19]));
      if Valid(dt) then Some(dt) else None
  }

  /** Every formatted timestamp parses back to the date-time it came from. */
  lemma ParseFormat(dt: DateTime)
    requires Valid(dt)
    ensures Parse(Format(dt)) == Some(dt)
  {
    ValueOfPad(dt.year, 4);
    ValueOfPad(dt.month, 2);
    ValueOfPad(dt.day, 2);
    ValueOfPad(dt.hour, 2);
    ValueOfPad(dt.minute, 2);
    ValueOfPad(dt.second, 2);
  }

  /** Every string that parses is the formatting of what it parses to, so
      the format is canonical: one string per date-time. */
  lemma FormatParse(s: string)
    requires Parse(s).Some?
    ensures Format(Parse(s).value) == s
  {
    PadOfValue(s[0..4]);
    PadOfValue(s[5..7]);
    PadOfValue(s[8..10]);
    PadOfValue(s[11..13]);
    PadOfValue(s[14..16]);
    PadOfValue(s[17..19]);
    var t := Format(Parse(s).value);
    forall i | 0 <= i < 19
      ensures t[i] == s[i]
    {
      if i < 4 { assert t[i] == t[0..4][i]; assert s[i] == s[0..4][i]; }
      else if 5 <= i < 7 { assert t[i] == t[5..7][i - 5]; assert s[i] == s[5..7][i - 5]; }
      else if 8 <= i < 10 { assert t[i] == t[8..10][i - 8]; assert s[i] == s[8..10][i - 8]; }
      else if 11 <= i < 13 { assert t[i] == t[11..13][i - 11]; assert s[i] == s[11..13][i - 11]; }
      else if 14 <= i < 16 { assert t[i] == t[14..16][i - 14]; assert s[i] == s[14..16][i - 14]; }
      else if 17 <= i { assert t[i] == t[17..19][i - 17]; assert s[i] == s[17..19][i - 17]; }
    }
  }

  /** The instant used by the trail's own test, 2015-05-04 21:10:42. */
  lemma FormatExample()
    ensures Format(DateTime(2015, 5, 4, 21, 10, 42)) == "2015-05-04T21:10:42"
  {
  }
}
