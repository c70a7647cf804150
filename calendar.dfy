/** The two time.Parse calls of calculatePoints (main.go), with the layouts
    "2006-01-02" for the purchase date and "15:04" for the purchase time, and
    the 2 PM / 4 PM window set up by `init` and tested by `isTimeBetween`. */
module Calendar {
  import opened Wrappers
  import opened Text
  import opened Money

  const Hyphen: byte := 0x2d
  const Colon: byte := 0x3a

  datatype Date = Date(year: nat, month: nat, day: nat)

  /** Gregorian leap years. */
  predicate IsLeapYear(year: nat) {
    year % 4 == 0 && (year % 100 != 0 || year % 400 == 0)
  }

  function DaysIn(month: nat, year: nat): (n: nat)
    requires 1 <= month <= 12
  {
    if month == 2 then (if IsLeapYear(year) then 29 else 28)
    else if month == 4 || month == 6 || month == 9 || month == 11 then 30
    else 31
  }

  /** A calendar date a four-digit year can spell. */
  predicate ValidDate(d: Date) {
    d.year < 10000 && 1 <= d.month <= 12 && 1 <= d.day <= DaysIn(d.month, d.year)
  }

  /** The number two decimal digits spell. */
  function TwoDigitValue(hi: byte, lo: byte): (n: nat)
    requires IsDigit(hi) && IsDigit(lo)
    ensures n < 100
  {
    10 * (hi - Zero) + (lo - Zero)
  }

  /** The two-digit spelling of a number below 100, with a leading zero. */
  function TwoDigits(n: nat): (s: seq<byte>)
    requires n < 100
    ensures |s| == 2 && IsDigit(s[0]) && IsDigit(s[1]) && TwoDigitValue(s[0], s[1]) == n
  {
    [Zero + n / 10, Zero + n % 10]
  }

  /** The layout "2006-01-02": four year digits, "-", two month digits for a
      month 01..12, "-", two day digits for a day that exists in that month of
      that year, and nothing after. Any other text is a parse error. */
  function ParseDate(s: seq<byte>): (r: Option<Date>)
    ensures r.Some? ==> ValidDate(r.value) && |s| == 10
  {
    if |s| == 10 && IsDigit(s[0]) && IsDigit(s[1]) && IsDigit(s[2]) && IsDigit(s[3]) && s[4] == Hyphen
       && IsDigit(s[5]) && IsDigit(s[6]) && s[7] == Hyphen && IsDigit(s[8]) && IsDigit(s[9])
    then
      var year := 100 * TwoDigitValue(s[0], s[1]) + TwoDigitValue(s[2], s[3]);
      var month, day := TwoDigitValue(s[5], s[6]), TwoDigitValue(s[8], s[9]);
      if 1 <= month <= 12 && 1 <= day <= DaysIn(month, year) then Some(Date(year, month, day)) else None
    else
      None
  }

  /** The date in the "2006-01-02" layout. */
  function FormatDate(d: Date): seq<byte>
    requires ValidDate(d)
  {
    TwoDigits(d.year / 100) + TwoDigits(d.year % 100) + [Hyphen] + TwoDigits(d.month) + [Hyphen] + TwoDigits(d.day)
  }

  /** Every valid date, written in the layout, parses back to itself. */
  lemma ParseFormatDate(d: Date)
    requires ValidDate(d)
    ensures ParseDate(FormatDate(d)) == Some(d)
  {
    var s := FormatDate(d);
    var (c, y, m, dd) := (TwoDigits(d.year / 100), TwoDigits(d.year % 100), TwoDigits(d.month), TwoDigits(d.day));
    assert s[0] == c[0] && s[1] == c[1] && s[2] == y[0] && s[3] == y[1];
    assert s[5] == m[0] && s[6] == m[1] && s[8] == dd[0] && s[9] == dd[1];
  }

  /** The layout admits one spelling per date: whatever parses is exactly the
      layout's spelling of the date it parses to. */
  lemma ParseDateCanonical(s: seq<byte>)
    requires ParseDate(s).Some?
    ensures s == FormatDate(ParseDate(s).value)
  {
    var d := ParseDate(s).value;
    var (c, y) := (TwoDigitValue(s[0], s[1]), TwoDigitValue(s[2], s[3]));
    assert d.year / 100 == c && d.year % 100 == y;
    assert TwoDigits(c) == s[..2] && TwoDigits(y) == s[2..4];
    assert TwoDigits(d.month) == s[5..7] && TwoDigits(d.day) == s[8..];
    assert s == s[..2] + s[2..4] + [Hyphen] + s[5..7] + [Hyphen] + s[8..];
  }

  /** The layout "15:04": an hour of one digit, or two when two digits are
      there, below 24; ":"; exactly two minute digits below 60; nothing after.
      The result is the number of minutes since midnight. */
  function ParseTime(s: seq<byte>): (r: Option<nat>)
    ensures r.Some? ==> r.value < 24 * 60
  {
    if |s| >= 1 && IsDigit(s[0]) then
      var width := if |s| >= 2 && IsDigit(s[1]) then 2 else 1;
      var hour := if width == 2 then TwoDigitValue(s[0], s[1]) else s[0] - Zero;
      if hour < 24 && |s| == width + 3 && s[width] == Colon && IsDigit(s[width + 1]) && IsDigit(s[width + 2]) then
        var minute := TwoDigitValue(s[width + 1], s[width + 2]);
        if minute < 60 then Some(hour * 60 + minute) else None
      else
        None
    else
      None
  }

  /** Minutes since midnight in the "15:04" layout, two hour digits. */
  function FormatTime(m: nat): seq<byte>
    requires m < 24 * 60
  {
    TwoDigits(m / 60) + [Colon] + TwoDigits(m % 60)
  }

  /** Every time of day, written as HH:MM, parses back to itself. */
  lemma ParseFormatTime(m: nat)
    requires m < 24 * 60
    ensures ParseTime(FormatTime(m)) == Some(m)
  {
    var s := FormatTime(m);
    var (h, mm) := (TwoDigits(m / 60), TwoDigits(m % 60));
    assert s[0] == h[0] && s[1] == h[1] && s[2] == Colon && s[3] == mm[0] && s[4] == mm[1];
  }

  /** Before 10:00 the hour may also be written with one digit ("9:05"). */
  lemma ParseShortHour(m: nat)
    requires m < 10 * 60
    ensures ParseTime(FormatTime(m)[1..]) == Some(m)
  {
    var s := FormatTime(m)[1..];
    var (h, mm) := (TwoDigits(m / 60), TwoDigits(m % 60));
    assert s[0] == h[1] && s[1] == Colon && s[2] == mm[0] && s[3] == mm[1];
  }

  /** Nothing else parses: an accepted text is HH:MM, or H:MM before 10:00. */
  lemma ParseTimeCanonical(s: seq<byte>)
    requires ParseTime(s).Some?
    ensures var m := ParseTime(s).value;
      s == FormatTime(m) || (m < 10 * 60 && s == FormatTime(m)[1..])
  {
    var m := ParseTime(s).value;
    var width := if |s| >= 2 && IsDigit(s[1]) then 2 else 1;
    var minute := TwoDigitValue(s[width + 1], s[width + 2]);
    assert m % 60 == minute;
    assert TwoDigits(m % 60) == s[width + 1..];
    if width == 2 {
      assert m / 60 == TwoDigitValue(s[0], s[1]);
      assert TwoDigits(m / 60) == s[..2];
      assert s == s[..2] + [Colon] + s[3..];
    } else {
      assert m / 60 == s[0] - Zero;
      assert FormatTime(m)[1..] == [s[0]] + [Colon] + s[2..];
      assert s == [s[0]] + [Colon] + s[2..];
    }
  }

  /** 14:00 and 16:00 in minutes since midnight; `init` parses them once. */
  const TwoPM: nat := 14 * 60
  const FourPM: nat := 16 * 60

  /** The texts `init` parses give exactly these two constants. */
  lemma WindowConstants()
    ensures ParseTime(Ascii("14:00")) == Some(TwoPM)
    ensures ParseTime(Ascii("16:00")) == Some(FourPM)
  {

  }

  /** isTimeBetween: strictly after `start` and strictly before `end`. Only a
      window at least two minutes wide holds anything, and neither bound is in it. */
  predicate IsTimeBetween(t: nat, start: nat, end: nat): (b: bool)
    ensures b ==> start + 2 <= end && t != start && t != end
  {
    start < t < end
  }
}
