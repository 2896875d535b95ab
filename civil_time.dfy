/**
 * The part of Go's `time` package the pipeline relies on: day arithmetic on
 * fixed-offset instants, the proleptic Gregorian calendar, and the two
 * layouts it formats dates with ("January 2, 2006" and "Mon, 2 Jan, 2006").
 * Every date here is the calendar date at offset zero (UTC); instants are
 * assumed to carry a fixed offset (no daylight-saving transitions).
 */
module CivilTime {

  const SecondsPerDay: int := 86400

  /** Go's zero `time.Time`, 0001-01-01T00:00:00Z, in Unix seconds: what `IsZero` tests for. */
  const ZeroTime: int := -62135596800

  /**
   * `t.AddDate(0, 0, days)`. On a time with a fixed UTC offset no day is longer
   * or shorter than 86400 seconds, so adding civil days adds whole days of seconds.
   */
  function AddDays(t: int, days: int): (r: int)
    ensures r - t == days * SecondsPerDay
    ensures DayNumber(r) == DayNumber(t) + days
  {
    t + days * SecondsPerDay
  }

  /** The number of the UTC calendar day holding instant `t` (day 0 is 1970-01-01). */
  function DayNumber(t: int): int
  {
    t / SecondsPerDay
  }

  /** Midnight (UTC) at the start of the day holding `t`. */
  function StartOfDay(t: int): (r: int)
    ensures r <= t < r + SecondsPerDay
    ensures r % SecondsPerDay == 0
    ensures DayNumber(r) == DayNumber(t)
  {
    DayNumber(t) * SecondsPerDay
  }

  // ---------------------------------------------------------------------
  // The Gregorian calendar
  // ---------------------------------------------------------------------

  predicate IsLeapYear(y: int)
  {
    y % 4 == 0 && (y % 100 != 0 || y % 400 == 0)
  }

  function DaysInYear(y: int): int
  {
    if IsLeapYear(y) then 366 else 365
  }

  function DaysInMonth(y: int, m: int): int
    requires 1 <= m <= 12
  {
    if m == 2 then (if IsLeapYear(y) then 29 else 28)
    else if m == 4 || m == 6 || m == 9 || m == 11 then 30
    else 31
  }

  /** Days from 1 January of year `y` to the first day of month `m`. */
  function DaysBeforeMonth(y: int, m: int): int
    requires 1 <= m <= 12
  {
    var cumulative := [0, 31, 59, 90, 120, 151, 181, 212, 243, 273, 304, 334];
    cumulative[m - 1] + (if m > 2 && IsLeapYear(y) then 1 else 0)
  }

  /** Day number of 1 January of year `y`. */
  function YearStart(y: int): int
    decreases if y < 1970 then 1970 - y else y - 1970
  {
    if y == 1970 then 0
    else if y > 1970 then YearStart(y - 1) + DaysInYear(y - 1)
    else YearStart(y + 1) - DaysInYear(y)
  }

  datatype Date = Date(year: int, month: int, day: int)

  predicate ValidDate(d: Date)
  {
    1 <= d.month <= 12 && 1 <= d.day <= DaysInMonth(d.year, d.month)
  }

  /** The day number of a calendar date. */
  function DaysFromCivil(d: Date): int
    requires ValidDate(d)
  {
    YearStart(d.year) + DaysBeforeMonth(d.year, d.month) + d.day - 1
  }

  lemma YearStartStep(y: int)
    ensures YearStart(y + 1) == YearStart(y) + DaysInYear(y)
  {
  }

  lemma MonthStep(y: int, m: int)
    requires 1 <= m <= 12
    ensures m < 12 ==> DaysBeforeMonth(y, m + 1) == DaysBeforeMonth(y, m) + DaysInMonth(y, m)
    ensures m == 12 ==> DaysBeforeMonth(y, m) + DaysInMonth(y, m) == DaysInYear(y)
  {
  }

  /** The year holding the day `off` days after 1 January of year `y` (off >= 0), and the day's offset in it. */
  function LocateYearForward(y: int, off: int): (r: (int, int))
    requires off >= 0
    ensures 0 <= r.1 < DaysInYear(r.0)
    ensures YearStart(r.0) + r.1 == YearStart(y) + off
    decreases off
  {
    if off < DaysInYear(y) then (y, off)
    else
      YearStartStep(y);
      LocateYearForward(y + 1, off - DaysInYear(y))
  }

  /** The year holding the day `-off` days before 1 January of year `y` (off < 0), and the day's offset in it. */
  function LocateYearBackward(y: int, off: int): (r: (int, int))
    requires off < 0
    ensures 0 <= r.1 < DaysInYear(r.0)
    ensures YearStart(r.0) + r.1 == YearStart(y) + off
    decreases -off
  {
    YearStartStep(y - 1);
    var off' := off + DaysInYear(y - 1);
    if off' >= 0 then (y - 1, off')
    else LocateYearBackward(y - 1, off')
  }

  /** The month (searched from `m` on) holding day-of-year `doy` of year `y`. */
  function LocateMonth(y: int, doy: int, m: int): (r: int)
    requires 1 <= m <= 12
    requires DaysBeforeMonth(y, m) <= doy < DaysInYear(y)
    ensures m <= r <= 12
    ensures DaysBeforeMonth(y, r) <= doy < DaysBeforeMonth(y, r) + DaysInMonth(y, r)
    decreases 12 - m
  {
    MonthStep(y, m);
    if m == 12 || doy < DaysBeforeMonth(y, m + 1) then m
    else LocateMonth(y, doy, m + 1)
  }

  /** The calendar date of day number `z`: the inverse of DaysFromCivil. */
  function CivilFromDays(z: int): (d: Date)
    ensures ValidDate(d)
    ensures DaysFromCivil(d) == z
  {
    var (y, doy) := if z >= 0 then LocateYearForward(1970, z) else LocateYearBackward(1970, z);
    var m := LocateMonth(y, doy, 1);
    Date(y, m, doy - DaysBeforeMonth(y, m) + 1)
  }

  /** Years start at strictly increasing day numbers, at least a full year apart. */
  lemma {:induction false} YearStartGap(y1: int, y2: int)
    requires y1 < y2
    ensures YearStart(y2) >= YearStart(y1) + DaysInYear(y1)
    decreases y2 - y1
  {
    YearStartStep(y1);
    if y1 + 1 < y2 {
      YearStartGap(y1 + 1, y2);
    }
  }

  lemma MonthStartGap(y: int, m1: int, m2: int)
    requires 1 <= m1 < m2 <= 12
    ensures DaysBeforeMonth(y, m2) >= DaysBeforeMonth(y, m1) + DaysInMonth(y, m1)
  {
  }

  /** Distinct valid dates have distinct day numbers. */
  lemma DaysFromCivilInjective(d1: Date, d2: Date)
    requires ValidDate(d1) && ValidDate(d2)
    requires DaysFromCivil(d1) == DaysFromCivil(d2)
    ensures d1 == d2
  {
    MonthStep(d1.year, d1.month);
    MonthStep(d2.year, d2.month);
    if d1.month < 12 { MonthStartGap(d1.year, d1.month, 12); }
    if d2.month < 12 { MonthStartGap(d2.year, d2.month, 12); }
    if d1.year < d2.year {
      YearStartGap(d1.year, d2.year);
    } else if d2.year < d1.year {
      YearStartGap(d2.year, d1.year);
    } else if d1.month < d2.month {
      MonthStartGap(d1.year, d1.month, d2.month);
    } else if d2.month < d1.month {
      MonthStartGap(d1.year, d2.month, d1.month);
    }
  }

  /** CivilFromDays and DaysFromCivil are inverse bijections. */
  lemma CivilRoundTrip(d: Date)
    requires ValidDate(d)
    ensures CivilFromDays(DaysFromCivil(d)) == d
  {
    DaysFromCivilInjective(CivilFromDays(DaysFromCivil(d)), d);
  }

  /** Day of the week of day number `z`, 0 = Sunday (1970-01-01 was a Thursday). */
  function Weekday(z: int): (w: int)
    ensures 0 <= w < 7
    ensures w == 4 <==> z % 7 == 0
  {
    (z + 4) % 7
  }

  /** Each day's weekday follows the previous one's, Saturday wrapping to Sunday. */
  lemma WeekdaySucceeds(z: int)
    ensures Weekday(z + 1) == (Weekday(z) + 1) % 7
  {
  }

  // ---------------------------------------------------------------------
  // Decimal numerals
  // ---------------------------------------------------------------------

  predicate IsDigit(c: char)
  {
    '0' <= c <= '9'
  }

  function DigitChar(n: int): (c: char)
    requires 0 <= n < 10
    ensures IsDigit(c)
  {
    ['0', '1', '2', '3', '4', '5', '6', '7', '8', '9'][n]
  }

  function DigitValue(c: char): (n: int)
    requires IsDigit(c)
    ensures 0 <= n < 10
    ensures DigitChar(n) == c
  {
    c as int - '0' as int
  }

  /** `strconv.Itoa` on a non-negative number: digits, no leading zero. */
  function Itoa(n: nat): (s: string)
    ensures |s| >= 1
    ensures forall i :: 0 <= i < |s| ==> IsDigit(s[i])
    ensures s[0] == '0' ==> n == 0 && s == "0"
  {
    if n < 10 then [DigitChar(n)] else Itoa(n / 10) + [DigitChar(n % 10)]
  }

  /** The value of a string of decimal digits. */
  function ParseDecimal(s: string): (n: nat)
    requires forall i :: 0 <= i < |s| ==> IsDigit(s[i])
  {
    if s == [] then 0 else 10 * ParseDecimal(s[..|s| - 1]) + DigitValue(s[|s| - 1])
  }

  lemma {:induction false} ItoaRoundTrip(n: nat)
    ensures ParseDecimal(Itoa(n)) == n
  {
    var s := Itoa(n);
    if n >= 10 {
      ItoaRoundTrip(n / 10);
      assert s[..|s| - 1] == Itoa(n / 10);
    } else {
      assert s[..|s| - 1] == [];
    }
  }

  /** Left-pads a numeral with zeros up to `width` characters. */
  function ZeroPad(s: string, width: nat): (r: string)
    ensures |r| == if |s| >= width then |s| else width
    ensures r[|r| - |s|..] == s
    ensures forall i :: 0 <= i < |r| - |s| ==> r[i] == '0'
  {
    if |s| >= width then s
    else
      var zeros := seq(width - |s|, _ => '0');
      assert (zeros + s)[|zeros|..] == s;
      zeros + s
  }

  /** Go's "2006" layout element: at least four digits, a minus sign before negative years. */
  function FormatYear(y: int): (s: string)
    ensures |s| >= 4
    ensures y >= 0 ==> |s| == if |Itoa(y)| >= 4 then |Itoa(y)| else 4
    ensures y >= 0 ==> forall i :: 0 <= i < |s| ==> IsDigit(s[i])
    ensures y >= 0 ==> ParseDecimal(s) == y
  {
    var digits := Itoa(if y < 0 then -y else y);
    ItoaRoundTrip(if y < 0 then -y else y);
    var padded := ZeroPad(digits, 4);
    LeadingZerosDoNotCount(padded, |padded| - |digits|);
    if y < 0 then "-" + padded else padded
  }

  lemma {:induction false} LeadingZerosDoNotCount(s: string, k: nat)
    requires k <= |s|
    requires forall i :: 0 <= i < |s| ==> IsDigit(s[i])
    requires forall i :: 0 <= i < k ==> s[i] == '0'
    ensures ParseDecimal(s) == ParseDecimal(s[k..])
    decreases |s|
  {
    if k < |s| {
      LeadingZerosDoNotCount(s[..|s| - 1], k);
      assert s[..|s| - 1][k..] == s[k..][..|s[k..]| - 1];
    } else if k > 0 {
      LeadingZerosDoNotCount(s[..|s| - 1], k - 1);
      assert s[..|s| - 1][k - 1..] == [];
    }
  }

  // ---------------------------------------------------------------------
  // Layouts
  // ---------------------------------------------------------------------

  const MonthNames: seq<string> := ["January", "February", "March", "April", "May", "June",
    "July", "August", "September", "October", "November", "December"]

  const ShortDayNames: seq<string> := ["Sun", "Mon", "Tue", "Wed", "Thu", "Fri", "Sat"]

  function ShortMonthName(m: int): (s: string)
    requires 1 <= m <= 12
    ensures |s| == 3 && s == MonthNames[m - 1][..3]
  {
    MonthNames[m - 1][..3]
  }

  /** `a`, `sep1`, `b`, `sep2` and `c` in a row: each piece sits at its offset. */
  function Joined(a: string, sep1: string, b: string, sep2: string, c: string): (s: string)
    ensures |s| == |a| + |sep1| + |b| + |sep2| + |c|
    ensures s[..|a|] == a
    ensures s[|a|..|a| + |sep1|] == sep1
    ensures s[|a| + |sep1|..|a| + |sep1| + |b|] == b
    ensures s[|a| + |sep1| + |b|..|s| - |c|] == sep2
    ensures s[|s| - |c|..] == c
  {
    var tail := b + (sep2 + c);
    var s := a + (sep1 + tail);
    assert s[|a|..] == sep1 + tail;
    assert s[|a| + |sep1|..] == tail;
    assert s[|a| + |sep1|..][..|b|] == b;
    assert s[|a| + |sep1| + |b|..] == sep2 + c;
    s
  }

  /** `name`, a space, `day`, a comma and a space, and `year`, each at its offset. */
  function SpelledDate(name: string, day: string, year: string): (s: string)
    ensures |s| == |name| + 1 + |day| + 2 + |year|
    ensures s[..|name|] == name
    ensures s[|name|] == ' '
    ensures s[|name| + 1..|name| + 1 + |day|] == day
    ensures s[|name| + 1 + |day|..|s| - |year|] == ", "
    ensures s[|s| - |year|..] == year
  {
    var s := Joined(name, " ", day, ", ", year);
    assert |" "| == 1 && |", "| == 2;
    assert s[|name|..|name| + 1] == " ";
    s
  }

  /** The "January 2, 2006" layout of a date: month name, day without padding, year. */
  function LongLayout(d: Date): (s: string)
    requires ValidDate(d)
    ensures |s| == |MonthNames[d.month - 1]| + 1 + |Itoa(d.day)| + 2 + |FormatYear(d.year)|
    ensures s[..|MonthNames[d.month - 1]|] == MonthNames[d.month - 1]
    ensures s[|MonthNames[d.month - 1]|] == ' '
    ensures s[|MonthNames[d.month - 1]| + 1..|MonthNames[d.month - 1]| + 1 + |Itoa(d.day)|] == Itoa(d.day)
    ensures s[|MonthNames[d.month - 1]| + 1 + |Itoa(d.day)|..|s| - |FormatYear(d.year)|] == ", "
    ensures s[|s| - |FormatYear(d.year)|..] == FormatYear(d.year)
  {
    SpelledDate(MonthNames[d.month - 1], Itoa(d.day), FormatYear(d.year))
  }


  /** The "Mon, 2 Jan, 2006" layout of a date falling on weekday `w`. */
  function ShortLayout(w: int, d: Date): (s: string)
    requires 0 <= w < 7 && ValidDate(d)
    ensures |s| == 3 + 2 + |Itoa(d.day)| + 1 + 3 + 2 + |FormatYear(d.year)|
    ensures s[..3] == ShortDayNames[w]
    ensures s[3..5] == ", "
    ensures s[5..5 + |Itoa(d.day)|] == Itoa(d.day)
    ensures s[5 + |Itoa(d.day)|..|s| - |FormatYear(d.year)|] == " " + ShortMonthName(d.month) + ", "
    ensures s[|s| - |FormatYear(d.year)|..] == FormatYear(d.year)
  {
    var s := Joined(ShortDayNames[w], ", ", Itoa(d.day), " " + ShortMonthName(d.month) + ", ", FormatYear(d.year));
    assert |ShortDayNames[w]| == 3 && |", "| == 2;
    s
  }

  /** `t.Format("January 2, 2006")` for an instant `t` located in UTC. */
  function FormatLongDate(t: int): string
  {
    LongLayout(CivilFromDays(DayNumber(t)))
  }

  /** `t.Format("Mon, 2 Jan, 2006")` for an instant `t` located in UTC. */
  function FormatShortDate(t: int): string
  {
    ShortLayout(Weekday(DayNumber(t)), CivilFromDays(DayNumber(t)))
  }

  /** Both layouts show only the calendar day: every instant of a day formats alike. */
  lemma FormatsDependOnlyOnDay(t1: int, t2: int)
    requires DayNumber(t1) == DayNumber(t2)
    ensures FormatLongDate(t1) == FormatLongDate(t2)
    ensures FormatShortDate(t1) == FormatShortDate(t2)
  {
  }
}
