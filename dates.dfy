/** Calendar days as the note manager stores them (`YYYY-MM-DD`, what
    `toISOString().slice(0, 10)` keeps) and as JavaScript `Date` places them
    on its time line: `new Date("YYYY-MM-DD")` is UTC midnight of that day,
    in milliseconds since 1970-01-01. */
module Dates {
  import opened Wrappers

  const MsPerDay: int := 86_400_000

  datatype Ymd = Ymd(year: int, month: int, day: int)

  /** Proleptic Gregorian leap years. */
  predicate IsLeapYear(y: int)
  {
    (y % 4 == 0 && y % 100 != 0) || y % 400 == 0
  }

  function DaysInYear(y: int): int
  {
    if IsLeapYear(y) then 366 else 365
  }

  function DaysInMonth(y: int, m: int): (n: int)
    requires 1 <= m <= 12
    ensures 28 <= n <= 31
  {
    if m == 2 then (if IsLeapYear(y) then 29 else 28)
    else if m == 4 || m == 6 || m == 9 || m == 11 then 30
    else 31
  }

  /** A real calendar day whose year has the four digits of `YYYY-MM-DD`. */
  predicate IsCalendarDay(d: Ymd)
  {
    0 <= d.year <= 9999 && 1 <= d.month <= 12 && 1 <= d.day <= DaysInMonth(d.year, d.month)
  }

  type Day = d: Ymd | IsCalendarDay(d) witness Ymd(1970, 1, 1)

  // ---------------------------------------------------------------------
  // The text form YYYY-MM-DD

  predicate IsDigit(c: char)
  {
    '0' <= c <= '9'
  }

  predicate AllDigits(s: string)
  {
    forall i :: 0 <= i < |s| ==> IsDigit(s[i])
  }

  function DigitChar(n: int): (c: char)
    requires 0 <= n <= 9
    ensures IsDigit(c)
  {
    (48 + n) as char
  }

  function DigitValue(c: char): (n: int)
    requires IsDigit(c)
    ensures 0 <= n <= 9 && DigitChar(n) == c
  {
    c as int - 48
  }

  /** Two decimal digits with a leading zero. */
  function Pad2(n: int): (s: string)
    requires 0 <= n <= 99
    ensures |s| == 2 && AllDigits(s)
  {
    [DigitChar(n / 10), DigitChar(n % 10)]
  }

  /** Four decimal digits with leading zeros. */
  function Pad4(n: int): (s: string)
    requires 0 <= n <= 9999
    ensures |s| == 4 && AllDigits(s)
  {
    [DigitChar(n / 1000), DigitChar(n / 100 % 10), DigitChar(n / 10 % 10), DigitChar(n % 10)]
  }

  function Value2(s: string): int
    requires |s| == 2 && AllDigits(s)
  {
    10 * DigitValue(s[0]) + DigitValue(s[1])
  }

  function Value4(s: string): int
    requires |s| == 4 && AllDigits(s)
  {
    1000 * DigitValue(s[0]) + 100 * DigitValue(s[1]) + 10 * DigitValue(s[2]) + DigitValue(s[3])
  }

  /** The `YYYY-MM-DD` form of a day. */
  function FormatIso(d: Day): (s: string)
    ensures |s| == 10 && s[4] == '-' && s[7] == '-'
    ensures AllDigits(s[..4]) && AllDigits(s[5..7]) && AllDigits(s[8..])
  {
    Pad4(d.year) + "-" + Pad2(d.month) + "-" + Pad2(d.day)
  }

  /** Reads a `YYYY-MM-DD` string; `None` when it is not one or names no
      real day (the model of an invalid `Date`). */
  function ParseIso(s: string): (r: Option<Day>)
    ensures r.Some? ==> |s| == 10 && s[4] == '-' && s[7] == '-' && IsCalendarDay(r.value)
  {
    if |s| == 10 && s[4] == '-' && s[7] == '-'
       && AllDigits(s[..4]) && AllDigits(s[5..7]) && AllDigits(s[8..])
    then
      var d := Ymd(Value4(s[..4]), Value2(s[5..7]), Value2(s[8..]));
      if IsCalendarDay(d) then Some(d) else None
    else None
  }

  lemma Value2Pad2(n: int)
    requires 0 <= n <= 99
    ensures Value2(Pad2(n)) == n
  {
  }

  lemma Value4Pad4(n: int)
    requires 0 <= n <= 9999
    ensures Value4(Pad4(n)) == n
  {
    DivideByTenTwice(n);
    DivideByTenTwice(n / 10);
    var q1 := n / 10;
    var q2 := q1 / 10;
    var q3 := q2 / 10;
    var s := Pad4(n);
    assert DigitValue(s[0]) == q3 && DigitValue(s[1]) == q2 % 10;
    assert DigitValue(s[2]) == q1 % 10 && DigitValue(s[3]) == n % 10;
  }

  /** Dropping two decimal digits one at a time drops them both. */
  lemma DivideByTenTwice(n: int)
    requires n >= 0
    ensures n / 10 / 10 == n / 100 && n / 100 / 10 == n / 1000
  {
  }

  lemma Pad2Value2(s: string)
    requires |s| == 2 && AllDigits(s)
    ensures Pad2(Value2(s)) == s
  {
  }

  lemma Pad4Value4(s: string)
    requires |s| == 4 && AllDigits(s)
    ensures Pad4(Value4(s)) == s
  {
    var a, b, c, e := DigitValue(s[0]), DigitValue(s[1]), DigitValue(s[2]), DigitValue(s[3]);
    var n := Value4(s);
    assert n == 1000 * a + 100 * b + 10 * c + e;
    assert n / 1000 == a;
    assert n / 100 == 10 * a + b;
    assert n / 10 == 100 * a + 10 * b + c;
    assert n / 100 % 10 == b;
    assert n / 10 % 10 == c;
    assert n % 10 == e;
  }

  /** Formatting a day and reading it back gives the same day. */
  lemma ParseFormatIso(d: Day)
    ensures ParseIso(FormatIso(d)) == Some(d)
  {
    var s := FormatIso(d);
    assert s[..4] == Pad4(d.year) && s[5..7] == Pad2(d.month) && s[8..] == Pad2(d.day);
    Value4Pad4(d.year);
    Value2Pad2(d.month);
    Value2Pad2(d.day);
  }

  /** Every string that reads as a day is that day's `YYYY-MM-DD` form. */
  lemma FormatParseIso(s: string)
    requires ParseIso(s).Some?
    ensures FormatIso(ParseIso(s).value) == s
  {
    var d := ParseIso(s).value;
    Pad4Value4(s[..4]);
    Pad2Value2(s[5..7]);
    Pad2Value2(s[8..]);
    assert s == s[..4] + "-" + s[5..7] + "-" + s[8..];
  }

  /** Different days have different text forms. */
  lemma FormatIsoInjective(d1: Day, d2: Day)
    requires FormatIso(d1) == FormatIso(d2)
    ensures d1 == d2
  {
    ParseFormatIso(d1);
    ParseFormatIso(d2);
  }

  // ---------------------------------------------------------------------
  // The time line

  /** Days from 0000-01-01 to January 1 of year `y`. */
  function DaysBeforeYear(y: nat): nat
  {
    if y == 0 then 0 else DaysBeforeYear(y - 1) + DaysInYear(y - 1)
  }

  /** Days from January 1 of year `y` to the first of month `m`. */
  function DaysBeforeMonth(y: int, m: int): nat
    requires 1 <= m <= 12
  {
    var common := [0, 31, 59, 90, 120, 151, 181, 212, 243, 273, 304, 334][m - 1];
    if m > 2 && IsLeapYear(y) then common + 1 else common
  }

  /** Days since 1970-01-01 (negative before it). */
  function DayNumber(d: Day): int
  {
    DaysBeforeYear(d.year) - DaysBeforeYear(1970) + DaysBeforeMonth(d.year, d.month) + d.day - 1
  }

  /** Strictly earlier in the calendar. */
  predicate Before(d1: Day, d2: Day)
  {
    d1.year < d2.year
    || (d1.year == d2.year && (d1.month < d2.month || (d1.month == d2.month && d1.day < d2.day)))
  }

  lemma DaysBeforeMonthBelowYear(y: int, m: int)
    requires 1 <= m <= 12
    ensures DaysBeforeMonth(y, m) + DaysInMonth(y, m) <= DaysInYear(y)
  {
  }

  lemma DaysBeforeMonthIncreasing(y: int, m1: int, m2: int)
    requires 1 <= m1 < m2 <= 12
    ensures DaysBeforeMonth(y, m1) + DaysInMonth(y, m1) <= DaysBeforeMonth(y, m2)
  {
  }

  lemma {:induction false} DaysBeforeYearIncreasing(y1: nat, y2: nat)
    requires y1 < y2
    ensures DaysBeforeYear(y1) + DaysInYear(y1) <= DaysBeforeYear(y2)
    decreases y2 - y1
  {
    if y1 + 1 < y2 {
      DaysBeforeYearIncreasing(y1, y2 - 1);
    }
  }

  /** Day numbers count days in calendar order: a later day has a larger
      number, so `new Date` orders valid dates chronologically. */
  lemma DayNumberIncreasing(d1: Day, d2: Day)
    requires Before(d1, d2)
    ensures DayNumber(d1) < DayNumber(d2)
  {
    if d1.year < d2.year {
      DaysBeforeMonthBelowYear(d1.year, d1.month);
      DaysBeforeYearIncreasing(d1.year, d2.year);
    } else if d1.month < d2.month {
      DaysBeforeMonthIncreasing(d1.year, d1.month, d2.month);
    }
  }

  /** Different days are different instants. */
  lemma DayNumberInjective(d1: Day, d2: Day)
    requires DayNumber(d1) == DayNumber(d2)
    ensures d1 == d2
  {
    if Before(d1, d2) {
      DayNumberIncreasing(d1, d2);
    } else if Before(d2, d1) {
      DayNumberIncreasing(d2, d1);
    }
  }

  /** `new Date(s).getTime()` for a stored date string: UTC midnight of its
      day, or `None` for an invalid date (`NaN`). */
  function InstantOf(s: string): (t: Option<int>)
    ensures t.Some? <==> ParseIso(s).Some?
  {
    match ParseIso(s)
    case Some(d) => Some(DayNumber(d) * MsPerDay)
    case None => None
  }

  /** Milliseconds elapsed since UTC midnight. */
  type TimeOfDay = n: int | 0 <= n < MsPerDay

  /** The clock reading of `new Date()`: the current UTC day and the time
      elapsed in it. */
  datatype Clock = Clock(today: Day, msOfDay: TimeOfDay)

  /** `new Date().getTime()`. */
  function Now(c: Clock): int
  {
    DayNumber(c.today) * MsPerDay + c.msOfDay
  }

  /** UTC midnight at the start of today. */
  function Midnight(c: Clock): int
  {
    DayNumber(c.today) * MsPerDay
  }
}
