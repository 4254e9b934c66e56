/**
 * The proleptic Gregorian calendar on whole day numbers. Day 0 is 1970-01-01,
 * a Thursday; the day after day n is day n + 1. This stands for the JavaScript
 * `Date` values the insights page works with, taken at local midnight.
 */
module Calendar {
  import opened Wrappers
  import Decimal

  type Day = int

  predicate IsLeap(y: int) { y % 4 == 0 && (y % 100 != 0 || y % 400 == 0) }

  function DaysInYear(y: int): int { if IsLeap(y) then 366 else 365 }

  /** Leap years among 1 .. y - 1 (floor division extends the count below year 1). */
  function LeapYearsBefore(y: int): int { (y - 1) / 4 - (y - 1) / 100 + (y - 1) / 400 }

  /** The day number of January 1 of year y, counted year by year from 1970. */
  function Jan1(y: int): Day
    decreases if y >= 1970 then y - 1970 else 1970 - y
  {
    if y == 1970 then 0
    else if y > 1970 then Jan1(y - 1) + DaysInYear(y - 1)
    else Jan1(y + 1) - DaysInYear(y)
  }

  /** Consecutive New Year's days are one year's length apart. */
  lemma Jan1Step(y: int)
    ensures Jan1(y + 1) == Jan1(y) + DaysInYear(y)
  {
  }

  /**
   * The closed form: 365 days a year since 1970, plus one day for each leap
   * year passed.
   */
  lemma {:induction false} Jan1ClosedForm(y: int)
    ensures Jan1(y) == 365 * (y - 1970) + LeapYearsBefore(y) - LeapYearsBefore(1970)
    decreases if y >= 1970 then y - 1970 else 1970 - y
  {
    if y > 1970 {
      Jan1ClosedForm(y - 1);
      LeapYearsStep(y - 1);
    } else if y < 1970 {
      Jan1ClosedForm(y + 1);
      LeapYearsStep(y);
    }
  }

  /** Passing year x adds one to the leap-year count exactly when x is a leap year. */
  lemma LeapYearsStep(x: int)
    ensures LeapYearsBefore(x + 1) == LeapYearsBefore(x) + (if IsLeap(x) then 1 else 0)
  {
    DivStep(x - 1, 4);
    DivStep(x - 1, 100);
    DivStep(x - 1, 400);
    if x % 400 == 0 {
      DivUnique(x, 100, 4 * (x / 400), 0);
    }
    if x % 100 == 0 {
      DivUnique(x, 4, 25 * (x / 100), 0);
    }
  }

  /** Floor division by d steps up by one exactly at the multiples of d. */
  lemma DivStep(x: int, d: int)
    requires d > 0
    ensures (x + 1) / d == x / d + (if (x + 1) % d == 0 then 1 else 0)
  {
    var q, r := x / d, x % d;
    if r == d - 1 {
      DivUnique(x + 1, d, q + 1, 0);
    } else {
      DivUnique(x + 1, d, q, r + 1);
    }
  }

  lemma DivUnique(x: int, d: int, q: int, r: int)
    requires d > 0 && 0 <= r < d && x == d * q + r
    ensures x / d == q && x % d == r
  {
    var q', r' := x / d, x % d;
    assert d * q - d * q' == r' - r;
    if q > q' {
      assert d * (q - q') == d * q - d * q';
      MulAtLeast(d, q - q');
    } else if q < q' {
      assert d * (q' - q) == d * q' - d * q;
      MulAtLeast(d, q' - q);
    }
  }

  lemma {:induction false} MulAtLeast(d: int, k: int)
    requires d > 0 && k >= 1
    ensures d * k >= d
    decreases k
  {
    if k > 1 {
      MulAtLeast(d, k - 1);
      assert d * k == d * (k - 1) + d;
    }
  }

  /** January 1 moves forward by 365 or 366 days a year. */
  lemma {:induction false} Jan1Grows(a: int, b: int)
    requires a <= b
    ensures Jan1(a) + 365 * (b - a) <= Jan1(b) <= Jan1(a) + 366 * (b - a)
    decreases b - a
  {
    if a < b {
      Jan1Step(b - 1);
      Jan1Grows(a, b - 1);
    }
  }

  /** The year holding day n, searched for upwards from a year that starts no later. */
  function YearUp(n: Day, y: int): (r: int)
    requires Jan1(y) <= n
    ensures Jan1(r) <= n < Jan1(r + 1)
    decreases n - Jan1(y)
  {
    Jan1Step(y);
    if n < Jan1(y + 1) then y else YearUp(n, y + 1)
  }

  /** The year holding day n, searched for downwards from a year that ends after it. */
  function YearDown(n: Day, y: int): (r: int)
    requires n < Jan1(y + 1)
    ensures Jan1(r) <= n < Jan1(r + 1)
    decreases Jan1(y + 1) - n
  {
    Jan1Step(y);
    if Jan1(y) <= n then y else YearDown(n, y - 1)
  }

  /** The calendar year that day n falls in (`getFullYear`). */
  function YearOf(n: Day): (y: int)
    ensures Jan1(y) <= n < Jan1(y + 1)
  {
    if n >= 0 then YearUp(n, 1970) else YearDown(n, 1969)
  }

  /** Only one year contains a given day. */
  lemma YearOfUnique(n: Day, y: int)
    requires Jan1(y) <= n < Jan1(y + 1)
    ensures YearOf(n) == y
  {
    var x := YearOf(n);
    if x < y {
      Jan1Grows(x + 1, y);
    } else if y < x {
      Jan1Grows(y + 1, x);
    }
  }

  /** JavaScript's `getDay()`: 0 is Sunday, 1 Monday, ..., 6 Saturday. */
  function Weekday(n: Day): (w: int)
    ensures 0 <= w < 7
  {
    (n + 4) % 7
  }

  /** `getDay() || 7`: the ISO weekday, Monday 1 through Sunday 7. */
  function IsoWeekday(n: Day): (w: int)
    ensures 1 <= w <= 7
    ensures w == 7 <==> Weekday(n) == 0
  {
    if Weekday(n) == 0 then 7 else Weekday(n)
  }

  /** The ISO weekday advances by one each day, Sunday wrapping to Monday. */
  lemma IsoWeekdayNext(n: Day)
    ensures IsoWeekday(n + 1) == IsoWeekday(n) % 7 + 1
  {
  }

  /** The weekday repeats every seven days. */
  lemma WeekdayPeriodic(n: Day, k: int)
    ensures Weekday(n + 7 * k) == Weekday(n) && IsoWeekday(n + 7 * k) == IsoWeekday(n)
  {
  }

  /** The day k days after a Monday is ISO weekday k + 1, for k = 0..6. */
  lemma DaysAfterMonday(m: Day, k: int)
    requires IsoWeekday(m) == 1 && 0 <= k < 7
    ensures IsoWeekday(m + k) == k + 1
  {
  }

  /** The Monday that starts the Monday-to-Sunday week containing day n. */
  function MondayOf(n: Day): (m: Day)
    ensures IsoWeekday(m) == 1
    ensures m <= n < m + 7
  {
    n - (IsoWeekday(n) - 1)
  }

  /** A Monday at most six days before n is n's Monday. */
  lemma MondayOfUnique(n: Day, m: Day)
    requires IsoWeekday(m) == 1 && m <= n < m + 7
    ensures MondayOf(n) == m
  {
  }

  // Months and calendar dates

  datatype Date = Date(year: int, month: int, day: int)

  function DaysInMonth(y: int, m: int): int
    requires 1 <= m <= 12
  {
    if m == 2 then (if IsLeap(y) then 29 else 28)
    else if m == 4 || m == 6 || m == 9 || m == 11 then 30
    else 31
  }

  /** Days of year y before the first of month m; month 13 stands for the end of the year. */
  function DaysBeforeMonth(y: int, m: int): int
    requires 1 <= m <= 13
  {
    var common := [0, 31, 59, 90, 120, 151, 181, 212, 243, 273, 304, 334, 365][m - 1];
    if m > 2 && IsLeap(y) then common + 1 else common
  }

  /** The months tile the year: each month starts where the previous one ends. */
  lemma DaysBeforeMonthStep(y: int, m: int)
    requires 1 <= m <= 12
    ensures DaysBeforeMonth(y, m + 1) == DaysBeforeMonth(y, m) + DaysInMonth(y, m)
    ensures DaysBeforeMonth(y, 1) == 0 && DaysBeforeMonth(y, 13) == DaysInYear(y)
  {
  }

  predicate ValidDate(c: Date)
  {
    1 <= c.month <= 12 && 1 <= c.day <= DaysInMonth(c.year, c.month)
  }

  /** The day number of a calendar date (`new Date(y, m - 1, d)` for a valid date). */
  function DayNumber(c: Date): (n: Day)
    requires ValidDate(c)
    ensures Jan1(c.year) <= n < Jan1(c.year + 1)
  {
    DaysBeforeMonthStep(c.year, c.month);
    Jan1Step(c.year);
    Jan1(c.year) + DaysBeforeMonth(c.year, c.month) + c.day - 1
  }

  function MonthFrom(y: int, doy: int, m: int): (r: int)
    requires 1 <= m <= 12 && DaysBeforeMonth(y, m) <= doy < DaysInYear(y)
    ensures m <= r <= 12 && DaysBeforeMonth(y, r) <= doy < DaysBeforeMonth(y, r + 1)
    decreases 12 - m
  {
    if doy < DaysBeforeMonth(y, m + 1) then m else MonthFrom(y, doy, m + 1)
  }

  /** The calendar date of day n: its year, month and day of the month. */
  function DateOf(n: Day): (c: Date)
    ensures ValidDate(c) && DayNumber(c) == n
  {
    var y := YearOf(n);
    Jan1Step(y);
    var doy := n - Jan1(y);
    var m := MonthFrom(y, doy, 1);
    DaysBeforeMonthStep(y, m);
    Date(y, m, doy - DaysBeforeMonth(y, m) + 1)
  }

  /** DateOf undoes DayNumber: a valid date is recovered from its day number. */
  lemma DateOfDayNumber(c: Date)
    requires ValidDate(c)
    ensures DateOf(DayNumber(c)) == c
  {
    var n := DayNumber(c);
    YearOfUnique(n, c.year);
    var d := DateOf(n);
    assert d.year == c.year;
    DaysBeforeMonthStep(c.year, c.month);
    DaysBeforeMonthStep(c.year, d.month);
    if d.month < c.month {
      MonthsIncrease(c.year, d.month + 1, c.month);
    } else if c.month < d.month {
      MonthsIncrease(c.year, c.month + 1, d.month);
    }
  }

  lemma {:induction false} MonthsIncrease(y: int, a: int, b: int)
    requires 1 <= a <= b <= 13
    ensures DaysBeforeMonth(y, a) <= DaysBeforeMonth(y, b)
  {
  }

  // Parsing "YYYY-MM-DD"

  /**
   * `new Date(s)` for a date-only ISO 8601 string "YYYY-MM-DD": the day it names,
   * or None (an Invalid Date) when the text is not of that form or names no date.
   */
  function ParseDate(s: string): (r: Option<Day>)
    ensures r.Some? ==> IsDateShaped(s)
    ensures r.Some? ==>
      var year := Decimal.DigitsValue(s[..4]);
      Jan1(year) <= r.value < Jan1(year + 1)
  {
    if IsDateShaped(s) then
      var c := DigitsDate(s);
      if ValidDate(c) then Some(DayNumber(c)) else None
    else None
  }

  /** Four digits, '-', two digits, '-', two digits. */
  predicate IsDateShaped(s: string)
  {
    |s| == 10 && s[4] == '-' && s[7] == '-'
    && Decimal.AllDigits(s[..4]) && Decimal.AllDigits(s[5..7]) && Decimal.AllDigits(s[8..])
  }

  /** The year, month and day the digit groups spell. */
  function DigitsDate(s: string): Date
    requires IsDateShaped(s)
  {
    Date(Decimal.DigitsValue(s[..4]), Decimal.DigitsValue(s[5..7]), Decimal.DigitsValue(s[8..]))
  }

  /**
   * A string is read as a day exactly when it has the "YYYY-MM-DD" shape and its
   * digits name a real calendar date; the day read back is that same date.
   */
  lemma ParseDateReadsDigits(s: string)
    ensures ParseDate(s).Some? <==> IsDateShaped(s) && ValidDate(DigitsDate(s))
    ensures ParseDate(s).Some? ==> IsDateShaped(s) && DateOf(ParseDate(s).value) == DigitsDate(s)
  {
    if IsDateShaped(s) && ValidDate(DigitsDate(s)) {
      DateOfDayNumber(DigitsDate(s));
    }
  }
}
