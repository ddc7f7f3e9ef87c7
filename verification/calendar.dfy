/**
 * Calendar arithmetic on date-only values (proleptic Gregorian calendar).
 *
 * A `Date` is a normalised calendar date, as a JavaScript `Date` built at
 * local midnight always is.  `MakeDate` is `new Date(y, m - 1, d)` for the
 * arguments the engine passes: a day beyond the end of the month rolls into
 * the next month and day 0 is the last day of the previous month, exactly as
 * JavaScript does.  `DayNumber` orders dates and measures distances the way
 * `Date.UTC` of the date parts does.
 */
module Calendar {

  datatype Date = Date(year: int, month: int, day: int)

  /** The Gregorian rule: divisible by 4 and not by 100, or divisible by 400. */
  predicate IsLeapYear(y: int)
  {
    (y % 4 == 0 && y % 100 != 0) || y % 400 == 0
  }

  function DaysInYear(y: int): (n: int)
    ensures n == 365 || n == 366
    ensures n == 366 <==> IsLeapYear(y)
  {
    if IsLeapYear(y) then 366 else 365
  }

  function DaysInMonth(y: int, m: int): (n: int)
    requires 1 <= m <= 12
    ensures 28 <= n <= 31
    ensures n == 29 <==> m == 2 && IsLeapYear(y)
  {
    if m == 2 then (if IsLeapYear(y) then 29 else 28)
    else if m == 4 || m == 6 || m == 9 || m == 11 then 30
    else 31
  }

  predicate ValidDate(d: Date)
  {
    1 <= d.month <= 12 && 1 <= d.day <= DaysInMonth(d.year, d.month)
  }

  /** Days in all the years before year y. */
  function DaysBeforeYear(y: int): int
  {
    var p := y - 1;
    365 * p + p / 4 - p / 100 + p / 400
  }

  /** Days in the months of year y before month m. */
  function DaysBeforeMonth(y: int, m: int): int
    requires 1 <= m <= 12
  {
    var cumulative := [0, 31, 59, 90, 120, 151, 181, 212, 243, 273, 304, 334];
    cumulative[m - 1] + (if m > 2 && IsLeapYear(y) then 1 else 0)
  }

  /** A serial day number: consecutive dates get consecutive numbers. */
  function DayNumber(d: Date): int
    requires 1 <= d.month <= 12
  {
    DaysBeforeYear(d.year) + DaysBeforeMonth(d.year, d.month) + d.day
  }

  lemma DivStep(y: int)
    ensures y / 4 - (y - 1) / 4 == (if y % 4 == 0 then 1 else 0)
    ensures y / 100 - (y - 1) / 100 == (if y % 100 == 0 then 1 else 0)
    ensures y / 400 - (y - 1) / 400 == (if y % 400 == 0 then 1 else 0)
  {
  }

  /** A year is as long as the distance between its first day and the next year's. */
  lemma {:induction false} YearLength(y: int)
    ensures DaysBeforeYear(y + 1) == DaysBeforeYear(y) + DaysInYear(y)
  {
    DivStep(y);
  }

  /** Months follow one another without gaps, and December closes the year. */
  lemma MonthLength(y: int, m: int)
    requires 1 <= m <= 12
    ensures m < 12 ==> DaysBeforeMonth(y, m + 1) == DaysBeforeMonth(y, m) + DaysInMonth(y, m)
    ensures m == 12 ==> DaysBeforeMonth(y, m) + DaysInMonth(y, m) == DaysInYear(y)
  {
  }

  /** A valid date lies strictly after the end of the previous year and within its own year. */
  lemma {:induction false} DayOfYearBounds(d: Date)
    requires ValidDate(d)
    ensures DaysBeforeYear(d.year) < DayNumber(d) <= DaysBeforeYear(d.year) + DaysInYear(d.year)
    ensures DayNumber(d) <= DaysBeforeYear(d.year + 1)
  {
    var m := d.month;
    assert DaysBeforeMonth(d.year, m) + DaysInMonth(d.year, m) <= DaysInYear(d.year) by {
      MonthLength(d.year, m);
      if m < 12 {
        MonthsBeforeEndOfYear(d.year, m + 1);
      }
    }
    YearLength(d.year);
  }

  lemma MonthsBeforeEndOfYear(y: int, m: int)
    requires 1 <= m <= 12
    ensures DaysBeforeMonth(y, m) <= DaysBeforeMonth(y, 12)
    ensures DaysBeforeMonth(y, 12) + 31 == DaysInYear(y)
  {
  }

  /** Dates in an earlier year come before dates in a later one. */
  lemma {:induction false} EarlierYearEarlierDay(a: Date, b: Date)
    requires ValidDate(a) && ValidDate(b) && a.year < b.year
    ensures DayNumber(a) < DayNumber(b)
  {
    DayOfYearBounds(a);
    DayOfYearBounds(b);
    YearsBeforeMonotone(a.year + 1, b.year);
  }

  lemma {:induction false} YearsBeforeMonotone(y1: int, y2: int)
    requires y1 <= y2
    ensures DaysBeforeYear(y1) <= DaysBeforeYear(y2)
    decreases y2 - y1
  {
    if y1 < y2 {
      YearLength(y1);
      YearsBeforeMonotone(y1 + 1, y2);
    }
  }

  /**
   * `new Date(y, m - 1, d)` for a month 1..12 and a day 0..31: the result is a
   * valid date whose day number is that of day d counted from the start of
   * month m, so out-of-range days roll over into the neighbouring month.
   */
  function MakeDate(y: int, m: int, d: int): (r: Date)
    requires 1 <= m <= 12 && 0 <= d <= 31
    ensures ValidDate(r)
    ensures DayNumber(r) == DaysBeforeYear(y) + DaysBeforeMonth(y, m) + d
    ensures 1 <= d <= DaysInMonth(y, m) ==> r == Date(y, m, d)
    ensures 1 <= d ==> r.year == y
  {
    if d == 0 then
      if m == 1 then
        YearLength(y - 1);
        MonthLength(y - 1, 12);
        Date(y - 1, 12, 31)
      else
        MonthLength(y, m - 1);
        Date(y, m - 1, DaysInMonth(y, m - 1))
    else if d <= DaysInMonth(y, m) then
      Date(y, m, d)
    else
      MonthLength(y, m);
      Date(y, m + 1, d - DaysInMonth(y, m))
  }

  function StartOfYear(y: int): (r: Date)
    ensures ValidDate(r) && DayNumber(r) == DaysBeforeYear(y) + 1
  {
    Date(y, 1, 1)
  }

  /** `getDaysBetween`: whole days between two dates, counting both ends. */
  function DaysBetween(a: Date, b: Date): (n: int)
    requires ValidDate(a) && ValidDate(b)
    ensures n >= 1
    ensures n == 1 <==> DayNumber(a) == DayNumber(b)
    ensures DayNumber(a) <= DayNumber(b) ==> n == DayNumber(b) - DayNumber(a) + 1
  {
    var diff := DayNumber(b) - DayNumber(a);
    (if diff >= 0 then diff else -diff) + 1
  }

  lemma DaysBetweenSymmetric(a: Date, b: Date)
    requires ValidDate(a) && ValidDate(b)
    ensures DaysBetween(a, b) == DaysBetween(b, a)
  {
  }

  /** `Math.floor(totalDays / 365.25)`: whole years of seniority, the same as 4 * totalDays div 1461. */
  function SeniorityYears(totalDays: int): (years: int)
    ensures totalDays >= 0 ==> years >= 0
    ensures years == (4 * totalDays) / 1461
  {
    var q := (4 * totalDays) / 1461;
    var r := (totalDays as real / 365.25);
    assert q as real <= r < q as real + 1.0 by {
      assert 1461 * q <= 4 * totalDays < 1461 * q + 1461;
      assert r == (4 * totalDays) as real / 1461.0;
    }
    r.Floor
  }

  /**
   * The most recent anniversary of the hire date on or before the termination
   * date: the hire month and day in the termination year, or in the year
   * before when that is still ahead (a 29 February rolls to 1 March).
   */
  function LastAnniversary(hire: Date, termination: Date): (r: Date)
    requires ValidDate(hire) && ValidDate(termination)
    ensures ValidDate(r)
    ensures DayNumber(r) <= DayNumber(termination)
    ensures DayNumber(termination) - DayNumber(r) <= 365
    ensures var sameYear := MakeDate(termination.year, hire.month, hire.day);
      && (DayNumber(sameYear) <= DayNumber(termination) ==> r == sameYear)
      && (DayNumber(sameYear) > DayNumber(termination) ==> r == MakeDate(termination.year - 1, sameYear.month, sameYear.day))
  {
    var sameYear := MakeDate(termination.year, hire.month, hire.day);
    if DayNumber(sameYear) > DayNumber(termination) then
      var yearBefore := MakeDate(termination.year - 1, sameYear.month, sameYear.day);
      AnniversaryYearBefore(sameYear, yearBefore, termination);
      yearBefore
    else
      AnniversarySameYear(sameYear, termination);
      sameYear
  }

  lemma {:induction false} AnniversarySameYear(a: Date, t: Date)
    requires ValidDate(a) && ValidDate(t) && a.year == t.year
    requires DayNumber(a) <= DayNumber(t)
    ensures DayNumber(t) - DayNumber(a) <= 365
  {
    DayOfYearBounds(a);
    DayOfYearBounds(t);
  }

  lemma {:induction false} AnniversaryYearBefore(a: Date, b: Date, t: Date)
    requires ValidDate(a) && ValidDate(b) && ValidDate(t)
    requires a.year == t.year && b.year == t.year - 1
    requires DayNumber(b) == DaysBeforeYear(t.year - 1) + DaysBeforeMonth(t.year - 1, a.month) + a.day
    requires DayNumber(a) > DayNumber(t)
    ensures DayNumber(b) <= DayNumber(t)
    ensures DayNumber(t) - DayNumber(b) <= 365
  {
    EarlierYearEarlierDay(b, t);
    YearLength(t.year - 1);
    DivStep(t.year);
  }

  /**
   * Days worked in the termination's calendar year, counted from the later of
   * the hire date and 1 January of that year.
   */
  function DaysWorkedInYear(hire: Date, termination: Date): (n: int)
    requires ValidDate(hire) && ValidDate(termination)
    ensures n >= 1
    ensures DayNumber(hire) <= DayNumber(termination) ==> n <= DaysInYear(termination.year)
    ensures DayNumber(hire) <= DaysBeforeYear(termination.year) + 1 ==> n == DayNumber(termination) - DaysBeforeYear(termination.year)
    ensures DaysBeforeYear(termination.year) + 1 < DayNumber(hire) <= DayNumber(termination) ==>
              n == DayNumber(termination) - DayNumber(hire) + 1
  {
    var startOfYear := StartOfYear(termination.year);
    var start := if DayNumber(hire) > DayNumber(startOfYear) then hire else startOfYear;
    DayOfYearBounds(termination);
    DaysBetween(start, termination)
  }
}
