/**
 The proleptic Gregorian day arithmetic of ECMAScript's Date object
 (section 21.4.1 of ECMA-262, 15th edition, ECMAScript 2024): day numbers counted from 1970-01-01, the
 year/month/date of a day number, and `MakeDay`, which normalises an
 out-of-range month index by carrying into the year and lets an out-of-range
 date spill over into the following month.
 Months are 0-based as in JavaScript (0 is January); dates are 1-based.
 */
module Calendar {
  import opened Numeric

  const MsPerDay: int := 24 * 60 * 60 * 1000

  predicate IsLeapYear(y: int) {
    y % 4 == 0 && (y % 100 != 0 || y % 400 == 0)
  }

  function DaysInYear(y: int): int {
    if IsLeapYear(y) then 366 else 365
  }

  function DaysInMonth(y: int, m: int): (n: int)
    requires 0 <= m < 12
    ensures 28 <= n <= 31
  {
    if m == 1 then (if IsLeapYear(y) then 29 else 28)
    else if m == 3 || m == 5 || m == 8 || m == 10 then 30
    else 31
  }

  /** The number of days in the months of year `y` before month `m` (`m == 12` covers the year). */
  function DaysBeforeMonth(y: int, m: int): int
    requires 0 <= m <= 12
  {
    [0, 31, 59, 90, 120, 151, 181, 212, 243, 273, 304, 334, 365][m]
      + (if IsLeapYear(y) && m >= 2 then 1 else 0)
  }

  /**
   ECMAScript's DayFromYear: the day number of January 1st of year `y`,
   counted year by year from 1970 (DayFromYearClosedForm shows it equals the
   standard's closed formula).
   */
  function DayFromYear(y: int): int
    decreases if y >= 1970 then y - 1970 else 1970 - y
  {
    if y == 1970 then 0
    else if y > 1970 then DayFromYear(y - 1) + DaysInYear(y - 1)
    else DayFromYear(y + 1) - DaysInYear(y)
  }

  /** A calendar date: a year, a 0-based month and a 1-based day of the month. */
  datatype Date = Date(year: int, month: int, day: int)

  predicate ValidDate(d: Date) {
    0 <= d.month < 12 && 1 <= d.day <= DaysInMonth(d.year, d.month)
  }

  /** The day number of day `date` of month `m` of year `y`; a date past the month's end runs on into the next. */
  function DayNumber(y: int, m: int, date: int): int
    requires 0 <= m < 12
  {
    DayFromYear(y) + DaysBeforeMonth(y, m) + date - 1
  }

  /** ECMAScript's MakeDay(year, month, date): the day number, with the month carried into the year. */
  function MakeDay(year: int, month: int, date: int): int {
    DayNumber(year + month / 12, month % 12, date)
  }

  /** When the date, with the month carried into the year, exists, MakeDay's day number reads back as it. */
  lemma MakeDayReadsBack(year: int, month: int, date: int)
    ensures var c := Date(year + month / 12, month % 12, date);
      ValidDate(c) ==> DateOfDay(MakeDay(year, month, date)) == c
  {
    var c := Date(year + month / 12, month % 12, date);
    if ValidDate(c) {
      DateOfDayNumber(c);
    }
  }

  // ---------------------------------------------------------------------------
  // Year lengths

  /** Division is determined by quotient and remainder. */
  lemma DivUnique(a: int, k: int, q: int, r: int)
    requires k > 0 && a == k * q + r && 0 <= r < k
    ensures a / k == q
  {
    var q', r' := a / k, a % k;
    assert a == k * q' + r';
    if q' < q {
      MulNonNegative(k, q - q' - 1);
    } else if q < q' {
      MulNonNegative(k, q' - q - 1);
    }
  }

  lemma FloorStep(a: int, k: int)
    requires k > 0
    ensures (a + 1) / k - a / k == if (a + 1) % k == 0 then 1 else 0
  {
    var q, r := a / k, a % k;
    assert a == k * q + r && 0 <= r < k;
    if r == k - 1 {
      DivUnique(a + 1, k, q + 1, 0);
      assert (a + 1) % k == 0;
    } else {
      DivUnique(a + 1, k, q, r + 1);
      assert (a + 1) % k == r + 1;
    }
  }

  /** Consecutive January 1sts are a year's length apart. */
  lemma DayFromYearStep(y: int)
    ensures DayFromYear(y + 1) == DayFromYear(y) + DaysInYear(y)
  {
  }

  /** The year-by-year count agrees with the closed formula of DayFromYear, section 21.4.1.6 of ECMA-262 (15th edition). */
  lemma {:induction false} DayFromYearClosedForm(y: int)
    ensures DayFromYear(y) == 365 * (y - 1970) + (y - 1969) / 4 - (y - 1901) / 100 + (y - 1601) / 400
    decreases if y >= 1970 then y - 1970 else 1970 - y
  {
    if y > 1970 {
      DayFromYearClosedForm(y - 1);
      LeapStep(y - 1);
    } else if y < 1970 {
      DayFromYearClosedForm(y + 1);
      LeapStep(y);
    }
  }

  /** The closed formula grows by one year's length from `y` to `y + 1`. */
  lemma LeapStep(y: int)
    ensures (y - 1968) / 4 - (y - 1969) / 4 - ((y - 1900) / 100 - (y - 1901) / 100)
      + ((y - 1600) / 400 - (y - 1601) / 400) == DaysInYear(y) - 365
  {
    FloorStep(y - 1969, 4);
    FloorStep(y - 1901, 100);
    FloorStep(y - 1601, 400);
    assert (y - 1968) % 4 == 0 <==> y % 4 == 0;
    assert (y - 1900) % 100 == 0 <==> y % 100 == 0;
    assert (y - 1600) % 400 == 0 <==> y % 400 == 0;
  }

  lemma {:induction false} DayFromYearMonotone(a: int, b: int)
    requires a <= b
    ensures DayFromYear(a) <= DayFromYear(b)
    decreases b - a
  {
    if a < b {
      DayFromYearStep(a);
      DayFromYearMonotone(a + 1, b);
    }
  }

  /** The year that contains day `d`, searched upwards from year `y`. */
  function SearchUp(y: int, d: int): (r: int)
    requires DayFromYear(y) <= d
    ensures DayFromYear(r) <= d < DayFromYear(r + 1)
    decreases d - DayFromYear(y)
  {
    DayFromYearStep(y);
    if d < DayFromYear(y + 1) then y else SearchUp(y + 1, d)
  }

  /** The year that contains day `d`, searched downwards from year `y`. */
  function SearchDown(y: int, d: int): (r: int)
    requires d < DayFromYear(y + 1)
    ensures DayFromYear(r) <= d < DayFromYear(r + 1)
    decreases DayFromYear(y + 1) - d
  {
    DayFromYearStep(y);
    if DayFromYear(y) <= d then y else SearchDown(y - 1, d)
  }

  /** ECMAScript's YearFromTime, on day numbers: the year whose days include `d`. */
  function YearFromDay(d: int): (y: int)
    ensures DayFromYear(y) <= d < DayFromYear(y + 1)
  {
    if d >= 0 then SearchUp(1970, d) else SearchDown(1969, d)
  }

  /** Years do not overlap: only one year contains a given day. */
  lemma YearUnique(a: int, b: int, d: int)
    requires DayFromYear(a) <= d < DayFromYear(a + 1)
    requires DayFromYear(b) <= d < DayFromYear(b + 1)
    ensures a == b
  {
    if a < b {
      DayFromYearMonotone(a + 1, b);
    } else if b < a {
      DayFromYearMonotone(b + 1, a);
    }
  }

  // ---------------------------------------------------------------------------
  // Months within a year

  /** Each month adds its length to the days before it. */
  lemma DaysBeforeMonthStep(y: int, m: int)
    requires 0 <= m < 12
    ensures DaysBeforeMonth(y, m + 1) == DaysBeforeMonth(y, m) + DaysInMonth(y, m)
  {
  }

  lemma {:induction false} DaysBeforeMonthMonotone(y: int, a: int, b: int)
    requires 0 <= a <= b <= 12
    ensures DaysBeforeMonth(y, a) + 28 * (b - a) <= DaysBeforeMonth(y, b)
    decreases b - a
  {
    if a < b {
      DaysBeforeMonthMonotone(y, a, b - 1);
      DaysBeforeMonthStep(y, b - 1);
    }
  }

  lemma DaysBeforeYearEnd(y: int)
    ensures DaysBeforeMonth(y, 12) == DaysInYear(y)
  {
  }

  /** The month of the year `y` that holds day `k` of that year, searched from month `m`. */
  function MonthSearch(y: int, k: int, m: int): (r: int)
    requires 0 <= m < 12 && DaysBeforeMonth(y, m) <= k < DaysInYear(y)
    ensures m <= r < 12 && DaysBeforeMonth(y, r) <= k < DaysBeforeMonth(y, r + 1)
    decreases 12 - m
  {
    DaysBeforeYearEnd(y);
    if k < DaysBeforeMonth(y, m + 1) then m else MonthSearch(y, k, m + 1)
  }

  /** ECMAScript's YearFromTime, MonthFromTime and DateFromTime, on day numbers. */
  function DateOfDay(d: int): (c: Date)
    ensures ValidDate(c)
    ensures DayNumber(c.year, c.month, c.day) == d
  {
    var y := YearFromDay(d);
    DayFromYearStep(y);
    var k := d - DayFromYear(y);
    var m := MonthSearch(y, k, 0);
    DaysBeforeMonthStep(y, m);
    Date(y, m, k - DaysBeforeMonth(y, m) + 1)
  }

  /** A valid date's day falls inside its year, at its offset within that year. */
  lemma DayNumberBounds(c: Date)
    requires ValidDate(c)
    ensures DayFromYear(c.year) <= DayNumber(c.year, c.month, c.day) < DayFromYear(c.year + 1)
  {
    DaysBeforeMonthStep(c.year, c.month);
    DaysBeforeMonthMonotone(c.year, c.month + 1, 12);
    DaysBeforeYearEnd(c.year);
    DayFromYearStep(c.year);
  }

  /** Distinct valid dates have distinct day numbers. */
  lemma DayNumberInjective(a: Date, b: Date)
    requires ValidDate(a) && ValidDate(b)
    requires DayNumber(a.year, a.month, a.day) == DayNumber(b.year, b.month, b.day)
    ensures a == b
  {
    var d := DayNumber(a.year, a.month, a.day);
    DayNumberBounds(a);
    DayNumberBounds(b);
    YearUnique(a.year, b.year, d);
    assert a.year == b.year;
    assert DaysBeforeMonth(a.year, a.month) + a.day == DaysBeforeMonth(a.year, b.month) + b.day;
    MonthUnique(a.year, a.month, a.day, b.month, b.day);
  }

  /** Within one year, distinct (month, date) pairs are distinct days of the year. */
  lemma MonthUnique(y: int, m1: int, d1: int, m2: int, d2: int)
    requires ValidDate(Date(y, m1, d1)) && ValidDate(Date(y, m2, d2))
    requires DaysBeforeMonth(y, m1) + d1 == DaysBeforeMonth(y, m2) + d2
    ensures m1 == m2 && d1 == d2
  {
    DaysBeforeMonthStep(y, m1);
    DaysBeforeMonthStep(y, m2);
    if m1 < m2 {
      DaysBeforeMonthMonotone(y, m1 + 1, m2);
    } else if m2 < m1 {
      DaysBeforeMonthMonotone(y, m2 + 1, m1);
    }
  }

  /** The first month after month `m` of year `y`, with December carried into January. */
  function NextMonth(y: int, m: int): (r: (int, int))
    requires 0 <= m < 12
    ensures 0 <= r.1 < 12
  {
    if m == 11 then (y + 1, 0) else (y, m + 1)
  }

  /** A date past the end of a month names a day of the following month. */
  lemma SpillOver(y: int, m: int, date: int)
    requires 0 <= m < 12 && DaysInMonth(y, m) < date <= 31
    ensures var (ny, nm) := NextMonth(y, m);
      var excess := date - DaysInMonth(y, m);
      ValidDate(Date(ny, nm, excess)) && DayNumber(ny, nm, excess) == DayNumber(y, m, date)
  {
    DaysBeforeMonthStep(y, m);
    if m == 11 {
      DayFromYearStep(y);
      DaysBeforeYearEnd(y);
    }
  }

  /** Reading the date back from the day number of a valid date gives that date. */
  lemma DateOfDayNumber(c: Date)
    requires ValidDate(c)
    ensures DateOfDay(DayNumber(c.year, c.month, c.day)) == c
  {
    DayNumberInjective(DateOfDay(DayNumber(c.year, c.month, c.day)), c);
  }

  /** The date `months` calendar months after `c`, with the month carried into the year; the day may not exist. */
  function MonthsLater(c: Date, months: int): (r: Date)
    ensures 0 <= r.month < 12
  {
    Date(c.year + (c.month + months) / 12, (c.month + months) % 12, c.day)
  }

  /** When the day exists `months` later, MakeDay lands on it. */
  lemma DateOfMonthsLater(c: Date, months: int)
    requires ValidDate(c)
    requires MonthsLater(c, months).day <= DaysInMonth(MonthsLater(c, months).year, MonthsLater(c, months).month)
    ensures DateOfDay(MakeDay(c.year, c.month + months, c.day)) == MonthsLater(c, months)
  {
    var target := MonthsLater(c, months);
    assert MakeDay(c.year, c.month + months, c.day) == DayNumber(target.year, target.month, target.day);
    DateOfDayNumber(target);
  }

  /** When it does not, MakeDay spills the excess days into the following month. */
  lemma DateOfMonthsLaterSpill(c: Date, months: int)
    requires MonthsLater(c, months).day > DaysInMonth(MonthsLater(c, months).year, MonthsLater(c, months).month)
    requires ValidDate(c)
    ensures var target := MonthsLater(c, months);
      var (ny, nm) := NextMonth(target.year, target.month);
      DateOfDay(MakeDay(c.year, c.month + months, c.day)) == Date(ny, nm, target.day - DaysInMonth(target.year, target.month))
  {
    var target := MonthsLater(c, months);
    assert MakeDay(c.year, c.month + months, c.day) == DayNumber(target.year, target.month, target.day);
    var (ny, nm) := NextMonth(target.year, target.month);
    SpillOver(target.year, target.month, target.day);
    DateOfDayNumber(Date(ny, nm, target.day - DaysInMonth(target.year, target.month)));
  }
}
