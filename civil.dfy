/** Proleptic Gregorian calendar arithmetic, the calendar both Go's `time`
    package and JavaScript's `Date` use: leap years, month lengths, day
    numbers counted from 1970-01-01 and weekdays. */
module Civil {

  /** A calendar date; `month` is 1-based here (January is 1). */
  datatype Date = Date(year: int, month: int, day: int)

  predicate IsLeap(y: int)
  {
    y % 4 == 0 && (y % 100 != 0 || y % 400 == 0)
  }

  function YearLength(y: int): (n: int)
    ensures n == 365 || n == 366
    ensures n == 366 <==> IsLeap(y)
  {
    if IsLeap(y) then 366 else 365
  }

  function DaysInMonth(y: int, m: int): (n: int)
    requires 1 <= m <= 12
    ensures 28 <= n <= 31
    ensures m == 2 ==> (n == 29 <==> IsLeap(y)) && (n == 28 <==> !IsLeap(y))
    ensures m in {1, 3, 5, 7, 8, 10, 12} ==> n == 31
    ensures m in {4, 6, 9, 11} ==> n == 30
  {
    if m == 2 then (if IsLeap(y) then 29 else 28)
    else if m == 4 || m == 6 || m == 9 || m == 11 then 30
    else 31
  }

  predicate ValidDate(dt: Date)
  {
    1 <= dt.month <= 12 && 1 <= dt.day <= DaysInMonth(dt.year, dt.month)
  }

  /** Leap years among 1 .. y-1 (negative counts for years before 1). */
  function LeapsBefore(y: int): int
  {
    (y - 1) / 4 - (y - 1) / 100 + (y - 1) / 400
  }

  /** Days from 1970-01-01 to January 1st of year `y`. */
  function DaysBeforeYear(y: int): int
  {
    365 * (y - 1970) + LeapsBefore(y) - 477
  }

  /** Consecutive New Year's days are one year length apart. */
  lemma DaysBeforeYearStep(y: int)
    ensures DaysBeforeYear(y + 1) == DaysBeforeYear(y) + YearLength(y)
  {
    assert y / 4 - (y - 1) / 4 == if y % 4 == 0 then 1 else 0;
    assert y / 100 - (y - 1) / 100 == if y % 100 == 0 then 1 else 0;
    assert y / 400 - (y - 1) / 400 == if y % 400 == 0 then 1 else 0;
  }

  /** New Year's day numbers grow strictly with the year. */
  lemma {:induction false} DaysBeforeYearMonotone(a: int, b: int)
    requires a < b
    ensures DaysBeforeYear(a) + 365 * (b - a) <= DaysBeforeYear(b)
    decreases b - a
  {
    DaysBeforeYearStep(b - 1);
    if a < b - 1 {
      DaysBeforeYearMonotone(a, b - 1);
    }
  }

  /** Days from January 1st to the 1st of month `m` in year `y`. */
  function DaysBeforeMonth(y: int, m: int): (n: int)
    requires 1 <= m <= 12
    ensures 0 <= n <= 335
  {
    var table := [0, 31, 59, 90, 120, 151, 181, 212, 243, 273, 304, 334];
    table[m - 1] + (if m > 2 && IsLeap(y) then 1 else 0)
  }

  /** Consecutive month starts are one month length apart; December ends the year. */
  lemma DaysBeforeMonthStep(y: int, m: int)
    requires 1 <= m <= 12
    ensures m < 12 ==> DaysBeforeMonth(y, m + 1) == DaysBeforeMonth(y, m) + DaysInMonth(y, m)
    ensures m == 12 ==> DaysBeforeMonth(y, m) + DaysInMonth(y, m) == YearLength(y)
  {
  }

  /** Days from 1970-01-01 to `dt` (negative before the epoch). */
  function DayNumber(dt: Date): int
    requires 1 <= dt.month <= 12
  {
    DaysBeforeYear(dt.year) + DaysBeforeMonth(dt.year, dt.month) + dt.day - 1
  }

  /** Day of the week of a day number, Sunday = 0 (1970-01-01 was a Thursday). */
  function Weekday(n: int): (w: int)
    ensures 0 <= w < 7
  {
    (n + 4) % 7
  }

  /** The year that contains day number `n`. */
  function YearOfDay(n: int): (y: int)
    ensures DaysBeforeYear(y) <= n < DaysBeforeYear(y + 1)
  {
    if n >= DaysBeforeYear(1970) then YearUp(n, 1970) else YearDown(n, 1970)
  }

  function YearUp(n: int, y: int): (r: int)
    requires DaysBeforeYear(y) <= n
    ensures DaysBeforeYear(r) <= n < DaysBeforeYear(r + 1)
    decreases n - DaysBeforeYear(y)
  {
    DaysBeforeYearStep(y);
    if n < DaysBeforeYear(y + 1) then y else YearUp(n, y + 1)
  }

  function YearDown(n: int, y: int): (r: int)
    requires n < DaysBeforeYear(y)
    ensures DaysBeforeYear(r) <= n < DaysBeforeYear(r + 1)
    decreases DaysBeforeYear(y) - n
  {
    DaysBeforeYearStep(y - 1);
    if DaysBeforeYear(y - 1) <= n then y - 1 else YearDown(n, y - 1)
  }

  /** The month of year `y` that contains day `r` of that year (0-based). */
  function MonthOfYearDay(y: int, r: int): (m: int)
    requires 0 <= r < YearLength(y)
    ensures 1 <= m <= 12
    ensures DaysBeforeMonth(y, m) <= r < DaysBeforeMonth(y, m) + DaysInMonth(y, m)
  {
    FindMonth(y, r, 12)
  }

  function FindMonth(y: int, r: int, m: int): (k: int)
    requires 1 <= m <= 12 && 0 <= r < YearLength(y)
    requires m < 12 ==> r < DaysBeforeMonth(y, m + 1)
    ensures 1 <= k <= m
    ensures DaysBeforeMonth(y, k) <= r < DaysBeforeMonth(y, k) + DaysInMonth(y, k)
    decreases m
  {
    DaysBeforeMonthStep(y, m);
    if DaysBeforeMonth(y, m) <= r || m == 1 then m else FindMonth(y, r, m - 1)
  }

  /** The calendar date of day number `n`. */
  function DateOfDay(n: int): (dt: Date)
    ensures ValidDate(dt) && DayNumber(dt) == n
  {
    var y := YearOfDay(n);
    DaysBeforeYearStep(y);
    var m := MonthOfYearDay(y, n - DaysBeforeYear(y));
    Date(y, m, n - DaysBeforeYear(y) - DaysBeforeMonth(y, m) + 1)
  }

  /** A valid date lies inside its own year's range of day numbers. */
  lemma DayNumberWithinYear(dt: Date)
    requires ValidDate(dt)
    ensures DaysBeforeYear(dt.year) <= DayNumber(dt) < DaysBeforeYear(dt.year + 1)
  {
    DaysBeforeYearStep(dt.year);
    DaysBeforeMonthStep(dt.year, dt.month);
    if dt.month < 12 {
      DaysBeforeMonthStep(dt.year, 12);
      MonthStartsGrow(dt.year, dt.month + 1, 12);
    }
  }

  lemma {:induction false} MonthStartsGrow(y: int, a: int, b: int)
    requires 1 <= a <= b <= 12
    ensures DaysBeforeMonth(y, a) <= DaysBeforeMonth(y, b)
  {
  }

  /** Only one year's range contains a given day number. */
  lemma YearUnique(n: int, a: int, b: int)
    requires DaysBeforeYear(a) <= n < DaysBeforeYear(a + 1)
    requires DaysBeforeYear(b) <= n < DaysBeforeYear(b + 1)
    ensures a == b
  {
    if a < b {
      DaysBeforeYearMonotone(a + 1, b + 1);
      if a + 1 < b { DaysBeforeYearMonotone(a + 1, b); }
    } else if b < a {
      DaysBeforeYearMonotone(b + 1, a + 1);
      if b + 1 < a { DaysBeforeYearMonotone(b + 1, a); }
    }
  }

  /** Day numbers identify valid dates: reading a date back from its day
      number gives the same date. */
  lemma DateOfDayNumber(dt: Date)
    requires ValidDate(dt)
    ensures DateOfDay(DayNumber(dt)) == dt
  {
    var n := DayNumber(dt);
    var back := DateOfDay(n);
    DayNumberWithinYear(dt);
    DayNumberWithinYear(back);
    YearUnique(n, dt.year, back.year);
    var y := dt.year;
    var r := n - DaysBeforeYear(y);
    if back.month < dt.month {
      DaysBeforeMonthStep(y, back.month);
      MonthStartsGrow(y, back.month + 1, dt.month);
    } else if dt.month < back.month {
      DaysBeforeMonthStep(y, dt.month);
      MonthStartsGrow(y, dt.month + 1, back.month);
    }
  }

  /** The day after the last day of a month is the 1st of the next month. */
  lemma NextMonthStart(y: int, m: int)
    requires 1 <= m <= 12
    ensures m < 12 ==> DayNumber(Date(y, m + 1, 1)) == DayNumber(Date(y, m, DaysInMonth(y, m))) + 1
    ensures m == 12 ==> DayNumber(Date(y + 1, 1, 1)) == DayNumber(Date(y, 12, 31)) + 1
  {
    DaysBeforeMonthStep(y, m);
    DaysBeforeYearStep(y);
  }
}
