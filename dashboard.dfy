/** The dashboard page: the month calendar built with JavaScript `Date`
    arithmetic, the day filter over the appointment list and the `date`
    query parameter. Appointments arrive as local calendar dates; "today"
    is a parameter. Months are 0-based, as `getMonth()` returns them. */
module Dashboard {
  import opened Wrappers
  import opened Seqs
  import opened Strings
  import opened Civil

  /** A local date as `getFullYear()`, `getMonth()` and `getDate()` give it. */
  datatype LocalDate = LocalDate(year: int, month: int, day: int)

  predicate ValidLocal(l: LocalDate)
  {
    0 <= l.month <= 11 && ValidDate(Date(l.year, l.month + 1, l.day))
  }

  /** The year `new Date(y, m, d)` works in: a year 0..99 is read as
      1900 + y (MakeFullYear in ECMA-262), before the month is carried. */
  function FullYear(y: int): (r: int)
    ensures 0 <= y <= 99 ==> r == 1900 + y
    ensures !(0 <= y <= 99) ==> r == y
  {
    if 0 <= y <= 99 then 1900 + y else y
  }

  /** The day number of `new Date(y, m, d)`: a month outside 0..11 carries
      into the year, and the day counts from the 1st of that month, so 0 is
      the last day of the month before (MakeDay in ECMA-262). */
  function MakeDay(y: int, m: int, d: int): int
  {
    DayOfFullYear(FullYear(y), m, d)
  }

  /** MakeDay once the year is the full year: the carried month's 1st plus `d - 1`. */
  function DayOfFullYear(fy: int, m: int, d: int): int
  {
    DayNumber(Date(fy + m / 12, m % 12 + 1, 1)) + d - 1
  }

  /** The local date of a day number. */
  function LocalOf(n: int): (l: LocalDate)
    ensures ValidLocal(l)
  {
    var dt := DateOfDay(n);
    LocalDate(dt.year, dt.month - 1, dt.day)
  }

  /** A valid date is recovered from its day number. */
  lemma LocalOfDay(l: LocalDate)
    requires ValidLocal(l)
    ensures LocalOf(DayNumber(Date(l.year, l.month + 1, l.day))) == l
  {
    DateOfDayNumber(Date(l.year, l.month + 1, l.day));
  }

  /** The same, for a day number already known to be that of `l`. */
  lemma LocalOfDayAt(n: int, l: LocalDate)
    requires ValidLocal(l) && n == DayNumber(Date(l.year, l.month + 1, l.day))
    ensures LocalOf(n) == l
  {
    LocalOfDay(l);
  }

  /** The 1st of the month `m` of year `y` stands for, once `m` is carried. */
  function MonthStart(y: int, m: int): (l: LocalDate)
    ensures ValidLocal(l) && l.day == 1
  {
    LocalDate(y + m / 12, m % 12, 1)
  }

  /** `new Date(y, m, 1)` is the 1st of the carried month of the full year. */
  lemma FirstOfMonth(y: int, m: int)
    ensures LocalOf(MakeDay(y, m, 1)) == MonthStart(FullYear(y), m)
  {
    var l := MonthStart(FullYear(y), m);
    LocalOfDayAt(MakeDay(y, m, 1), l);
  }

  /** `new Date(year, month + offset, 1)`, read back as a local date. */
  function MonthAway(l: LocalDate, offset: int): (r: LocalDate)
    ensures r == MonthStart(FullYear(l.year), l.month + offset)
  {
    var m := l.month + offset;
    FirstOfMonth(l.year, m);
    LocalOf(MakeDay(l.year, m, 1))
  }

  /** The next month's first day follows this month's last. */
  lemma MonthEnd(y: int, m: int)
    ensures var next := MonthStart(y, m + 1);
      var here := MonthStart(y, m);
      DayNumber(Date(next.year, next.month + 1, 1))
        == DayNumber(Date(here.year, here.month + 1, DaysInMonth(here.year, here.month + 1))) + 1
  {
    var here := MonthStart(y, m);
    NextMonthStart(here.year, here.month + 1);
    if m % 12 < 11 {
      assert (m + 1) / 12 == m / 12 && (m + 1) % 12 == m % 12 + 1;
    } else {
      assert (m + 1) / 12 == m / 12 + 1 && (m + 1) % 12 == 0;
    }
  }

  /** `getDaysInMonth(year, month)`: the length of that month in the
      Gregorian calendar, with `month` carried into the year when it lies
      outside 0..11 and a year 0..99 read as 1900 + y. */
  function GetDaysInMonth(y: int, m: int): (n: int)
    ensures n == DaysInMonth(MonthStart(FullYear(y), m).year, MonthStart(FullYear(y), m).month + 1)
    ensures 28 <= n <= 31
  {
    var here := MonthStart(FullYear(y), m);
    LastDayOfMonth(y, m);
    LocalOfDayAt(MakeDay(y, m + 1, 0), LocalDate(here.year, here.month, DaysInMonth(here.year, here.month + 1)));
    LocalOf(MakeDay(y, m + 1, 0)).day
  }

  /** Day 0 of the next month is the last day of this one. */
  lemma LastDayOfMonth(y: int, m: int)
    ensures var here := MonthStart(FullYear(y), m);
      MakeDay(y, m + 1, 0) == DayNumber(Date(here.year, here.month + 1, DaysInMonth(here.year, here.month + 1)))
  {
    MonthEnd(FullYear(y), m);
  }

  /** February has 29 days exactly in leap years, and month -1 is the
      December of the year before; a year 0..99 counts as 1900 + y. */
  lemma DaysInMonthCases(y: int)
    ensures GetDaysInMonth(y, 1) == 29 <==> IsLeap(FullYear(y))
    ensures GetDaysInMonth(y, -1) == 31 && MonthStart(FullYear(y), -1) == LocalDate(FullYear(y) - 1, 11, 1)
    ensures GetDaysInMonth(y, 12) == 31 && MonthStart(FullYear(y), 12) == LocalDate(FullYear(y) + 1, 0, 1)
  {
    var fy := FullYear(y);
    assert MonthStart(fy, 1) == LocalDate(fy, 1, 1);
    assert MonthStart(fy, -1) == LocalDate(fy - 1, 11, 1);
    assert MonthStart(fy, 12) == LocalDate(fy + 1, 0, 1);
  }

  /** A two-digit year stands for a year of the 1900s: `new Date(y, m, d)`
      is the same day as `new Date(1900 + y, m, d)`. */
  lemma TwoDigitYears(y: int, m: int, d: int)
    requires 0 <= y <= 99
    ensures MakeDay(y, m, d) == MakeDay(1900 + y, m, d)
    ensures GetDaysInMonth(y, m) == GetDaysInMonth(1900 + y, m)
    ensures GetFirstDayOfMonth(y, m) == GetFirstDayOfMonth(1900 + y, m)
  {
    assert FullYear(y) == FullYear(1900 + y);
  }

  /** So February of a two-digit year is that of the 1900s: it has 29 days
      exactly when `y` is a multiple of 4 other than 0, since 1900 is no
      leap year (the calendar year 0 would be one). */
  lemma TwoDigitFebruary(y: int)
    requires 0 <= y <= 99
    ensures GetDaysInMonth(y, 1) == 29 <==> y % 4 == 0 && y != 0
  {
    FebruaryLength(y);
    LeapInThe1900s(y);
  }

  lemma LeapInThe1900s(y: int)
    requires 0 <= y <= 99
    ensures IsLeap(1900 + y) <==> y % 4 == 0 && y != 0
  {
    var fy := 1900 + y;
    assert fy % 4 == y % 4;
    assert fy % 100 == y;
  }

  /** February has 28 days, or 29 in a leap (full) year. */
  lemma FebruaryLength(y: int)
    ensures GetDaysInMonth(y, 1) == if IsLeap(FullYear(y)) then 29 else 28
  {
    var fy := FullYear(y);
    assert MonthStart(fy, 1) == LocalDate(fy, 1, 1);
  }

  /** `getFirstDayOfMonth(year, month)`: the weekday of the 1st, Sunday = 0. */
  function GetFirstDayOfMonth(y: int, m: int): (w: int)
    ensures 0 <= w < 7
  {
    Weekday(MakeDay(y, m, 1))
  }

  /** March 2024 began on a Friday. */
  lemma March2024()
    ensures GetFirstDayOfMonth(2024, 2) == 5
  {
    FirstOfMarch2024();
    assert Weekday(19783) == 5;
  }

  lemma FirstOfMarch2024()
    ensures MakeDay(2024, 2, 1) == 19783
  {
    assert LeapsBefore(2024) == 490 by {
      assert 2023 / 4 == 505 && 2023 / 100 == 20 && 2023 / 400 == 5;
    }
    assert DaysBeforeYear(2024) == 19723;
    assert MonthStart(2024, 2) == LocalDate(2024, 2, 1);
    assert DaysBeforeMonth(2024, 3) == 60;
  }

  // ---- the calendar grid ---------------------------------------------------

  /** The date filter of the operations list. */
  datatype DayKey = DayKey(day: int, month: int, year: int)

  /** An appointment as the page sees it: its local date and status. */
  datatype CalAppt = CalAppt(id: nat, date: LocalDate, status: string)

  datatype Cell =
    | Header(name: string)
    | Filler(day: int)
    | DayCell(day: int, isToday: bool, hasAppt: bool, isSelected: bool)

  const Weekdays: seq<string> := ["Sun", "Mon", "Tue", "Wed", "Thu", "Fri", "Sat"]

  predicate OnDay(a: CalAppt, year: int, month: int, day: int)
  {
    a.date == LocalDate(year, month, day)
  }

  /** The label of filler cell `i`: counting back from the previous month's end. */
  function FillerDay(y: int, m: int, i: int): int
  {
    FillerLabel(GetDaysInMonth(y, m - 1), GetFirstDayOfMonth(y, m), i)
  }

  /** `prevMonthDays - firstDay + i + 1`. */
  function FillerLabel(prev: int, first: int, i: int): int
  {
    prev - first + i + 1
  }

  /** `new Date(year, month, d)` is today; the page compares in the full year. */
  predicate IsToday(current: LocalDate, today: LocalDate, d: int)
  {
    today == LocalDate(FullYear(current.year), current.month, d)
  }

  predicate HasAppt(current: LocalDate, appts: seq<CalAppt>, d: int)
  {
    exists a :: a in appts && OnDay(a, current.year, current.month, d)
  }

  predicate IsSelected(current: LocalDate, filter: Option<DayKey>, d: int)
  {
    filter == Some(DayKey(d, current.month, current.year))
  }

  /** The cell of day `d`. */
  function DayCellOf(current: LocalDate, today: LocalDate, filter: Option<DayKey>, appts: seq<CalAppt>, d: int): Cell
  {
    DayCell(d, IsToday(current, today, d), HasAppt(current, appts, d), IsSelected(current, filter, d))
  }

  function Headers(): (r: seq<Cell>)
    ensures |r| == 7
  {
    seq(7, k requires 0 <= k < 7 => Header(Weekdays[k]))
  }

  /** `first` fillers, labelled so that the last one shows `prev`. */
  function Fillers(prev: int, first: nat): (r: seq<Cell>)
    ensures |r| == first
  {
    seq(first, i requires 0 <= i < first => Filler(FillerLabel(prev, first, i)))
  }

  function DayCells(current: LocalDate, today: LocalDate, filter: Option<DayKey>, appts: seq<CalAppt>, dim: nat): (r: seq<Cell>)
    ensures |r| == dim
  {
    seq(dim, j requires 0 <= j < dim => DayCellOf(current, today, filter, appts, j + 1))
  }

  /** The cells `renderCalendar` returns for the shown month. */
  function Calendar(current: LocalDate, today: LocalDate, filter: Option<DayKey>, appts: seq<CalAppt>): seq<Cell>
  {
    var y, m := current.year, current.month;
    Headers() + Fillers(GetDaysInMonth(y, m - 1), GetFirstDayOfMonth(y, m))
      + DayCells(current, today, filter, appts, GetDaysInMonth(y, m))
  }

  /** The calendar is the seven weekday headers, then one filler per
      weekday before the 1st, then one cell for each day of the month. */
  lemma CalendarLayout(current: LocalDate, today: LocalDate, filter: Option<DayKey>, appts: seq<CalAppt>)
    ensures var days := Calendar(current, today, filter, appts);
      && |days| == 7 + GetFirstDayOfMonth(current.year, current.month) + GetDaysInMonth(current.year, current.month)
      && (forall k :: 0 <= k < 7 ==> days[k] == Header(Weekdays[k]))
  {
    var y, m := current.year, current.month;
    var prev, first, dim := GetDaysInMonth(y, m - 1), GetFirstDayOfMonth(y, m), GetDaysInMonth(y, m);
    CellsAt(current, today, filter, appts, prev, first, dim, Calendar(current, today, filter, appts));
  }

  /** Day `d` of the month sits right after the fillers, in order. */
  lemma CalendarDays(current: LocalDate, today: LocalDate, filter: Option<DayKey>, appts: seq<CalAppt>)
    ensures var days := Calendar(current, today, filter, appts);
      var first, dim := GetFirstDayOfMonth(current.year, current.month), GetDaysInMonth(current.year, current.month);
      forall d :: 1 <= d <= dim ==> days[6 + first + d] == DayCellOf(current, today, filter, appts, d)
  {
    var y, m := current.year, current.month;
    var prev, first, dim := GetDaysInMonth(y, m - 1), GetFirstDayOfMonth(y, m), GetDaysInMonth(y, m);
    var days := Calendar(current, today, filter, appts);
    forall d | 1 <= d <= dim
      ensures days[6 + first + d] == DayCellOf(current, today, filter, appts, d)
    {
      DayCellAt(current, today, filter, appts, prev, first, dim, days, d);
    }
  }

  lemma DayCellAt(current: LocalDate, today: LocalDate, filter: Option<DayKey>, appts: seq<CalAppt>,
                  prev: int, first: nat, dim: nat, days: seq<Cell>, d: int)
    requires days == Headers() + Fillers(prev, first) + DayCells(current, today, filter, appts, dim)
    requires 1 <= d <= dim
    ensures days[6 + first + d] == DayCellOf(current, today, filter, appts, d)
  {
    CellsAt(current, today, filter, appts, prev, first, dim, days);
  }

  /** Filler `i` shows the label counted back from the previous month's end. */
  lemma CalendarFillers(current: LocalDate, today: LocalDate, filter: Option<DayKey>, appts: seq<CalAppt>)
    ensures var days := Calendar(current, today, filter, appts);
      var first := GetFirstDayOfMonth(current.year, current.month);
      forall i :: 0 <= i < first ==> days[7 + i] == Filler(FillerDay(current.year, current.month, i))
  {
    var y, m := current.year, current.month;
    var prev, first, dim := GetDaysInMonth(y, m - 1), GetFirstDayOfMonth(y, m), GetDaysInMonth(y, m);
    var days := Calendar(current, today, filter, appts);
    CellsAt(current, today, filter, appts, prev, first, dim, days);
    forall i | 0 <= i < first
      ensures days[7 + i] == Filler(FillerDay(y, m, i))
    {
      assert FillerDay(y, m, i) == FillerLabel(prev, first, i);
    }
  }

  /** Where each kind of cell sits in headers, fillers and day cells. */
  lemma CellsAt(current: LocalDate, today: LocalDate, filter: Option<DayKey>, appts: seq<CalAppt>,
                prev: int, first: nat, dim: nat, days: seq<Cell>)
    requires days == Headers() + Fillers(prev, first) + DayCells(current, today, filter, appts, dim)
    ensures |days| == 7 + first + dim
    ensures forall k :: 0 <= k < 7 ==> days[k] == Header(Weekdays[k])
    ensures forall i :: 0 <= i < first ==> days[7 + i] == Filler(FillerLabel(prev, first, i))
    ensures forall d :: 1 <= d <= dim ==> days[6 + first + d] == DayCellOf(current, today, filter, appts, d)
  {
    var h, f, c := Headers(), Fillers(prev, first), DayCells(current, today, filter, appts, dim);
    forall k | 0 <= k < 7
      ensures days[k] == Header(Weekdays[k])
    {
      assert days[k] == h[k];
    }
    forall i | 0 <= i < first
      ensures days[7 + i] == Filler(FillerLabel(prev, first, i))
    {
      assert days[7 + i] == f[i];
    }
    forall d | 1 <= d <= dim
      ensures days[6 + first + d] == DayCellOf(current, today, filter, appts, d)
    {
      assert days[6 + first + d] == c[d - 1];
    }
  }

  /** `renderCalendar`, built cell by cell as the page pushes them. */
  method RenderCalendar(current: LocalDate, today: LocalDate, filter: Option<DayKey>, appts: seq<CalAppt>)
    returns (days: seq<Cell>)
    ensures days == Calendar(current, today, filter, appts)
  {
    var year, month := current.year, current.month;
    var daysInMonth := GetDaysInMonth(year, month);
    var firstDay := GetFirstDayOfMonth(year, month);
    days := PushHeaders();
    days := PushFillers(days, year, month, firstDay);
    days := PushDays(days, current, today, filter, appts, daysInMonth);
  }

  /** `weekdays.forEach(d => days.push(...))`. */
  method PushHeaders() returns (days: seq<Cell>)
    ensures days == Headers()
  {
    ghost var h := Headers();
    days := [];
    for k := 0 to 7
      invariant days == h[..k]
    {
      PushNext([], h, k);
      days := days + [Header(Weekdays[k])];
    }
    assert h[..7] == h;
  }

  /** The loop over the empty cells of the first week. */
  method PushFillers(pre: seq<Cell>, year: int, month: int, firstDay: nat) returns (days: seq<Cell>)
    ensures days == pre + Fillers(GetDaysInMonth(year, month - 1), firstDay)
  {
    ghost var prev := GetDaysInMonth(year, month - 1);
    days := pre;
    for i := 0 to firstDay
      invariant days == pre + Fillers(prev, firstDay)[..i]
    {
      var prevMonthDays := GetDaysInMonth(year, month - 1);
      FillerStep(pre, prevMonthDays, firstDay, i);
      days := days + [Filler(prevMonthDays - firstDay + i + 1)];
    }
    AllFillers(pre, prev, firstDay);
  }

  lemma FillerStep(pre: seq<Cell>, prev: int, first: nat, i: nat)
    requires i < first
    ensures pre + Fillers(prev, first)[..i] + [Filler(prev - first + i + 1)] == pre + Fillers(prev, first)[..i + 1]
  {
    PushNext(pre, Fillers(prev, first), i);
  }

  lemma AllFillers(pre: seq<Cell>, prev: int, first: nat)
    ensures pre + Fillers(prev, first)[..first] == pre + Fillers(prev, first)
  {
    assert Fillers(prev, first)[..first] == Fillers(prev, first);
  }

  /** The loop over days 1 to `daysInMonth`. */
  method PushDays(pre: seq<Cell>, current: LocalDate, today: LocalDate, filter: Option<DayKey>, appts: seq<CalAppt>, daysInMonth: nat)
    returns (days: seq<Cell>)
    ensures days == pre + DayCells(current, today, filter, appts, daysInMonth)
  {
    var year, month := current.year, current.month;
    ghost var c := DayCells(current, today, filter, appts, daysInMonth);
    days := pre;
    var d := 1;
    while d <= daysInMonth
      invariant 1 <= d <= daysInMonth + 1
      invariant days == pre + c[..d - 1]
    {
      var isToday := today == LocalDate(FullYear(year), month, d);
      var isSelected := filter.Some? && filter.value.day == d && filter.value.month == month && filter.value.year == year;
      var hasAppt := exists a :: a in appts && OnDay(a, year, month, d);
      PushNext(pre, c, d - 1);
      days := days + [DayCell(d, isToday, hasAppt, isSelected)];
      d := d + 1;
    }
    assert c[..daysInMonth] == c;
  }

  /** The fillers are the true dates of the days before the 1st: filler `i`
      sits `first - i` days before the 1st, and that day is the previous
      month's day `FillerDay(y, m, i)`; the last filler is that month's last day. */
  lemma FillersArePreviousDays(y: int, m: int, i: int)
    requires 0 <= i < GetFirstDayOfMonth(y, m)
    ensures 1 <= FillerDay(y, m, i) <= GetDaysInMonth(y, m - 1)
    ensures i == GetFirstDayOfMonth(y, m) - 1 ==> FillerDay(y, m, i) == GetDaysInMonth(y, m - 1)
    ensures var prev := MonthStart(FullYear(y), m - 1);
      && ValidLocal(LocalDate(prev.year, prev.month, FillerDay(y, m, i)))
      && MakeDay(y, m, 1) - GetFirstDayOfMonth(y, m) + i == DayNumber(Date(prev.year, prev.month + 1, FillerDay(y, m, i)))
  {
    var prev := MonthStart(FullYear(y), m - 1);
    var last := GetDaysInMonth(y, m - 1);
    var first := GetFirstDayOfMonth(y, m);
    var k := FillerDay(y, m, i);
    assert k == last - first + i + 1;
    DayZero(y, m);
    DaysBack(prev.year, prev.month + 1, last, k);
  }

  /** The day before the 1st of month `m` is the last day of month `m - 1`. */
  lemma DayZero(y: int, m: int)
    ensures var prev := MonthStart(FullYear(y), m - 1);
      MakeDay(y, m, 1) == DayNumber(Date(prev.year, prev.month + 1, GetDaysInMonth(y, m - 1))) + 1
  {
    LastDayOfMonth(y, m - 1);
    assert m - 1 + 1 == m;
  }

  /** Day `k` of a month lies `last - k` days before its day `last`. */
  lemma DaysBack(year: int, month: int, last: int, k: int)
    requires 1 <= month <= 12
    ensures DayNumber(Date(year, month, k)) == DayNumber(Date(year, month, last)) - (last - k)
  {
  }

  /** A day is marked exactly when some appointment, of any status, falls on it. */
  lemma HasApptIffSomeOnDay(current: LocalDate, today: LocalDate, filter: Option<DayKey>, appts: seq<CalAppt>, d: int)
    ensures DayCellOf(current, today, filter, appts, d).hasAppt
        <==> |Filter(appts, (a: CalAppt) => OnDay(a, current.year, current.month, d))| > 0
  {
    var p := (a: CalAppt) => OnDay(a, current.year, current.month, d);
    var f := Filter(appts, p);
    if HasAppt(current, appts, d) {
      var a :| a in appts && OnDay(a, current.year, current.month, d);
      assert p(a) && a in f;
    }
    if |f| > 0 {
      assert f[0] in f;
      assert f[0] in appts && p(f[0]);
    }
  }

  // ---- the page state ------------------------------------------------------

  /** The day detail dialog: the clicked day and its appointments. */
  datatype DayDetail = DayDetail(day: int, appts: seq<CalAppt>)

  /** The appointments of the clicked day on the shown month. */
  function AppointmentsOn(appts: seq<CalAppt>, year: int, month: int, day: int): (r: seq<CalAppt>)
    ensures forall a :: a in r <==> a in appts && OnDay(a, year, month, day)
    ensures IsSubsequence(r, appts)
  {
    FilterIsSubsequence(appts, (a: CalAppt) => OnDay(a, year, month, day));
    Filter(appts, (a: CalAppt) => OnDay(a, year, month, day))
  }

  /** The operations list: the filtered day's appointments when a filter
      is set, otherwise the first six. */
  function FilteredOperations(filter: Option<DayKey>, appts: seq<CalAppt>): (r: seq<CalAppt>)
    ensures filter.Some? ==>
      forall a :: a in r <==> a in appts && OnDay(a, filter.value.year, filter.value.month, filter.value.day)
    ensures filter.Some? ==>
      IsSubsequence(r, appts) && r == AppointmentsOn(appts, filter.value.year, filter.value.month, filter.value.day)
    ensures filter.None? ==> r == appts[..if |appts| < 6 then |appts| else 6]
  {
    match filter
    case Some(f) => AppointmentsOn(appts, f.year, f.month, f.day)
    case None => Take(appts, 6)
  }

  /** The `date` query parameter written for a filter: the year, then the
      1-based month and the day padded to two digits. */
  function DateParam(f: DayKey): string
  {
    IntToString(f.year) + "-" + PadStart(NatToString(Nat(f.month + 1)), 2, '0') + "-" + PadStart(NatToString(Nat(f.day)), 2, '0')
  }

  function Nat(x: int): nat { if x < 0 then 0 else x }

  /** A one- or two-digit natural, padded to two digits, reads back as itself. */
  lemma TwoDigits(n: nat)
    requires n <= 99
    ensures var s := PadStart(NatToString(n), 2, '0');
      |s| == 2 && AllDigits(s) && DecimalValue(s) == n
  {
    var s := PadStart(NatToString(n), 2, '0');
    DecimalRoundTrip(n);
    if n < 10 {
      assert NatToString(n) == [DigitChar(n)];
      assert s == ['0', DigitChar(n)];
      assert s[..1] == ['0'];
      assert DecimalValue(s[..1]) == 0;
    } else {
      assert NatToString(n) == NatToString(n / 10) + [DigitChar(n % 10)];
      assert s == NatToString(n);
    }
  }

  /** For a valid date of a four-digit year the parameter is `YYYY-MM-DD`,
      and its fields read back as the year, the 1-based month and the day. */
  lemma DateParamFields(f: DayKey)
    requires ValidLocal(LocalDate(f.year, f.month, f.day)) && 1000 <= f.year <= 9999
    ensures var s := DateParam(f);
      && |s| == 10 && s[4] == '-' && s[7] == '-'
      && AllDigits(s[..4]) && DecimalValue(s[..4]) == f.year
      && AllDigits(s[5..7]) && DecimalValue(s[5..7]) == f.month + 1
      && AllDigits(s[8..]) && DecimalValue(s[8..]) == f.day
  {
    FourDigits(f.year);
    TwoDigits(f.month + 1);
    TwoDigits(f.day);
    Fields(IntToString(f.year), PadStart(NatToString(f.month + 1), 2, '0'), PadStart(NatToString(f.day), 2, '0'));
  }

  /** A four-digit year is written with four digits that read back as it. */
  lemma FourDigits(n: nat)
    requires 1000 <= n <= 9999
    ensures var s := IntToString(n);
      |s| == 4 && AllDigits(s) && DecimalValue(s) == n
  {
    DecimalRoundTrip(n);
    assert NatToString(n) == NatToString(n / 10) + [DigitChar(n % 10)];
    assert NatToString(n / 10) == NatToString(n / 100) + [DigitChar(n / 10 % 10)];
    assert NatToString(n / 100) == NatToString(n / 1000) + [DigitChar(n / 100 % 10)];
  }

  /** The positions of the three fields of `YYYY-MM-DD`. */
  lemma Fields(y: string, mm: string, dd: string)
    requires |y| == 4 && |mm| == 2 && |dd| == 2
    ensures var s := y + "-" + mm + "-" + dd;
      && |s| == 10 && s[4] == '-' && s[7] == '-'
      && s[..4] == y && s[5..7] == mm && s[8..] == dd
  {
    var s := y + "-" + mm + "-" + dd;
    assert s[..4] == y;
    assert s[5..7] == mm;
    assert s[8..] == dd;
  }

  /** The `date` parameter kept in sync with the filter: the filter's
      `YYYY-MM-DD`, or no parameter once the filter is cleared. */
  function UrlDate(filter: Option<DayKey>): (r: Option<string>)
    ensures r.None? <==> filter.None?
    ensures filter.Some? ==> r == Some(DateParam(filter.value))
  {
    match filter
    case Some(f) => Some(DateParam(f))
    case None => None
  }

  function DayKeyOf(l: LocalDate): DayKey
  {
    DayKey(l.day, l.month, l.year)
  }

  class DashboardPage {
    var currentDate: LocalDate
    var selectedDateFilter: Option<DayKey>
    var selectedDayAppts: Option<DayDetail>
    var recentAppts: seq<CalAppt>

    /** `currentDate` is always a real date. */
    predicate Valid()
      reads this
    {
      ValidLocal(currentDate)
    }

    /** The page as it opens on `start`, the date read from the `date`
        parameter or today: the day filter is set to that day. */
    constructor (start: LocalDate, appts: seq<CalAppt>)
      requires ValidLocal(start)
      ensures Valid()
      ensures currentDate == start && recentAppts == appts
      ensures selectedDateFilter == Some(DayKeyOf(start)) && selectedDayAppts == None
    {
      currentDate := start;
      recentAppts := appts;
      selectedDateFilter := Some(DayKey(start.day, start.month, start.year));
      selectedDayAppts := None;
    }

    function Operations(): (r: seq<CalAppt>)
      reads this
      ensures r == FilteredOperations(selectedDateFilter, recentAppts)
    {
      FilteredOperations(selectedDateFilter, recentAppts)
    }

    /** `handleDayClick(day)`: the filter always moves to the day; the
        detail opens only when the day has appointments, listing them. */
    method HandleDayClick(day: int)
      modifies this`selectedDateFilter, this`selectedDayAppts
      ensures selectedDateFilter == Some(DayKey(day, currentDate.month, currentDate.year))
      ensures var appts := AppointmentsOn(recentAppts, currentDate.year, currentDate.month, day);
        selectedDayAppts == if |appts| > 0 then Some(DayDetail(day, appts)) else old(selectedDayAppts)
    {
      var year, month := currentDate.year, currentDate.month;
      selectedDateFilter := Some(DayKey(day, month, year));
      var appts := AppointmentsOn(recentAppts, year, month, day);
      if |appts| > 0 {
        selectedDayAppts := Some(DayDetail(day, appts));
      }
    }

    /** `changeMonth(offset)`: the 1st of the month `offset` months away. */
    method ChangeMonth(offset: int)
      requires Valid()
      modifies this`currentDate
      ensures Valid()
      ensures currentDate == MonthStart(FullYear(old(currentDate).year), old(currentDate).month + offset)
    {
      currentDate := MonthAway(currentDate, offset);
    }

    /** The "clear filter" button. */
    method ClearFilter()
      modifies this`selectedDateFilter
      ensures selectedDateFilter == None
    {
      selectedDateFilter := None;
    }

    /** Closing the day detail. */
    method CloseDayDetail()
      modifies this`selectedDayAppts
      ensures selectedDayAppts == None
    {
      selectedDayAppts := None;
    }
  }

  /** Stepping a month forward and back returns to the 1st of the shown
      month (of the full year), unless the step lands in a year 0..99,
      which the way back reads as a year of the 1900s. */
  lemma ChangeMonthBackAndForth(l: LocalDate, offset: int)
    requires ValidLocal(l)
    ensures var there := MonthAway(l, offset);
      !(0 <= there.year <= 99) ==> MonthAway(there, -offset) == LocalDate(FullYear(l.year), l.month, 1)
  {
    var y := FullYear(l.year);
    var there := MonthStart(y, l.month + offset);
    var t := l.month + offset;
    assert t == 12 * (t / 12) + t % 12;
    var u := there.month - offset;
    assert 12 * there.year + there.month == 12 * y + l.month + offset;
    assert 12 * (there.year + u / 12) + u % 12 == 12 * y + l.month;
    assert u / 12 == y - there.year && u % 12 == l.month by {
      var q := u / 12;
      var r := u % 12;
      assert 0 <= r < 12 && 0 <= l.month < 12;
      assert 12 * (there.year + q - y) == l.month - r;
    }
  }
}
