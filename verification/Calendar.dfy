/**
  The proleptic Gregorian calendar of Python's date type (years 1 to 9999), its ordinals, and the ISO week calendar of
  section 4.1.4 of ISO 8601:2004.
 */
module Calendar {
  datatype Date = Date(year: int, month: int, day: int)

  predicate Leap(y: int) {
    y % 4 == 0 && (y % 100 != 0 || y % 400 == 0)
  }

  function DaysInMonth(y: int, m: int): int {
    if m == 2 then (if Leap(y) then 29 else 28)
    else if m == 4 || m == 6 || m == 9 || m == 11 then 30
    else 31
  }

  ghost predicate ValidDate(d: Date) {
    1 <= d.year <= 9999 && 1 <= d.month <= 12 && 1 <= d.day <= DaysInMonth(d.year, d.month)
  }

  function YearLength(y: int): int {
    if Leap(y) then 366 else 365
  }

  // Days before the first of January of year y, counted from the first of January of year 1.
  function DaysBeforeYear(y: int): int
    decreases if y > 1 then y - 1 else 1 - y
  {
    if y == 1 then 0
    else if y > 1 then DaysBeforeYear(y - 1) + YearLength(y - 1)
    else DaysBeforeYear(y + 1) - YearLength(y)
  }

  function DaysBeforeMonth(y: int, m: int): int
    decreases m
  {
    if m <= 1 then 0 else DaysBeforeMonth(y, m - 1) + DaysInMonth(y, m - 1)
  }

  function Ordinal(d: Date): int {
    DaysBeforeYear(d.year) + DaysBeforeMonth(d.year, d.month) + d.day
  }

  // Monday is 0.
  function Weekday(d: Date): int {
    (Ordinal(d) + 6) % 7
  }

  lemma NextYear(y: int)
    ensures DaysBeforeYear(y + 1) == DaysBeforeYear(y) + YearLength(y)
  {
  }

  // The closed form.
  lemma {:induction false} DaysBeforeYearClosed(y: int)
    requires y >= 1
    ensures DaysBeforeYear(y) == (y - 1) * 365 + (y - 1) / 4 - (y - 1) / 100 + (y - 1) / 400
  {
    if y > 1 {
      DaysBeforeYearClosed(y - 1);
      QuotientSteps(y - 1);
    }
  }

  lemma SameQuotient4(q: int, r: int, d: int, m: int)
    requires 4 * q + r == 4 * d + m && 0 <= r < 4 && 0 <= m < 4
    ensures q == d && r == m
  {
  }

  lemma QuotientStep4(p: int)
    ensures p / 4 - (p - 1) / 4 == if p % 4 == 0 then 1 else 0
  {
    var d, m := p / 4, p % 4;
    SameQuotient4(if m == 0 then d - 1 else d, if m == 0 then 3 else m - 1, (p - 1) / 4, (p - 1) % 4);
  }

  lemma SameQuotient100(q: int, r: int, d: int, m: int)
    requires 100 * q + r == 100 * d + m && 0 <= r < 100 && 0 <= m < 100
    ensures q == d && r == m
  {
  }

  lemma QuotientStep100(p: int)
    ensures p / 100 - (p - 1) / 100 == if p % 100 == 0 then 1 else 0
    ensures p % 100 == 0 ==> p % 4 == 0
  {
    var d, m := p / 100, p % 100;
    SameQuotient100(if m == 0 then d - 1 else d, if m == 0 then 99 else m - 1, (p - 1) / 100, (p - 1) % 100);
    if m == 0 {
      SameQuotient4(25 * d, 0, p / 4, p % 4);
    }
  }

  lemma SameQuotient400(q: int, r: int, d: int, m: int)
    requires 400 * q + r == 400 * d + m && 0 <= r < 400 && 0 <= m < 400
    ensures q == d && r == m
  {
  }

  lemma QuotientStep400(p: int)
    ensures p / 400 - (p - 1) / 400 == if p % 400 == 0 then 1 else 0
    ensures p % 400 == 0 ==> p % 100 == 0
  {
    var d, m := p / 400, p % 400;
    SameQuotient400(if m == 0 then d - 1 else d, if m == 0 then 399 else m - 1, (p - 1) / 400, (p - 1) % 400);
    if m == 0 {
      SameQuotient100(4 * d, 0, p / 100, p % 100);
    }
  }

  lemma QuotientSteps(p: int)
    ensures p / 4 - p / 100 + p / 400
         == (p - 1) / 4 - (p - 1) / 100 + (p - 1) / 400 + if Leap(p) then 1 else 0
  {
    QuotientStep4(p);
    QuotientStep100(p);
    QuotientStep400(p);
  }

  lemma {:induction false} YearsGrow(y: int, z: int)
    requires y < z
    ensures DaysBeforeYear(y) + YearLength(y) <= DaysBeforeYear(z)
    decreases z - y
  {
    NextYear(y);
    if y + 1 < z {
      YearsGrow(y + 1, z);
    }
  }

  lemma {:induction false} MonthsGrow(y: int, m: int, n: int)
    requires 1 <= m < n
    ensures DaysBeforeMonth(y, m) + DaysInMonth(y, m) <= DaysBeforeMonth(y, n)
    decreases n
  {
    if m < n - 1 {
      MonthsGrow(y, m, n - 1);
    }
  }

  lemma DayOfYearBounds(d: Date)
    requires ValidDate(d)
    ensures DaysBeforeYear(d.year) < Ordinal(d) <= DaysBeforeYear(d.year) + YearLength(d.year)
  {
    if d.month < 12 {
      MonthsGrow(d.year, d.month, 12);
    }
    if d.month > 1 {
      MonthsGrow(d.year, 1, d.month);
    }
    TwelveMonths(d.year);
  }

  lemma TwelveMonths(y: int)
    ensures DaysBeforeMonth(y, 12) + 31 == YearLength(y)
  {
    assert DaysBeforeMonth(y, 4) == DaysBeforeMonth(y, 3) + 31 == DaysBeforeMonth(y, 2) + DaysInMonth(y, 2) + 31;
    assert DaysBeforeMonth(y, 8) == DaysBeforeMonth(y, 6) + 61 == DaysBeforeMonth(y, 4) + 122;
    assert DaysBeforeMonth(y, 12) == DaysBeforeMonth(y, 10) + 61 == DaysBeforeMonth(y, 8) + 122;
  }

  // The days before each month, in a common year and, from March on, in a leap year.
  lemma MonthTable(y: int)
    ensures DaysBeforeMonth(y, 1) == 0 && DaysBeforeMonth(y, 2) == 31
    ensures var leap := if Leap(y) then 1 else 0;
      && DaysBeforeMonth(y, 3) == 59 + leap && DaysBeforeMonth(y, 4) == 90 + leap && DaysBeforeMonth(y, 5) == 120 + leap
      && DaysBeforeMonth(y, 6) == 151 + leap && DaysBeforeMonth(y, 7) == 181 + leap && DaysBeforeMonth(y, 8) == 212 + leap
      && DaysBeforeMonth(y, 9) == 243 + leap && DaysBeforeMonth(y, 10) == 273 + leap
      && DaysBeforeMonth(y, 11) == 304 + leap && DaysBeforeMonth(y, 12) == 334 + leap
  {
    assert DaysBeforeMonth(y, 3) == DaysBeforeMonth(y, 2) + DaysInMonth(y, 2);
    assert DaysBeforeMonth(y, 5) == DaysBeforeMonth(y, 4) + 30;
    assert DaysBeforeMonth(y, 7) == DaysBeforeMonth(y, 6) + 30;
    assert DaysBeforeMonth(y, 9) == DaysBeforeMonth(y, 8) + 31;
    assert DaysBeforeMonth(y, 11) == DaysBeforeMonth(y, 10) + 31;
  }

  predicate Before(d: Date, e: Date) {
    d.year < e.year || (d.year == e.year && (d.month < e.month || (d.month == e.month && d.day < e.day)))
  }

  // Ordinals order dates as the calendar does; in particular they are injective.
  lemma OrdinalOrder(d: Date, e: Date)
    requires ValidDate(d) && ValidDate(e)
    ensures Before(d, e) <==> Ordinal(d) < Ordinal(e)
  {
    OrdinalGrows(d, e);
    OrdinalGrows(e, d);
  }

  lemma OrdinalGrows(d: Date, e: Date)
    requires ValidDate(d) && ValidDate(e)
    ensures Before(d, e) ==> Ordinal(d) < Ordinal(e)
  {
    if d.year < e.year {
      DayOfYearBounds(d);
      DayOfYearBounds(e);
      YearsGrow(d.year, e.year);
    } else if d.year == e.year && d.month < e.month {
      MonthsGrow(d.year, d.month, e.month);
    }
  }

  // The Monday of the week of a year's first day, or the next one when that week has its Thursday in the year before.
  function MondayNear(firstDay: int): (monday: int)
    ensures firstDay - 3 <= monday <= firstDay + 3 && (monday + 6) % 7 == 0
  {
    var firstWeekday := (firstDay + 6) % 7;
    if firstWeekday > 3 then firstDay - firstWeekday + 7 else firstDay - firstWeekday
  }

  // The ordinal of the Monday that starts week 1 of ISO year y.
  function IsoWeek1Monday(y: int): int {
    MondayNear(DaysBeforeYear(y) + 1)
  }

  datatype IsoDate = IsoDate(year: int, week: int, weekday: int)

  // date.isocalendar(), given the first Mondays of the ISO years before, of and after the calendar year.
  function LocateWeek(year: int, today: int, previous: int, current: int, next: int): IsoDate {
    var offset := today - current;
    if offset < 0 then IsoDate(year - 1, (today - previous) / 7 + 1, (today - previous) % 7 + 1)
    else if offset / 7 >= 52 && today >= next then IsoDate(year + 1, 1, offset % 7 + 1)
    else IsoDate(year, offset / 7 + 1, offset % 7 + 1)
  }

  function IsoCalendar(d: Date): IsoDate {
    LocateWeek(d.year, Ordinal(d),
               IsoWeek1Monday(d.year - 1), IsoWeek1Monday(d.year), IsoWeek1Monday(d.year + 1))
  }

  lemma WeekdayFromMonday(today: int, monday: int)
    requires (monday + 6) % 7 == 0
    ensures (today - monday) % 7 == (today + 6) % 7
    ensures today == monday + 7 * ((today - monday) / 7) + (today - monday) % 7
  {
    var offset := today - monday;
    assert today + 6 == 7 * ((monday + 6) / 7 + offset / 7) + offset % 7;
  }

  lemma LocateWeekCorrect(year: int, today: int, previous: int, current: int, next: int)
    requires (previous + 6) % 7 == 0 && (current + 6) % 7 == 0 && (next + 6) % 7 == 0
    requires today < next + 7
    ensures var iso := LocateWeek(year, today, previous, current, next);
      && year - 1 <= iso.year <= year + 1
      && iso.weekday == (today + 6) % 7 + 1
      && today == 7 * (iso.week - 1) + (iso.weekday - 1)
           + if iso.year == year - 1 then previous else if iso.year == year then current else next
  {
    WeekdayFromMonday(today, previous);
    WeekdayFromMonday(today, current);
    WeekdayFromMonday(today, next);
  }

  lemma LocateWeekYear(year: int, today: int, previous: int, current: int, next: int)
    ensures var iso := LocateWeek(year, today, previous, current, next);
      && year - 1 <= iso.year <= year + 1
      && (current <= today ==> year <= iso.year)
      && (today < next ==> iso.year <= year)
  {
  }

  // The Monday of the ISO week, and weekdays counted from it, locate the date.
  lemma IsoCalendarLocates(d: Date)
    requires ValidDate(d)
    ensures var iso := IsoCalendar(d);
      && d.year - 1 <= iso.year <= d.year + 1
      && Ordinal(d) == IsoWeek1Monday(iso.year) + 7 * (iso.week - 1) + (iso.weekday - 1)
      && iso.weekday == Weekday(d) + 1
  {
    DayOfYearBounds(d);
    NextYear(d.year);
    LocateWeekCorrect(d.year, Ordinal(d),
                      IsoWeek1Monday(d.year - 1), IsoWeek1Monday(d.year), IsoWeek1Monday(d.year + 1));
  }

  // starts: the days before the calendar years year - 1, year, year + 1 and year + 2.
  lemma WeekOfThursday(year: int, today: int, previous: int, current: int, next: int, starts: (int, int, int, int))
    requires (previous + 6) % 7 == 0 && (current + 6) % 7 == 0 && (next + 6) % 7 == 0
    requires 365 <= starts.1 - starts.0 <= 366 && 365 <= starts.2 - starts.1 <= 366 && 365 <= starts.3 - starts.2 <= 366
    requires starts.0 - 2 <= previous <= starts.0 + 4 && starts.1 - 2 <= current <= starts.1 + 4
    requires starts.2 - 2 <= next <= starts.2 + 4
    requires starts.1 < today <= starts.2
    ensures var iso := LocateWeek(year, today, previous, current, next);
      var thursday := today - (today + 6) % 7 + 3;
      && (iso.year == year - 1 ==> starts.0 < thursday <= starts.1 && iso.week == (thursday - starts.0 - 1) / 7 + 1)
      && (iso.year == year ==> starts.1 < thursday <= starts.2 && iso.week == (thursday - starts.1 - 1) / 7 + 1)
      && (iso.year == year + 1 ==> starts.2 < thursday <= starts.3 && iso.week == (thursday - starts.2 - 1) / 7 + 1)
  {
    LocateWeekCorrect(year, today, previous, current, next);
    WeekdayFromMonday(today, next);
  }

  lemma YearBounds(y: int)
    ensures 365 <= DaysBeforeYear(y + 1) - DaysBeforeYear(y) <= 366
    ensures DaysBeforeYear(y) - 2 <= IsoWeek1Monday(y) <= DaysBeforeYear(y) + 4 && (IsoWeek1Monday(y) + 6) % 7 == 0
  {
    NextYear(y);
  }

  // The rule of the standard: a week belongs to the year that holds its Thursday, and is numbered by that Thursday.
  ghost predicate ByThursday(year: int, week: int, thursday: int) {
    && DaysBeforeYear(year) < thursday <= DaysBeforeYear(year + 1)
    && week == (thursday - DaysBeforeYear(year) - 1) / 7 + 1
  }

  lemma ByThursdayFromStarts(y: int, iso: IsoDate, thursday: int, starts: (int, int, int, int))
    requires DaysBeforeYear(y - 1) == starts.0 && DaysBeforeYear(y) == starts.1
    requires DaysBeforeYear(y + 1) == starts.2 && DaysBeforeYear(y + 2) == starts.3
    requires y - 1 <= iso.year <= y + 1
    requires iso.year == y - 1 ==> starts.0 < thursday <= starts.1 && iso.week == (thursday - starts.0 - 1) / 7 + 1
    requires iso.year == y ==> starts.1 < thursday <= starts.2 && iso.week == (thursday - starts.1 - 1) / 7 + 1
    requires iso.year == y + 1 ==> starts.2 < thursday <= starts.3 && iso.week == (thursday - starts.2 - 1) / 7 + 1
    ensures ByThursday(iso.year, iso.week, thursday)
  {
  }

  lemma LocateWeekByThursday(y: int, today: int)
    requires DaysBeforeYear(y) < today <= DaysBeforeYear(y + 1)
    ensures var iso := LocateWeek(y, today, IsoWeek1Monday(y - 1), IsoWeek1Monday(y), IsoWeek1Monday(y + 1));
      ByThursday(iso.year, iso.week, today - (today + 6) % 7 + 3)
  {
    var m0, m1, m2 := IsoWeek1Monday(y - 1), IsoWeek1Monday(y), IsoWeek1Monday(y + 1);
    var starts := (DaysBeforeYear(y - 1), DaysBeforeYear(y), DaysBeforeYear(y + 1), DaysBeforeYear(y + 2));
    YearBounds(y - 1);
    YearBounds(y);
    YearBounds(y + 1);
    LocateWeekYear(y, today, m0, m1, m2);
    WeekOfThursday(y, today, m0, m1, m2, starts);
    ByThursdayFromStarts(y, LocateWeek(y, today, m0, m1, m2), today - (today + 6) % 7 + 3, starts);
  }

  lemma IsoWeekByThursday(d: Date)
    requires ValidDate(d)
    ensures ByThursday(IsoCalendar(d).year, IsoCalendar(d).week, Ordinal(d) - Weekday(d) + 3)
  {
    DayOfYearBounds(d);
    NextYear(d.year);
    LocateWeekByThursday(d.year, Ordinal(d));
  }

  lemma EdgeYears()
    ensures IsoWeek1Monday(1) == 1
    ensures DaysBeforeYear(10000) == 3652059 && IsoWeek1Monday(10000) == 3652062
  {
    DaysBeforeYearClosed(10000);
  }

  lemma IsoYearRange(d: Date)
    requires ValidDate(d)
    ensures 1 <= IsoCalendar(d).year <= 9999
  {
    var y := d.year;
    LocateWeekYear(y, Ordinal(d), IsoWeek1Monday(y - 1), IsoWeek1Monday(y), IsoWeek1Monday(y + 1));
    if y == 1 || y == 9999 {
      EdgeYears();
      DayOfYearBounds(d);
      NextYear(y);
    }
  }
}
