/** When a lease falls due, and the period key written on its invoice (app/billing/services.py, the biller). */
module PeriodKeys {
  import opened Calendar

  // OtherCycle stands for any text outside the three known cycles.
  datatype Cycle = Monthly | Weekly | OneTime | OtherCycle

  function Digit(n: int): char {
    ('0' as int + n % 10) as char
  }

  // The two- and four-digit forms with leading zeros.
  function Pad2(n: int): (s: string)
    ensures |s| == 2
  {
    [Digit(n / 10), Digit(n)]
  }

  function Pad4(n: int): (s: string)
    ensures |s| == 4
  {
    [Digit(n / 1000), Digit(n / 100), Digit(n / 10), Digit(n)]
  }

  predicate Due(cycle: Cycle, today: Date) {
    match cycle
    case Monthly => today.day == 1
    case Weekly => Weekday(today) == 0
    case OneTime => true
    case OtherCycle => false
  }

  function PeriodKey(cycle: Cycle, today: Date): string
    requires cycle != OtherCycle
  {
    match cycle
    case Monthly => Pad4(today.year) + "-" + Pad2(today.month)
    case Weekly =>
      var iso := IsoCalendar(today);
      Pad4(iso.year) + "-W" + Pad2(iso.week)
    case OneTime => "one_time"
  }

  // The due days, and that Mondays are the weekday the calendar numbers 1.
  lemma DueDays(cycle: Cycle, today: Date)
    ensures Due(cycle, today) <==>
      && cycle != OtherCycle
      && (cycle == Monthly ==> today.day == 1)
      && (cycle == Weekly ==> (Ordinal(today) - 1) % 7 == 0)
    ensures ValidDate(today) ==> (cycle == Weekly ==> (Due(cycle, today) <==> IsoCalendar(today).weekday == 1))
  {
    if ValidDate(today) {
      IsoCalendarLocates(today);
    }
  }

  lemma DigitInjective(m: int, n: int)
    ensures Digit(m) == Digit(n) <==> m % 10 == n % 10
  {
  }

  lemma Pad2Injective(m: int, n: int)
    requires 0 <= m < 100 && 0 <= n < 100
    ensures Pad2(m) == Pad2(n) ==> m == n
  {
    if Pad2(m) == Pad2(n) {
      assert Pad2(m)[0] == Pad2(n)[0] && Pad2(m)[1] == Pad2(n)[1];
      DigitInjective(m, n);
      DigitInjective(m / 10, n / 10);
    }
  }

  lemma Pad4Injective(m: int, n: int)
    requires 0 <= m < 10000 && 0 <= n < 10000
    ensures Pad4(m) == Pad4(n) ==> m == n
  {
    if Pad4(m) == Pad4(n) {
      assert forall i :: 0 <= i < 4 ==> Pad4(m)[i] == Pad4(n)[i];
      assert Digit(m / 1000) == Pad4(m)[0] && Digit(m / 100) == Pad4(m)[1] && Digit(m / 10) == Pad4(m)[2];
      assert Digit(n / 1000) == Pad4(n)[0] && Digit(n / 100) == Pad4(n)[1] && Digit(n / 10) == Pad4(n)[2];
      assert Digit(m) == Pad4(m)[3] && Digit(n) == Pad4(n)[3];
      DigitInjective(m, n);
      DigitInjective(m / 10, n / 10);
      DigitInjective(m / 100, n / 100);
      DigitInjective(m / 1000, n / 1000);
      FourDigits(m);
      FourDigits(n);
    }
  }

  lemma FourDigits(n: int)
    requires 0 <= n < 10000
    ensures n == n / 1000 % 10 * 1000 + n / 100 % 10 * 100 + n / 10 % 10 * 10 + n % 10
  {
    assert n / 100 == n / 10 / 10 && n / 1000 == n / 100 / 10;
  }

  // Keys of different cycles never collide, whatever the dates.
  lemma CyclesNeverCollide(c: Cycle, d: Cycle, today: Date, day: Date)
    requires c != d && c != OtherCycle && d != OtherCycle
    ensures PeriodKey(c, today) != PeriodKey(d, day)
  {
    CycleShape(c, today);
    CycleShape(d, day);
  }

  lemma CycleShape(c: Cycle, today: Date)
    requires c != OtherCycle
    ensures var key := PeriodKey(c, today);
      match c
      case Monthly => |key| == 7
      case Weekly => |key| == 8 && key[4] == '-'
      case OneTime => |key| == 8 && key[4] == 't'
      case _ => true
  {
    if c == Weekly {
      var iso := IsoCalendar(today);
      assert (Pad4(iso.year) + "-W" + Pad2(iso.week))[4] == "-W"[0];
    }
  }

  lemma IsoWeekRange(d: Date)
    requires ValidDate(d)
    ensures 1 <= IsoCalendar(d).week <= 53
  {
    IsoWeekByThursday(d);
    NextYear(IsoCalendar(d).year);
  }

  // Two due dates of one cycle share a key exactly when they are the same date.
  lemma KeysAreFaithful(c: Cycle, d: Date, e: Date)
    requires ValidDate(d) && ValidDate(e) && (c == Monthly || c == Weekly)
    requires Due(c, d) && Due(c, e)
    ensures PeriodKey(c, d) == PeriodKey(c, e) <==> d == e
  {
    if PeriodKey(c, d) == PeriodKey(c, e) {
      if c == Monthly {
        MonthKeyParts(d);
        MonthKeyParts(e);
        Pad4Injective(d.year, e.year);
        Pad2Injective(d.month, e.month);
      } else {
        WeekKeyParts(d);
        WeekKeyParts(e);
        WeekInjective(d, e);
      }
    }
  }

  lemma MonthKeyParts(d: Date)
    ensures PeriodKey(Monthly, d)[..4] == Pad4(d.year) && PeriodKey(Monthly, d)[5..] == Pad2(d.month)
  {
  }

  lemma WeekKeyParts(d: Date)
    ensures PeriodKey(Weekly, d)[..4] == Pad4(IsoCalendar(d).year)
    ensures PeriodKey(Weekly, d)[6..] == Pad2(IsoCalendar(d).week)
  {
  }

  lemma WeekInjective(d: Date, e: Date)
    requires ValidDate(d) && ValidDate(e) && Weekday(d) == Weekday(e)
    requires Pad4(IsoCalendar(d).year) == Pad4(IsoCalendar(e).year)
    requires Pad2(IsoCalendar(d).week) == Pad2(IsoCalendar(e).week)
    ensures d == e
  {
    IsoYearRange(d);
    IsoYearRange(e);
    IsoWeekRange(d);
    IsoWeekRange(e);
    Pad4Injective(IsoCalendar(d).year, IsoCalendar(e).year);
    Pad2Injective(IsoCalendar(d).week, IsoCalendar(e).week);
    IsoCalendarLocates(d);
    IsoCalendarLocates(e);
    OrdinalOrder(d, e);
    OrdinalOrder(e, d);
  }

  // How keys are written, at a turn of the year that the ISO calendar puts into week 1 of the next.
  lemma KeysAsWritten()
    ensures PeriodKey(Monthly, Date(2024, 12, 1)) == "2024-12"
    ensures PeriodKey(Weekly, Date(2024, 12, 30)) == "2025-W01"
    ensures PeriodKey(OneTime, Date(2024, 12, 30)) == "one_time"
  {
    TurnOfTheYear();
    Padded();
  }

  lemma Padded()
    ensures Pad4(2024) == "2024" && Pad4(2025) == "2025" && Pad2(12) == "12" && Pad2(1) == "01"
  {
  }

  lemma LastMonday()
    ensures Ordinal(Date(2024, 12, 30)) == 739250
  {
    DaysBeforeYearClosed(2024);
    TwelveMonths(2024);
  }

  lemma FirstMondays()
    ensures IsoWeek1Monday(2023) == 738522 && IsoWeek1Monday(2024) == 738886 && IsoWeek1Monday(2025) == 739250
  {
    DaysBeforeYearClosed(2023);
    DaysBeforeYearClosed(2024);
    DaysBeforeYearClosed(2025);
  }

  lemma TurnOfTheYear()
    ensures IsoCalendar(Date(2024, 12, 30)) == IsoDate(2025, 1, 1)
  {
    LastMonday();
    FirstMondays();
  }
}
