/** Calendar days: months counted from year 0, month lengths of the Gregorian
    calendar, and month arithmetic that clamps the day to the month's length. */
module Calendar {

  predicate IsLeap(year: int) {
    year % 4 == 0 && (year % 100 != 0 || year % 400 == 0)
  }

  /** The length of month `month`, counted from January of year 0. */
  function DaysInMonth(month: int): (n: int)
    ensures 28 <= n <= 31
  {
    var m := month % 12;
    if m == 1 then (if IsLeap(month / 12) then 29 else 28)
    else if m == 3 || m == 5 || m == 8 || m == 10 then 30
    else 31
  }

  /** The day number of the first of a month. */
  function MonthStart(month: int): int
    decreases if month < 0 then -month else month
  {
    if month == 0 then 0
    else if month > 0 then MonthStart(month - 1) + DaysInMonth(month - 1)
    else MonthStart(month + 1) - DaysInMonth(month)
  }

  /** The days of a year before its m-th month, the leap day included. */
  function DaysBefore(m: nat, leapDay: int): int
    requires m <= 12
  {
    [0, 31, 59, 90, 120, 151, 181, 212, 243, 273, 304, 334, 365][m] + (if m > 1 then leapDay else 0)
  }

  /** Years since year 0 that divide into four, but not into a hundred unless into
      four hundred. */
  function LeapYearsBefore(year: int): int {
    (year + 3) / 4 - (year + 99) / 100 + (year + 399) / 400
  }

  lemma OneMoreYear(year: int)
    ensures LeapYearsBefore(year + 1) == LeapYearsBefore(year) + (if IsLeap(year) then 1 else 0)
  {
    assert (year + 4) / 4 - (year + 3) / 4 == if year % 4 == 0 then 1 else 0;
    assert (year + 100) / 100 - (year + 99) / 100 == if year % 100 == 0 then 1 else 0;
    assert (year + 400) / 400 - (year + 399) / 400 == if year % 400 == 0 then 1 else 0;
  }

  lemma NextMonthStart(month: int)
    ensures MonthStart(month + 1) == MonthStart(month) + DaysInMonth(month)
  {
  }

  lemma MonthOfYear(year: int, m: int)
    requires 0 <= m < 12
    ensures (12 * year + m) % 12 == m && (12 * year + m) / 12 == year
  {
  }

  lemma {:induction false} MonthsStart(year: int, m: nat)
    requires m <= 12
    ensures MonthStart(12 * year + m) == MonthStart(12 * year) + DaysBefore(m, if IsLeap(year) then 1 else 0)
  {
    if m > 0 {
      MonthsStart(year, m - 1);
      MonthOfYear(year, m - 1);
      NextMonthStart(12 * year + m - 1);
    }
  }

  /** A year has 365 days, and a leap year 366. */
  lemma YearLength(year: int)
    ensures MonthStart(12 * (year + 1)) == MonthStart(12 * year) + (if IsLeap(year) then 366 else 365)
  {
    MonthsStart(year, 12);
    assert 12 * year + 12 == 12 * (year + 1);
  }

  /** January of a year begins 365 days a year, and a day for each leap year, after
      January of year 0. */
  lemma {:induction false} YearStart(year: int)
    ensures MonthStart(12 * year) == 365 * year + LeapYearsBefore(year)
    decreases if year < 0 then -year else year
  {
    if year > 0 {
      YearStart(year - 1);
      YearLength(year - 1);
      OneMoreYear(year - 1);
    } else if year < 0 {
      YearStart(year + 1);
      YearLength(year);
      OneMoreYear(year);
    }
  }

  datatype CivilDate = CivilDate(month: int, day: int)

  type Date = d: CivilDate | 1 <= d.day <= DaysInMonth(d.month) witness CivilDate(0, 1)

  function ToDay(d: CivilDate): int { MonthStart(d.month) + d.day - 1 }

  predicate Before(a: CivilDate, b: CivilDate) {
    a.month < b.month || (a.month == b.month && a.day < b.day)
  }

  lemma {:induction false} MonthStartsApart(a: int, b: int)
    requires a < b
    ensures MonthStart(a) + DaysInMonth(a) <= MonthStart(b)
    ensures MonthStart(b) >= MonthStart(a) + 28 * (b - a)
    decreases b - a
  {
    NextMonthStart(b - 1);
    if a < b - 1 { MonthStartsApart(a, b - 1); }
  }

  /** Calendar order is the order of day numbers. */
  lemma BeforeIsDayOrder(a: Date, b: Date)
    ensures Before(a, b) <==> ToDay(a) < ToDay(b)
    ensures ToDay(a) == ToDay(b) ==> a == b
  {
    if a.month < b.month { MonthStartsApart(a.month, b.month); }
    if b.month < a.month { MonthStartsApart(b.month, a.month); }
  }

  /** The day `day` of a month, clamped to the month's length. */
  function DayInMonth(month: int, day: int): (d: Date)
    requires day >= 1
    ensures d.month == month
  {
    CivilDate(month, if day > DaysInMonth(month) then DaysInMonth(month) else day)
  }

  function NextDay(d: Date): Date {
    if d.day < DaysInMonth(d.month) then CivilDate(d.month, d.day + 1) else CivilDate(d.month + 1, 1)
  }

  lemma NextDayIsNext(d: Date)
    ensures ToDay(NextDay(d)) == ToDay(d) + 1
  {
    NextMonthStart(d.month);
  }

  /** Months added to an anchor, keeping the anchor's day of month. */
  function AddMonthsAnchored(anchor: Date, months: int): (d: Date) {
    DayInMonth(anchor.month + months, anchor.day)
  }

  lemma AnchoredIncreasing(anchor: Date, i: int, j: int)
    requires i < j
    ensures Before(AddMonthsAnchored(anchor, i), AddMonthsAnchored(anchor, j))
    ensures ToDay(AddMonthsAnchored(anchor, i)) < ToDay(AddMonthsAnchored(anchor, j))
  {
    BeforeIsDayOrder(AddMonthsAnchored(anchor, i), AddMonthsAnchored(anchor, j));
  }
}
