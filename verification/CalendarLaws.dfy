/** The calendar in closed form: when years begin, how long they are, and which day each date is. */
module CalendarLaws {
  import opened Arithmetic
  import opened Calendar

  /** The leap days before 1 January of a year: one for each fourth year, none for centuries, but for each fourth of
      those. */
  function LeapDaysBefore(y: int): int {
    (y - 1) / 4 - (y - 1) / 100 + (y - 1) / 400
  }

  /** The number of 1 January of a year. */
  function January(y: int): int {
    365 * (y - 1970) + LeapDaysBefore(y) - LeapDaysBefore(1970)
  }

  lemma OneMore(y: int, k: int)
    requires k > 0
    ensures y / k - (y - 1) / k == if y % k == 0 then 1 else 0
  {
    var q, r := y / k, y % k;
    assert y == q * k + r;
    if r == 0 {
      assert y - 1 == (q - 1) * k + (k - 1);
      DivUnique(y - 1, k, q - 1, k - 1);
    } else {
      DivUnique(y - 1, k, q, r - 1);
    }
  }

  lemma NextJanuary(y: int)
    ensures January(y + 1) == January(y) + if IsLeap(y) then 366 else 365
  {
    OneMore(y, 4);
    OneMore(y, 100);
    OneMore(y, 400);
  }

  lemma DayBefore(n: int)
    ensures DateOf(n - 1) == PreviousDate(DateOf(n))
  {
    DatesFollow(n - 1);
    assert ValidDate(DateOf(n - 1));
    hide DateOf;
  }

  lemma MonthBack(n: int, y: int, m: int)
    requires 1 <= m <= 12 && DateOf(n) == (if m < 12 then Date(y, m + 1, 1) else Date(y + 1, 1, 1))
    ensures DateOf(n - DaysIn(y, m)) == Date(y, m, 1)
  {
    hide DateOf;
    DayBefore(n);
    FirstOfMonth(n - 1, DaysIn(y, m) - 1);
  }

  /** From the first day of a month, or of the next year, back to the beginning of the year. */
  lemma {:induction false} YearBack(n: int, y: int, m: int)
    requires 1 <= m <= 13 && DateOf(n) == (if m < 13 then Date(y, m, 1) else Date(y + 1, 1, 1))
    ensures DateOf(n + DaysFrom(y, m) - DaysFrom(y, 1)) == Date(y, 1, 1)
    decreases m
  {
    hide DateOf;
    if m > 1 {
      MonthBack(n, y, m - 1);
      YearBack(n - DaysIn(y, m - 1), y, m - 1);
    }
  }

  /** Each year, before 1970 and after, begins on the day that counts 365 days and the leap days of the years
      between. */
  lemma {:induction false} YearsBegin(y: int)
    ensures DateOf(January(y)) == Date(y, 1, 1)
    decreases if y < 1970 then 1970 - y else y - 1970
  {
    if y > 1970 {
      YearsBegin(y - 1);
      NextJanuary(y - 1);
      hide DateOf, January;
      YearFromJanuary(January(y - 1), y - 1);
    } else if y < 1970 {
      YearsBegin(y + 1);
      NextJanuary(y);
      DaysFromMarch(y);
      hide DateOf, January;
      YearBack(January(y + 1), y, 13);
      assert DaysFrom(y, 13) == 0;
    }
  }

  /** The days of a year before one of its months. */
  function Before(y: int, m: int): int {
    (367 * m - 362) / 12 - if m <= 2 then 0 else if IsLeap(y) then 1 else 2
  }

  lemma NextMonth(y: int, m: int)
    requires 1 <= m < 12
    ensures Before(y, m + 1) == Before(y, m) + DaysIn(y, m)
  {
    hide IsLeap;
  }

  lemma NextMonthBegins(n: int, y: int, m: int)
    requires 1 <= m < 12 && DateOf(n) == Date(y, m, 1)
    ensures DateOf(n + DaysIn(y, m)) == Date(y, m + 1, 1)
  {
    hide DateOf, DaysIn;
    MonthFromFirst(n, y, m);
  }

  lemma {:induction false} MonthsBegin(y: int, m: int)
    requires 1 <= m <= 12
    ensures DateOf(January(y) + Before(y, m)) == Date(y, m, 1)
    decreases m
  {
    hide DateOf, January, DaysIn, IsLeap;
    if m == 1 {
      assert Before(y, 1) == 0;
      YearsBegin(y);
    } else {
      hide Before;
      MonthsBegin(y, m - 1);
      NextMonth(y, m - 1);
      NextMonthBegins(January(y) + Before(y, m - 1), y, m - 1);
    }
  }

  /** The number of each date of the Gregorian calendar. */
  lemma DateIsExact(d: Date)
    requires ValidDate(d)
    ensures DateOf(January(d.year) + Before(d.year, d.month) + d.day - 1) == d
  {
    hide January, Before, DateOf;
    MonthsBegin(d.year, d.month);
    MonthRuns(January(d.year) + Before(d.year, d.month), d.day - 1);
  }
}
