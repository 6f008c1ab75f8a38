/** Days of the Gregorian calendar, numbered from 1 January 1970. */
module Calendar {
  import opened MonthlyDates

  datatype Date = Date(year: int, month: int, day: int)

  predicate IsLeap(y: int) {
    y % 4 == 0 && (y % 100 != 0 || y % 400 == 0)
  }

  function DaysIn(y: int, m: int): (n: int)
    ensures 28 <= n <= 31
  {
    if m == 2 then if IsLeap(y) then 29 else 28
    else if m == 4 || m == 6 || m == 9 || m == 11 then 30
    else 31
  }

  predicate ValidDate(d: Date) {
    1 <= d.month <= 12 && 1 <= d.day <= DaysIn(d.year, d.month)
  }

  function NextDate(d: Date): Date {
    if d.day < DaysIn(d.year, d.month) then d.(day := d.day + 1)
    else if d.month < 12 then Date(d.year, d.month + 1, 1)
    else Date(d.year + 1, 1, 1)
  }

  function PreviousDate(d: Date): Date {
    if d.day > 1 then d.(day := d.day - 1)
    else if d.month > 1 then Date(d.year, d.month - 1, DaysIn(d.year, d.month - 1))
    else Date(d.year - 1, 12, 31)
  }

  function DateOf(n: int): (d: Date)
    ensures ValidDate(d)
    decreases if n < 0 then -n else n
  {
    if n == 0 then Date(1970, 1, 1)
    else if n > 0 then NextDate(DateOf(n - 1))
    else PreviousDate(DateOf(n + 1))
  }

  /** 0 is Sunday; 1 January 1970 was a Thursday. */
  function Weekday(n: int): int {
    (n + 4) % 7
  }

  /** The month of a day: its length, and the weekday of its first day. */
  function MonthOf(n: int): (m: Month)
    ensures ValidMonth(m)
  {
    var d := DateOf(n);
    Month(DaysIn(d.year, d.month), Weekday(n - d.day + 1))
  }

  lemma DatesFollow(n: int)
    ensures DateOf(n + 1) == NextDate(DateOf(n))
  {
    var d := DateOf(n + 1);
    if n < 0 {
      assert DateOf(n) == PreviousDate(d);
    }
  }

  /** The days before a day of a month are the earlier days of that month, so its first day is where `MonthOf` looks. */
  lemma {:induction false} FirstOfMonth(n: int, k: nat)
    requires k < DateOf(n).day
    ensures DateOf(n - k) == DateOf(n).(day := DateOf(n).day - k)
  {
    if k > 0 {
      FirstOfMonth(n, k - 1);
      DatesFollow(n - k);
    }
  }

  lemma WeekdaysAgree(n: int)
    ensures WeekdayOf(DateOf(n).day, MonthOf(n)) == Weekday(n)
  {
    hide DateOf, DaysIn;
    var d := DateOf(n).day;
    ModShift(n - d + 5, d - 1);
  }

  lemma ModShift(a: int, b: int)
    ensures (a % 7 + b) % 7 == (a + b) % 7
  {
  }

  // ----- months and years -----

  lemma {:induction false} MonthRuns(n: int, k: nat)
    requires DateOf(n).day == 1 && k < DaysIn(DateOf(n).year, DateOf(n).month)
    ensures DateOf(n + k) == DateOf(n).(day := 1 + k)
  {
    if k > 0 {
      MonthRuns(n, k - 1);
      DatesFollow(n + k - 1);
    }
  }

  function DaysFrom(y: int, m: int): nat
    decreases 13 - m
  {
    if m > 12 then 0 else DaysIn(y, m) + DaysFrom(y, m + 1)
  }

  /** The rest of a year, from the first day of one of its months. */
  lemma {:induction false} YearRuns(n: int, y: int, m: int)
    requires 1 <= m <= 12 && DateOf(n) == Date(y, m, 1)
    ensures DateOf(n + DaysFrom(y, m)) == Date(y + 1, 1, 1)
    ensures forall k :: n <= k < n + DaysFrom(y, m) ==> DateOf(k).year == y && DateOf(k).month >= m
    decreases 12 - m
  {
    hide DateOf;
    var len := DaysIn(y, m);
    forall k | n <= k < n + len ensures DateOf(k) == Date(y, m, 1 + k - n) {
      MonthRuns(n, k - n);
    }
    DatesFollow(n + len - 1);
    if m < 12 {
      YearRuns(n + len, y, m + 1);
    } else {
      assert DaysFrom(y, 13) == 0;
    }
  }

  lemma MonthFromFirst(n: int, y: int, m: int)
    requires 1 <= m <= 12 && DateOf(n) == Date(y, m, 1)
    ensures forall k :: n <= k < n + DaysIn(y, m) ==> DateOf(k) == Date(y, m, 1 + k - n)
    ensures m < 12 ==> DateOf(n + DaysIn(y, m)) == Date(y, m + 1, 1)
  {
    hide DateOf, DaysIn;
    forall k | n <= k < n + DaysIn(y, m) ensures DateOf(k) == Date(y, m, 1 + k - n) {
      MonthRuns(n, k - n);
    }
    DatesFollow(n + DaysIn(y, m) - 1);
  }

  /** In a year the one day that is the 17th of a month of 29 days is 17 February, if the year is a leap year. */
  lemma YearFromJanuary(n: int, y: int)
    requires DateOf(n) == Date(y, 1, 1)
    ensures DateOf(n + if IsLeap(y) then 366 else 365) == Date(y + 1, 1, 1)
    ensures DateOf(n + 47) == Date(y, 2, 17)
    ensures var days := if IsLeap(y) then 366 else 365;
            forall k :: n <= k < n + days && DateOf(k).day == 17 && MonthOf(k).days == 29 ==> IsLeap(y) && k == n + 47
  {
    hide DateOf;
    MonthFromFirst(n, y, 1);
    MonthFromFirst(n + 31, y, 2);
    DaysFromMarch(y);
    var march := n + 31 + DaysIn(y, 2);
    YearRuns(march, y, 3);
    hide DaysFrom;
    forall k | n <= k < march + 306 && DateOf(k).day == 17 && MonthOf(k).days == 29 ensures IsLeap(y) && k == n + 47 {
      assert MonthOf(k).days == DaysIn(DateOf(k).year, DateOf(k).month);
      assert DateOf(k).month == 2;
    }
  }

  lemma DaysFromMarch(y: int)
    ensures DaysFrom(y, 3) == 306 && DaysFrom(y, 2) == 306 + DaysIn(y, 2) && DaysFrom(y, 1) == DaysFrom(y, 2) + 31
  {
    assert DaysFrom(y, 9) == 122;
    assert DaysFrom(y, 5) == 245;
  }
}
