/** Which instants a recurring mute covers, in the local time of its zone: read off the digits of its start and end
    times and the local date (internal/alert/mute_schedule.go). */
module MuteCoverage {
  import opened Base
  import opened Text
  import opened MonthlyDates
  import opened Calendar
  import opened MuteSchedules
  import opened Mutes

  /** `v` is written `hh:mm` and stands for minute `m` of the day. */
  predicate Shows(v: string, m: int) {
    && |v| == 5 && IsDigit(v[0]) && IsDigit(v[1]) && v[2] == ':' && IsDigit(v[3]) && IsDigit(v[4])
    && var hours, minutes := 10 * DigitValue(v[0]) + DigitValue(v[1]), 10 * DigitValue(v[3]) + DigitValue(v[4]);
       hours < 24 && minutes < 60 && m == 60 * hours + minutes
  }

  lemma TwoDigits(s: string)
    requires |s| == 2 && IsDigit(s[0]) && IsDigit(s[1])
    ensures Atoi(s) == Some(10 * DigitValue(s[0]) + DigitValue(s[1]))
  {
    assert s[..1][..0] == "" && s[..1][0] == s[0];
    assert Decimal(s[..1]) == Some(DigitValue(s[0]));
  }

  /** Every time of the day that is written with two digits each is read as its minute. */
  lemma ClockIsRead(v: string, m: int)
    requires Shows(v, m)
    ensures ParseClock(v) == Some(m)
  {
    TwoDigits(v[..2]);
    TwoDigits(v[3..]);
    hide Atoi;
  }

  /** The local day of an instant, and the time since its midnight. */
  function LocalDay(s: Schedule, t: Time): int {
    (t + s.offset) / DAY
  }

  function SinceMidnight(s: Schedule, t: Time): int {
    (t + s.offset) % DAY
  }

  predicate InBounds(s: Schedule, t: Time) {
    s.from <= t && (s.until.Some? ==> t < s.until.value)
  }

  /** An occurrence in the local time of its day. */
  lemma OccurrenceInLocalTime(s: Schedule, n: int, a: int, b: int)
    requires Shows(s.startTime, a) && Shows(s.endTime, b)
    ensures var w, midnight := OccurrenceOn(s, n), n * DAY - s.offset;
            && w.start == midnight + a * MINUTE
            && w.end == midnight + b * MINUTE + if a < b then 0 else DAY
  {
    ClockIsRead(s.startTime, a);
    ClockIsRead(s.endTime, b);
    hide ParseClock, Shows;
  }

  lemma LocalParts(s: Schedule, t: Time, n: int)
    ensures 0 <= SinceMidnight(s, t) < DAY
    ensures t == LocalDay(s, t) * DAY - s.offset + SinceMidnight(s, t)
  {
  }

  lemma ShowsInDay(v: string, m: int)
    requires Shows(v, m)
    ensures 0 <= m < 24 * 60
  {
  }

  /** Which day's occurrence holds an instant. */
  lemma HoldingDay(s: Schedule, t: Time, n: int, a: int, b: int)
    requires Shows(s.startTime, a) && Shows(s.endTime, b)
    ensures var day, tod := LocalDay(s, t), SinceMidnight(s, t);
            Holds(OccurrenceOn(s, n), t) <==>
            || (n == day && a * MINUTE <= tod && (a < b ==> tod < b * MINUTE))
            || (n == day - 1 && b <= a && tod < b * MINUTE)
  {
    hide Shows, OccurrenceOn, LocalDay, SinceMidnight, StartAfter, EndAfter;
    var day := LocalDay(s, t);
    OccurrenceFrom(s, n, day, a, b);
    LocalParts(s, t, n);
    ShowsInDay(s.startTime, a);
    ShowsInDay(s.endTime, b);
    SpanOfDay(n - day, a, b, SinceMidnight(s, t));
    Shifted(OccurrenceOn(s, n), t, day * DAY - s.offset, StartAfter(n - day, a), EndAfter(n - day, a, b),
            SinceMidnight(s, t));
  }

  /** An occurrence seen from the midnight of another day. */
  lemma OccurrenceFrom(s: Schedule, n: int, day: int, a: int, b: int)
    requires Shows(s.startTime, a) && Shows(s.endTime, b)
    ensures OccurrenceOn(s, n).start == day * DAY - s.offset + StartAfter(n - day, a)
    ensures OccurrenceOn(s, n).end == day * DAY - s.offset + EndAfter(n - day, a, b)
  {
    OccurrenceInLocalTime(s, n, a, b);
    hide Shows, OccurrenceOn;
  }

  /** Start and end of the occurrence that starts `d` days after a midnight. */
  function StartAfter(d: int, a: int): int {
    d * DAY + a * MINUTE
  }

  function EndAfter(d: int, a: int, b: int): int {
    d * DAY + b * MINUTE + if a < b then 0 else DAY
  }

  lemma Shifted(w: Span, t: Time, origin: int, start: int, end: int, at: int)
    requires w.start == origin + start && w.end == origin + end && t == origin + at
    ensures Holds(w, t) <==> start <= at < end
  {
  }

  /** The same from the midnight of the instant's own day, for the occurrence that starts `d` days later. */
  lemma SpanOfDay(d: int, a: int, b: int, tod: int)
    requires 0 <= a < 24 * 60 && 0 <= b < 24 * 60 && 0 <= tod < DAY
    ensures StartAfter(d, a) <= tod < EndAfter(d, a, b) <==>
            || (d == 0 && a * MINUTE <= tod && (a < b ==> tod < b * MINUTE))
            || (d == -1 && b <= a && tod < b * MINUTE)
  {
  }

  /** A mute from `a` to `b` on its days covers, within its bounds, the times of day from `a` up to `b` of the local
      dates it starts on. When `b` is not later than `a` it runs overnight: the times from `a` of those dates, and the
      times up to `b` of the dates after them. */
  lemma CoverageInLocalTime(s: Schedule, t: Time, a: int, b: int)
    requires Shows(s.startTime, a) && Shows(s.endTime, b)
    ensures var day, tod := LocalDay(s, t), SinceMidnight(s, t);
            Covered(s, t) <==>
            && InBounds(s, t)
            && if a < b then a * MINUTE <= tod < b * MINUTE && StartsOn(s, day)
               else (a * MINUTE <= tod && StartsOn(s, day)) || (tod < b * MINUTE && StartsOn(s, day - 1))
  {
    var day := LocalDay(s, t);
    HoldingDay(s, t, day, a, b);
    HoldingDay(s, t, day - 1, a, b);
    hide Shows, OccurrenceOn, StartsOn, Holds, LocalDay, SinceMidnight;
    if Covered(s, t) {
      var n :| StartsOn(s, n) && Holds(OccurrenceOn(s, n), t) && s.from <= t && (s.until.Some? ==> t < s.until.value);
      HoldingDay(s, t, n, a, b);
      assert Holds(OccurrenceOn(s, n), t);
    }
  }

  /** The same of the window that is found, and so of a mute with a schedule. */
  lemma ActiveInLocalTime(m: Mute, t: Time, a: int, b: int)
    requires m.schedule.Some? && Shows(m.schedule.value.startTime, a) && Shows(m.schedule.value.endTime, b)
    ensures var s := m.schedule.value;
            var day, tod := LocalDay(s, t), SinceMidnight(s, t);
            Active(m, t) <==>
            && InBounds(s, t)
            && if a < b then a * MINUTE <= tod < b * MINUTE && StartsOn(s, day)
               else (a * MINUTE <= tod && StartsOn(s, day)) || (tod < b * MINUTE && StartsOn(s, day - 1))
  {
    hide *;
    ActiveIsCovered(m, t);
    CoverageInLocalTime(m.schedule.value, t, a, b);
  }

  /** A date starts an occurrence when its weekday, or the monthly rule, says so and neither an exception date nor a
      holiday, of that year or of every year, forbids it. */
  lemma StartsAreExact(s: Schedule, n: int)
    ensures var d := DateOf(n);
            StartsOn(s, n) <==>
            && (match MonthlyRule(s.rrule)
                case Some(r) => Selected(r, d.day, MonthOf(n))
                case None => (n + 4) % 7 in s.days)
            && d !in s.exDates && OnDate(d) !in s.holidays && EveryYear(d.month, d.day) !in s.holidays
  {
  }

  // ----- matchers -----

  /** A matcher compares the label it names; a missing label only satisfies "not equal". */
  lemma MatchersAreExact(m: Matcher, labels: map<string, string>, f: Folding)
    ensures m.op.Eq? ==> (MatcherHolds(m, labels, f) <==> m.name in labels && labels[m.name] == m.value)
    ensures m.op.Neq? ==> (MatcherHolds(m, labels, f) <==> !(m.name in labels && labels[m.name] == m.value))
    ensures m.op.Contains? ==>
              (MatcherHolds(m, labels, f) <==>
               m.name in labels && exists i, j :: 0 <= i <= j <= |f.lower(labels[m.name])|
                                                   && f.lower(labels[m.name])[i..j] == f.lower(m.value))
  {
    if m.op.Contains? && m.name in labels {
      var sub, text := f.lower(m.value), f.lower(labels[m.name]);
      if MatcherHolds(m, labels, f) {
        var i :| 0 <= i <= |text| && sub <= text[i..];
        assert text[i..i + |sub|] == sub;
      }
      if i, j :| 0 <= i <= j <= |text| && text[i..j] == sub {
        assert sub <= text[i..];
      }
    }
  }
}
