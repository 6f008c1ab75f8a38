/** Recurring mute schedules in a zone with a fixed offset: the search for the active or next occurrence
    (internal/alert/mute_schedule.go, internal/alert/holidays.go, internal/alert/mutes.go). */
module MuteSchedules {
  import opened Base
  import opened Text
  import opened Recurrence
  import opened MonthlyDates
  import opened Calendar

  const MINUTE: int := 60 * SECOND
  const DAY: int := 24 * HOUR

  /** How far the search looks ahead, in days. */
  const MAX_SCAN_DAYS: int := 800

  datatype Holiday = OnDate(date: Date) | EveryYear(month: int, day: int)

  datatype Schedule = Schedule(
    offset: int,
    days: seq<int>,
    rrule: string,
    startTime: string,
    endTime: string,
    from: Time,
    until: Option<Time>,
    exDates: seq<Date>,
    holidays: set<Holiday>)

  datatype Span = Span(start: Time, end: Time)

  predicate Holds(w: Span, t: Time) {
    w.start <= t < w.end
  }

  // ----- occurrences -----

  /** Minutes since midnight of a text `HH:MM`. */
  function ParseClock(v: string): (r: Option<int>)
    ensures r.Some? ==> 0 <= r.value < 24 * 60
  {
    if |v| != 5 || v[2] != ':' then None
    else
      var h, m := Atoi(v[..2]), Atoi(v[3..]);
      if h.None? || m.None? || h.value < 0 || h.value > 23 || m.value < 0 || m.value > 59 then None
      else Some(h.value * 60 + m.value)
  }

  function Clock(v: string): (m: int)
    ensures 0 <= m < 24 * 60
  {
    match ParseClock(v)
    case Some(m) => m
    case None => 0
  }

  /** The rule that a monthly schedule stores; weekly and daily ones go by their days. */
  function MonthlyRule(rrule: string): Option<Rule> {
    if !("FREQ=MONTHLY" <= rrule) then None
    else
      match Parse(rrule)
      case Ok(r) => Some(r)
      case Err(_) => None
  }

  predicate Excepted(s: Schedule, n: int) {
    var d := DateOf(n);
    d in s.exDates || OnDate(d) in s.holidays || EveryYear(d.month, d.day) in s.holidays
  }

  /** Whether an occurrence starts on the local day `n`. */
  predicate StartsOn(s: Schedule, n: int) {
    && (match MonthlyRule(s.rrule)
        case Some(r) => Selected(r, DateOf(n).day, MonthOf(n))
        case None => Weekday(n) in s.days)
    && !Excepted(s, n)
  }

  function LocalTime(n: int, minutes: int): (t: int)
    requires 0 <= minutes < 24 * 60
    ensures n * DAY <= t < n * DAY + DAY
  {
    n * DAY + minutes * MINUTE
  }

  /** The occurrence that starts on day `n`; it ends on the next day unless its end is later than its start. */
  function OccurrenceOn(s: Schedule, n: int): (w: Span)
    ensures n * DAY - s.offset <= w.start < (n + 1) * DAY - s.offset
    ensures w.start < w.end <= w.start + DAY
  {
    var sm, em := Clock(s.startTime), Clock(s.endTime);
    hide Clock;
    Span(LocalTime(n, sm) - s.offset, LocalTime(if em <= sm then n + 1 else n, em) - s.offset)
  }

  function Clipped(s: Schedule, n: int): Span {
    var w := OccurrenceOn(s, n);
    Span(Max(w.start, s.from), if s.until.None? then w.end else Min(w.end, s.until.value))
  }

  /** An occurrence that starts on day `n` and has some time between the schedule's bounds. */
  predicate Occurs(s: Schedule, n: int) {
    StartsOn(s, n) && Clipped(s, n).start < Clipped(s, n).end
  }

  /** Whether the schedule mutes the instant `t`: some occurrence covers it, within the schedule's bounds. */
  ghost predicate Covered(s: Schedule, t: Time) {
    exists n :: StartsOn(s, n) && Holds(OccurrenceOn(s, n), t) && s.from <= t && (s.until.Some? ==> t < s.until.value)
  }

  // ----- the search -----

  function FirstDay(s: Schedule, at: Time): int {
    (Max(at, s.from) + s.offset) / DAY - 1
  }

  /** One day past the last one that is looked at. */
  function Horizon(s: Schedule, at: Time): int {
    FirstDay(s, at) + 1 + MAX_SCAN_DAYS
  }

  function Scan(s: Schedule, at: Time, n: int, limit: int): Option<Span>
    decreases limit - n
  {
    if n >= limit then None
    else
      var w := OccurrenceOn(s, n);
      if !StartsOn(s, n) || w.end <= s.from then Scan(s, at, n + 1, limit)
      else
        var c := Clipped(s, n);
        if s.until.Some? && c.start >= s.until.value then None
        else if c.end > at then Some(c)
        else Scan(s, at, n + 1, limit)
  }

  function WindowAt(s: Schedule, at: Time): Option<Span> {
    Scan(s, at, FirstDay(s, at), Horizon(s, at))
  }

  // ----- what the search finds -----

  lemma LaterDaysStartLater(s: Schedule, k: int, n: int)
    requires k < n
    ensures OccurrenceOn(s, k).end <= OccurrenceOn(s, n).start
    ensures Clipped(s, k).start <= Clipped(s, n).start && Clipped(s, k).end <= Max(Clipped(s, n).start, s.from)
  {
  }

  /** `r` is the first occurrence, among those that start before day `limit`, that ends after `at`. */
  ghost predicate FirstAfter(s: Schedule, at: Time, limit: int, r: Option<Span>) {
    match r
    case None => forall n :: n < limit && Occurs(s, n) ==> Clipped(s, n).end <= at
    case Some(w) =>
      exists n :: n < limit && Occurs(s, n) && w == Clipped(s, n) && w.end > at
                  && forall k :: k < n && Occurs(s, k) ==> Clipped(s, k).end <= at
  }

  lemma {:induction false} ScanFindsFirst(s: Schedule, at: Time, n: int, limit: int)
    requires n <= limit && forall k :: k < n && Occurs(s, k) ==> Clipped(s, k).end <= at
    ensures FirstAfter(s, at, limit, Scan(s, at, n, limit))
    decreases limit - n
  {
    hide StartsOn, OccurrenceOn;
    if n < limit {
      var c := Clipped(s, n);
      if StartsOn(s, n) && OccurrenceOn(s, n).end > s.from {
        if s.until.Some? && c.start >= s.until.value {
          forall k | n <= k ensures !Occurs(s, k) {
            if n < k {
              LaterDaysStartLater(s, n, k);
            }
          }
        } else if c.end <= at {
          ScanFindsFirst(s, at, n + 1, limit);
        } else {
          assert Occurs(s, n);
        }
      } else {
        ScanFindsFirst(s, at, n + 1, limit);
      }
    }
  }

  /** The days before the search starts hold nothing that ends after `at`. */
  lemma EarlierDaysAreOver(s: Schedule, at: Time, k: int)
    requires k < FirstDay(s, at) && Occurs(s, k)
    ensures Clipped(s, k).end <= at
  {
    hide StartsOn, OccurrenceOn;
    DayFloor(Max(at, s.from) + s.offset, k + 2);
  }

  lemma DayFloor(x: int, n: int)
    ensures n <= x / DAY <==> n * DAY <= x
  {
  }

  /** The search returns the first occurrence that ends after `at`, of all that start before its horizon. */
  lemma WindowIsFirst(s: Schedule, at: Time)
    ensures FirstAfter(s, at, Horizon(s, at), WindowAt(s, at))
  {
    forall k | k < FirstDay(s, at) && Occurs(s, k) ensures Clipped(s, k).end <= at {
      EarlierDaysAreOver(s, at, k);
    }
    ScanFindsFirst(s, at, FirstDay(s, at), Horizon(s, at));
  }

  /** A returned window is not empty, is within the schedule's bounds and ends after `at`; every other occurrence that
      ends after `at` comes after it. */
  lemma WindowIsInBounds(s: Schedule, at: Time)
    requires WindowAt(s, at).Some?
    ensures var w := WindowAt(s, at).value;
            && s.from <= w.start < w.end && (s.until.Some? ==> w.end <= s.until.value) && at < w.end
            && forall n :: Occurs(s, n) && Clipped(s, n).end > at ==> Clipped(s, n) == w || w.end <= Clipped(s, n).start
  {
    WindowIsFirst(s, at);
    hide StartsOn, OccurrenceOn, WindowAt;
    var w := WindowAt(s, at).value;
    var k :| Occurs(s, k) && w == Clipped(s, k) && forall j :: j < k && Occurs(s, j) ==> Clipped(s, j).end <= at;
    forall n | Occurs(s, n) && Clipped(s, n).end > at ensures Clipped(s, n) == w || w.end <= Clipped(s, n).start {
      if k < n {
        LaterDaysStartLater(s, k, n);
      }
    }
  }

  lemma BeforeHorizon(s: Schedule, at: Time, n: int)
    requires OccurrenceOn(s, n).start <= Max(at, s.from)
    ensures n < Horizon(s, at)
  {
    hide OccurrenceOn;
    DayFloor(Max(at, s.from) + s.offset, n);
  }

  lemma ClippedHolds(s: Schedule, n: int, t: Time)
    ensures Holds(Clipped(s, n), t) <==>
            Holds(OccurrenceOn(s, n), t) && s.from <= t && (s.until.Some? ==> t < s.until.value)
  {
  }

  lemma CoveredIsFound(s: Schedule, at: Time, n: int)
    requires StartsOn(s, n) && Holds(Clipped(s, n), at)
    ensures WindowAt(s, at) == Some(Clipped(s, n))
  {
    WindowIsFirst(s, at);
    BeforeHorizon(s, at, n) by {
      ClippedHolds(s, n, at);
    }
    hide StartsOn, WindowAt, Clipped, Horizon;
    assert Occurs(s, n);
    assert WindowAt(s, at).Some?;
    WindowIsInBounds(s, at);
  }

  lemma FoundDay(s: Schedule, at: Time) returns (n: int)
    requires WindowAt(s, at).Some?
    ensures StartsOn(s, n) && WindowAt(s, at).value == Clipped(s, n)
  {
    WindowIsFirst(s, at);
    hide StartsOn, WindowAt, Clipped, Horizon;
    n :| Occurs(s, n) && WindowAt(s, at).value == Clipped(s, n);
    assert Occurs(s, n);
  }

  lemma HeldIsCovered(s: Schedule, n: int, t: Time)
    requires StartsOn(s, n) && Holds(Clipped(s, n), t)
    ensures Covered(s, t)
  {
    ClippedHolds(s, n, t);
    hide StartsOn, Clipped, OccurrenceOn, Holds;
  }

  lemma CoveredDay(s: Schedule, t: Time) returns (n: int)
    requires Covered(s, t)
    ensures StartsOn(s, n) && Holds(Clipped(s, n), t)
  {
    n :| StartsOn(s, n) && Holds(OccurrenceOn(s, n), t) && s.from <= t && (s.until.Some? ==> t < s.until.value);
    ClippedHolds(s, n, t);
  }

  /** An instant is muted exactly when the window that is found for it holds it. */
  lemma ActiveIffCovered(s: Schedule, at: Time)
    ensures Covered(s, at) <==> WindowAt(s, at).Some? && Holds(WindowAt(s, at).value, at)
  {
    hide *;
    if WindowAt(s, at).Some? && Holds(WindowAt(s, at).value, at) {
      var n := FoundDay(s, at);
      HeldIsCovered(s, n, at);
    }
    if Covered(s, at) {
      var n := CoveredDay(s, at);
      CoveredIsFound(s, at, n);
    }
  }

  // ----- completeness -----

  /** A schedule that goes by weekdays, names at least one of them and has no exceptions. */
  predicate PlainWeekly(s: Schedule) {
    MonthlyRule(s.rrule).None? && s.exDates == [] && s.holidays == {} && exists wd :: 0 <= wd < 7 && wd in s.days
  }

  /** Every weekday comes within any seven days. */
  lemma WeekdayComes(lo: int, wd: int) returns (n: int)
    requires 0 <= wd < 7
    ensures lo <= n < lo + 7 && Weekday(n) == wd
  {
    n := lo + (wd - Weekday(lo)) % 7;
    var k := (wd - Weekday(lo)) / 7;
    assert n + 4 == wd + 7 * ((lo + 4) / 7 - k);
  }

  /** For a plain weekly schedule the horizon hides nothing: when no window is found, nothing ever ends after `at`. */
  lemma WeeklySearchIsComplete(s: Schedule, at: Time, n: int)
    requires PlainWeekly(s) && WindowAt(s, at).None? && Occurs(s, n)
    ensures Clipped(s, n).end <= at
  {
    WindowIsFirst(s, at);
    hide WindowAt, OccurrenceOn;
    if n >= Horizon(s, at) {
      var wd :| 0 <= wd < 7 && wd in s.days;
      var k := WeekdayComes(FirstDay(s, at) + 2, wd);
      LaterDaysStartLater(s, k, n);
      NextDayIsAfter(s, at, k);
      if Occurs(s, k) {
        assert false;
      }
    }
  }

  lemma NextDayIsAfter(s: Schedule, at: Time, k: int)
    requires k >= FirstDay(s, at) + 2
    ensures OccurrenceOn(s, k).start > Max(at, s.from)
  {
    hide OccurrenceOn;
    DayFloor(Max(at, s.from) + s.offset, k);
  }

  /** Day `n` holds the first occurrence that ends after `at`, of all there ever are. */
  ghost predicate IsNext(s: Schedule, at: Time, n: int) {
    && Occurs(s, n) && Clipped(s, n).end > at
    && forall k :: k < n && Occurs(s, k) ==> Clipped(s, k).end <= at
  }

  /** The search finds the next occurrence exactly when it starts before the horizon. */
  lemma SearchStopsAtHorizon(s: Schedule, at: Time, n: int)
    requires IsNext(s, at, n)
    ensures WindowAt(s, at) == if n < Horizon(s, at) then Some(Clipped(s, n)) else None
  {
    WindowIsFirst(s, at);
    hide StartsOn, OccurrenceOn, WindowAt, Horizon, Clipped;
    assert Occurs(s, n);
    if WindowAt(s, at).Some? {
      var w := WindowAt(s, at).value;
      var m :| m < Horizon(s, at) && Occurs(s, m) && w == Clipped(s, m) && w.end > at
               && forall k :: k < m && Occurs(s, k) ==> Clipped(s, k).end <= at;
      assert Occurs(s, m);
      assert m == n;
    }
  }

  /** If any occurrence ends after `at`, there is a next one. */
  lemma NextExists(s: Schedule, at: Time, m: int) returns (n: int)
    requires Occurs(s, m) && Clipped(s, m).end > at
    ensures IsNext(s, at, n)
  {
    hide Occurs, Clipped, FirstDay;
    forall k | k < FirstDay(s, at) && Occurs(s, k) ensures Clipped(s, k).end <= at {
      EarlierDaysAreOver(s, at, k);
    }
    n := NextFrom(s, at, FirstDay(s, at), m);
  }

  lemma {:induction false} NextFrom(s: Schedule, at: Time, lo: int, m: int) returns (n: int)
    requires lo <= m && Occurs(s, m) && Clipped(s, m).end > at
    requires forall k :: k < lo && Occurs(s, k) ==> Clipped(s, k).end <= at
    ensures IsNext(s, at, n)
    decreases m - lo
  {
    hide Occurs, Clipped;
    n := lo;
    if !(Occurs(s, lo) && Clipped(s, lo).end > at) {
      n := NextFrom(s, at, lo + 1, m);
    }
  }

  /** An occurrence that is still to end is missed exactly when the next one starts at or past the horizon. */
  lemma SearchMissesExactly(s: Schedule, at: Time)
    ensures (exists m :: Occurs(s, m) && Clipped(s, m).end > at) && WindowAt(s, at).None? <==>
            exists n :: IsNext(s, at, n) && n >= Horizon(s, at)
  {
    hide Occurs, Clipped, WindowAt, Horizon;
    if m :| Occurs(s, m) && Clipped(s, m).end > at {
      var n := NextExists(s, at, m);
      SearchStopsAtHorizon(s, at, n);
    }
    if n :| IsNext(s, at, n) && n >= Horizon(s, at) {
      SearchStopsAtHorizon(s, at, n);
      assert Occurs(s, n) && Clipped(s, n).end > at;
    }
  }

  // ----- weekdays and weekday rules -----

  /** A monthly rule that lists weekdays without positions starts on exactly the days of the weekly schedule that names
      them: the month's first weekday and the weekday of the day agree. */
  lemma WeekdayRuleIsWeekly(r: Rule, n: int)
    requires r.byMonthDay == [] && r.bySetPos == [] && r.byDay != [] && forall e :: e in r.byDay ==> e.ord == 0
    ensures Selected(r, DateOf(n).day, MonthOf(n)) <==> Weekday(n) in Weekdays(r.byDay)
  {
    WeekdaysAgree(n);
    hide Weekday, MonthOf, DateOf, WeekdayOf;
    var d, m := DateOf(n).day, MonthOf(n);
    DayInMonth(n);
    if Weekday(n) in Weekdays(r.byDay) {
      var i :| 0 <= i < |r.byDay| && Weekdays(r.byDay)[i] == Weekday(n);
      assert r.byDay[i] in r.byDay && OnDay(r.byDay[i], d, m);
    }
    if Selected(r, d, m) {
      var e :| e in r.byDay && OnDay(e, d, m);
      var i :| 0 <= i < |r.byDay| && r.byDay[i] == e;
      assert Weekdays(r.byDay)[i] == Weekday(n);
    }
  }

  lemma DayInMonth(n: int)
    ensures 1 <= DateOf(n).day <= MonthOf(n).days
  {
    hide DateOf;
  }

  // ----- a list of occurrences -----

  /** The instant the `i`-th search starts from: the end of the window before. */
  function QueryAt(at: Time, list: seq<Span>, i: nat): Time
    requires i <= |list|
  {
    if i == 0 then at else list[i - 1].end
  }

  /** Each window is the one found at the end of the one before; the list stops short of `n` only when none is left. */
  ghost predicate Chain(s: Schedule, at: Time, n: nat, list: seq<Span>) {
    && |list| <= n
    && (forall i :: 0 <= i < |list| ==> WindowAt(s, QueryAt(at, list, i)) == Some(list[i]))
    && (|list| < n ==> WindowAt(s, QueryAt(at, list, |list|)) == None)
  }

  /** The next window starts no earlier than the one before ends. */
  lemma NextWindowIsLater(s: Schedule, at: Time, w: Span, v: Span)
    requires WindowAt(s, at) == Some(w) && WindowAt(s, w.end) == Some(v)
    ensures at < w.end <= v.start < v.end
  {
    WindowIsInBounds(s, at);
    WindowIsInBounds(s, w.end);
    var k := FoundDay(s, w.end);
    hide WindowAt, StartsOn, OccurrenceOn, Clipped;
    assert Occurs(s, k);
  }

  lemma {:induction false} ChainIncreases(s: Schedule, at: Time, n: nat, list: seq<Span>, i: nat, j: nat)
    requires Chain(s, at, n, list) && i < j < |list|
    ensures at < list[i].end <= list[j].start < list[j].end
  {
    hide WindowAt;
    NextWindowIsLater(s, QueryAt(at, list, j - 1), list[j - 1], list[j]);
    if i < j - 1 {
      ChainIncreases(s, at, n, list, i, j - 1);
    } else if i > 0 {
      ChainIncreases(s, at, n, list, i - 1, i);
    }
  }

  /** No occurrence is left out: one that ends after `at` is in the list or comes after all of it. */
  lemma {:induction false} ChainIsComplete(s: Schedule, at: Time, n: nat, list: seq<Span>, k: int)
    requires Chain(s, at, n, list) && Occurs(s, k) && Clipped(s, k).end > at && list != []
    ensures Clipped(s, k) in list || list[|list| - 1].end <= Clipped(s, k).start
  {
    hide WindowAt, StartsOn, Clipped;
    assert Clipped(s, k).start < Clipped(s, k).end;
    var i := 0;
    while i < |list| && Clipped(s, k) != list[i]
      invariant i <= |list| && QueryAt(at, list, i) < Clipped(s, k).end
      invariant i > 0 ==> list[i - 1].end <= Clipped(s, k).start
    {
      WindowIsInBounds(s, QueryAt(at, list, i));
      i := i + 1;
    }
  }
}
