/** The days of a month that a monthly rule selects (internal/alert/mute_rrule.go), stated by counting as section 3.3.10
    of RFC 5545 does. */
module MonthlyDates {
  import opened Recurrence

  /** A month: its number of days, and the weekday of its first day (0 is Sunday). */
  datatype Month = Month(days: int, firstWeekday: int)

  predicate ValidMonth(m: Month) {
    m.days >= 1 && 0 <= m.firstWeekday < 7
  }

  function WeekdayOf(d: int, m: Month): int {
    (m.firstWeekday + d - 1) % 7
  }

  /** How many of the days `lo` to `hi` satisfy `p`. */
  function Count(p: int -> bool, lo: int, hi: int): nat
    decreases hi - lo
  {
    if hi < lo then 0 else Count(p, lo, hi - 1) + if p(hi) then 1 else 0
  }

  function IsWeekday(wd: int, m: Month): int -> bool {
    d => WeekdayOf(d, m) == wd
  }

  // ----- what a rule selects -----

  /** The `n`-th day of the month, or the `-n`-th from its end. */
  predicate OnMonthDay(n: int, d: int, m: Month) {
    if n > 0 then d == n else d == m.days + 1 + n
  }

  /** The `ord`-th such weekday of the month, the `-ord`-th from its end, or every one. */
  predicate OnDay(e: Day, d: int, m: Month) {
    && WeekdayOf(d, m) == e.wd
    && (e.ord > 0 ==> Count(IsWeekday(e.wd, m), 1, d) == e.ord)
    && (e.ord < 0 ==> Count(IsWeekday(e.wd, m), d, m.days) == -e.ord)
  }

  predicate Candidate(r: Rule, d: int, m: Month) {
    && (r.byMonthDay == [] || exists n :: n in r.byMonthDay && OnMonthDay(n, d, m))
    && (r.byDay == [] || exists e :: e in r.byDay && OnDay(e, d, m))
  }

  function Candidates(r: Rule, m: Month): int -> bool {
    d => Candidate(r, d, m)
  }

  /** Position `p` from the front or, when it is negative, from the back of the month's candidates. */
  predicate OnPosition(p: int, r: Rule, d: int, m: Month) {
    if p > 0 then Count(Candidates(r, m), 1, d) == p else Count(Candidates(r, m), d, m.days) == -p
  }

  predicate Selected(r: Rule, d: int, m: Month) {
    && 1 <= d <= m.days && Candidate(r, d, m)
    && (r.bySetPos == [] || exists p :: p in r.bySetPos && OnPosition(p, r, d, m))
  }

  // ----- counting -----

  lemma {:induction false} CountSplit(p: int -> bool, lo: int, mid: int, hi: int)
    requires lo <= mid <= hi + 1
    ensures Count(p, lo, hi) == Count(p, lo, mid - 1) + Count(p, mid, hi)
    decreases hi - mid + 1
  {
    if mid <= hi {
      CountSplit(p, lo, mid, hi - 1);
    }
  }

  /** The weekday `wd` first comes on day `1 + (wd - firstWeekday) % 7`, and then every seven days. */
  lemma {:induction false} CountWeekdays(wd: int, m: Month, h: nat)
    requires 0 <= wd < 7 && ValidMonth(m)
    ensures Count(IsWeekday(wd, m), 1, h) == (h - (wd - m.firstWeekday) % 7 + 6) / 7
  {
    if h > 0 {
      CountWeekdays(wd, m, h - 1);
      WeekdayEverySeven(wd, m, h);
    }
  }

  lemma WeekdayEverySeven(wd: int, m: Month, h: nat)
    requires 0 <= wd < 7 && ValidMonth(m) && h > 0
    ensures WeekdayOf(h, m) == wd <==> (h - 1 - (wd - m.firstWeekday) % 7) % 7 == 0
    ensures var b := h - (wd - m.firstWeekday) % 7 + 6; b / 7 == (b - 1) / 7 + if WeekdayOf(h, m) == wd then 1 else 0
  {
    var off := (wd - m.firstWeekday) % 7;
    assert off == if wd >= m.firstWeekday then wd - m.firstWeekday else wd - m.firstWeekday + 7;
  }

  /** The positions of a day among the days with its weekday, from the front and from the back of the month. */
  lemma Ordinals(d: int, m: Month)
    requires ValidMonth(m) && 1 <= d <= m.days
    ensures Count(IsWeekday(WeekdayOf(d, m), m), 1, d) == (d - 1) / 7 + 1
    ensures Count(IsWeekday(WeekdayOf(d, m), m), d, m.days) == (m.days - d) / 7 + 1
  {
    var wd := WeekdayOf(d, m);
    CountWeekdays(wd, m, d);
    CountWeekdays(wd, m, d - 1);
    CountWeekdays(wd, m, m.days);
    CountSplit(IsWeekday(wd, m), 1, d, m.days);
    WeekdayEverySeven(wd, m, d);
    var off := (wd - m.firstWeekday) % 7;
    OrdinalArithmetic(d, off, m.days);
  }

  lemma OrdinalArithmetic(d: int, off: int, n: int)
    requires 0 <= off < 7 && 1 <= d <= n && (d - 1 - off) % 7 == 0
    ensures (d - off + 6) / 7 == (d - 1) / 7 + 1
    ensures (n - off + 6) / 7 - (d - 1 - off + 6) / 7 == (n - d) / 7 + 1
  {
    var q := (d - 1 - off) / 7;
    assert d == 7 * q + off + 1;
  }

  // ----- the code -----

  method PassesMonthDay(r: Rule, d: int, m: Month) returns (ok: bool)
    requires 1 <= d <= m.days
    ensures ok <==> exists n :: n in r.byMonthDay && OnMonthDay(n, d, m)
  {
    for i := 0 to |r.byMonthDay|
      invariant forall n :: n in r.byMonthDay[..i] ==> !OnMonthDay(n, d, m)
    {
      var md := r.byMonthDay[i];
      assert r.byMonthDay[..i + 1] == r.byMonthDay[..i] + [md];
      if (md > 0 && d == md) || (md < 0 && d == m.days + md + 1) {
        assert OnMonthDay(md, d, m) && md in r.byMonthDay;
        return true;
      }
    }
    assert r.byMonthDay[..|r.byMonthDay|] == r.byMonthDay;
    ok := false;
  }

  method PassesDay(r: Rule, d: int, m: Month) returns (ok: bool)
    requires ValidMonth(m) && 1 <= d <= m.days
    ensures ok <==> exists e :: e in r.byDay && OnDay(e, d, m)
  {
    hide Count;
    Ordinals(d, m);
    var wd := WeekdayOf(d, m);
    for i := 0 to |r.byDay|
      invariant forall e :: e in r.byDay[..i] ==> !OnDay(e, d, m)
    {
      var e := r.byDay[i];
      assert r.byDay[..i + 1] == r.byDay[..i] + [e];
      if e.wd != wd {
        continue;
      }
      if e.ord == 0 || (e.ord > 0 && (d - 1) / 7 + 1 == e.ord) || (e.ord < 0 && -((m.days - d) / 7 + 1) == e.ord) {
        assert OnDay(e, d, m) && e in r.byDay;
        return true;
      }
    }
    assert r.byDay[..|r.byDay|] == r.byDay;
    ok := false;
  }

  method IsCandidate(r: Rule, d: int, m: Month) returns (b: bool)
    requires ValidMonth(m) && 1 <= d <= m.days
    ensures b == Candidate(r, d, m)
  {
    if |r.byMonthDay| > 0 {
      var ok := PassesMonthDay(r, d, m);
      if !ok {
        return false;
      }
    }
    if |r.byDay| > 0 {
      var ok := PassesDay(r, d, m);
      if !ok {
        return false;
      }
    }
    b := true;
  }

  /** The candidates up to `last`, in order: the `i`-th of them is the one with rank `i`. */
  ghost predicate InRankOrder(list: seq<int>, p: int -> bool, last: int) {
    && |list| == Count(p, 1, last)
    && (forall i :: 0 <= i < |list| ==> 1 <= list[i] <= last && p(list[i]) && Count(p, 1, list[i]) == i + 1)
    && (forall d :: 1 <= d <= last && p(d) ==> 1 <= Count(p, 1, d) <= |list| && list[Count(p, 1, d) - 1] == d)
  }

  method ListCandidates(r: Rule, m: Month) returns (list: seq<int>)
    requires ValidMonth(m)
    ensures InRankOrder(list, Candidates(r, m), m.days)
  {
    hide Candidate;
    list := [];
    for x := 1 to m.days + 1
      invariant InRankOrder(list, Candidates(r, m), x - 1)
    {
      var ok := IsCandidate(r, x, m);
      RankNext(list, Candidates(r, m), x);
      if ok {
        list := list + [x];
      }
    }
  }

  lemma RankNext(list: seq<int>, p: int -> bool, x: int)
    requires x >= 1 && InRankOrder(list, p, x - 1)
    ensures InRankOrder(if p(x) then list + [x] else list, p, x)
  {
  }

  /** Looking a position up in the list finds exactly the day at that position. */
  lemma PositionFinds(list: seq<int>, r: Rule, d: int, m: Month, p: int)
    requires d >= 1 && InRankOrder(list, Candidates(r, m), m.days)
    ensures var i := if p < 0 then |list| + p else p - 1;
            0 <= i < |list| && list[i] == d <==> d <= m.days && Candidate(r, d, m) && OnPosition(p, r, d, m)
  {
    hide Candidate;
    var c := Candidates(r, m);
    if d <= m.days && c(d) {
      CountSplit(c, 1, d, m.days);
      assert Count(c, 1, d) == Count(c, 1, d - 1) + 1;
    }
  }

  method Matches(r: Rule, d: int, m: Month) returns (b: bool)
    requires ValidMonth(m) && 1 <= d
    ensures b == Selected(r, d, m)
  {
    hide Candidate, Count, InRankOrder, OnPosition;
    if |r.bySetPos| == 0 {
      if d > m.days {
        return false;
      }
      b := IsCandidate(r, d, m);
      return;
    }
    var list := ListCandidates(r, m);
    for j := 0 to |r.bySetPos|
      invariant d <= m.days && Candidate(r, d, m) ==> forall p :: p in r.bySetPos[..j] ==> !OnPosition(p, r, d, m)
    {
      var p := r.bySetPos[j];
      assert r.bySetPos[..j + 1] == r.bySetPos[..j] + [p];
      var i := p - 1;
      if p < 0 {
        i := |list| + p;
      }
      PositionFinds(list, r, d, m, p);
      if i >= 0 && i < |list| && list[i] == d {
        assert p in r.bySetPos;
        return true;
      }
    }
    assert r.bySetPos[..|r.bySetPos|] == r.bySetPos;
    b := false;
  }
}
