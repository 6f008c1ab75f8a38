/** Mutes as objects: the schedule with its cached rule, its list of occurrences, and the mute that applies to an
    incident (internal/alert/mute_schedule.go, internal/alert/holidays.go, internal/alert/mutes.go). */
module Mutes {
  import opened Base
  import opened Text
  import opened Recurrence
  import opened RecurrenceText
  import opened MonthlyDates
  import opened Calendar
  import opened MuteSchedules

  // ----- the stored rule -----

  lemma JoinPrefix(parts: seq<string>, sep: char)
    requires parts != []
    ensures parts[0] <= Join(parts, sep)
  {
  }

  lemma TextStartsWithFreq(r: Rule)
    requires Accepted(r)
    ensures "FREQ=" + r.freq <= r.normalized && (r.freq == "DAILY" || r.freq == "WEEKLY" || r.freq == "MONTHLY")
  {
    var parts := RuleParts(r.freq, r.byDay, r.byMonthDay, r.bySetPos);
    assert parts[0] == "FREQ=" + r.freq;
    JoinPrefix(parts, ';');
    hide Join, RuleParts, NormalizeDays, DaysInOrder, InRange;
  }

  lemma PrefixTellsMonthly(text: string, freq: string)
    requires "FREQ=" + freq <= text && (freq == "DAILY" || freq == "WEEKLY" || freq == "MONTHLY")
    ensures "FREQ=MONTHLY" <= text <==> freq == "MONTHLY"
  {
    var start := "FREQ=" + freq;
    assert start[5] == freq[0] == text[5];
    if freq == "MONTHLY" {
      assert start == "FREQ=MONTHLY";
    }
  }

  /** A rule that is stored as its normalized text and read again when the schedule is loaded is the rule that was
      accepted; it is used exactly for monthly schedules. */
  lemma StoredRuleIsTheRule(text: string)
    requires Parse(text).Ok?
    ensures var r := Parse(text).value;
            MonthlyRule(r.normalized) == if r.freq == "MONTHLY" then Some(r) else None
  {
    var r := Parse(text).value;
    ParsedIsAccepted(text);
    NormalizationRoundTrip(text, text);
    hide Parse, Accepted;
    TextStartsWithFreq(r);
    PrefixTellsMonthly(r.normalized, r.freq);
  }

  // ----- a schedule -----

  class MuteSchedule {
    var schedule: Schedule
    var rec: Option<Rule>
    var parsed: bool

    /** A cached rule is the one that the stored text stands for. */
    ghost predicate Valid()
      reads this
    {
      parsed ==> rec == MonthlyRule(schedule.rrule)
    }

    /** A schedule as it is loaded. */
    constructor (s: Schedule)
      ensures Valid() && schedule == s
    {
      schedule, rec, parsed := s, None, false;
    }

    /** A schedule as it is validated, with the rule of `text` in place of its days. */
    constructor FromRule(s: Schedule, text: string)
      requires Parse(text).Ok?
      ensures Valid()
      ensures schedule == s.(days := Parse(text).value.days, rrule := Parse(text).value.normalized)
    {
      var r := Parse(text).value;
      StoredRuleIsTheRule(text);
      schedule := s.(days := r.days, rrule := r.normalized);
      rec := if r.freq == "MONTHLY" then Some(r) else None;
      parsed := r.freq == "MONTHLY";
    }

    method SetHolidays(dates: seq<Holiday>)
      requires Valid()
      modifies this`schedule
      ensures Valid() && schedule == old(schedule).(holidays := set d | d in dates)
    {
      var all: set<Holiday> := {};
      for i := 0 to |dates|
        invariant all == set d | d in dates[..i]
      {
        assert dates[..i + 1] == dates[..i] + [dates[i]];
        all := all + {dates[i]};
      }
      assert dates[..|dates|] == dates;
      schedule := schedule.(holidays := all);
    }

    method Recurrence() returns (r: Option<Rule>)
      requires Valid()
      modifies this`rec, this`parsed
      ensures Valid() && r == MonthlyRule(schedule.rrule)
    {
      if !parsed {
        parsed := true;
        rec := None;
        if "FREQ=MONTHLY" <= schedule.rrule {
          var p := ParseRecurrence(schedule.rrule);
          if p.Ok? {
            rec := Some(p.value);
          }
        }
      }
      r := rec;
    }

    method HasDay(wd: int) returns (b: bool)
      ensures b <==> wd in schedule.days
    {
      for i := 0 to |schedule.days|
        invariant wd !in schedule.days[..i]
      {
        if schedule.days[i] == wd {
          return true;
        }
      }
      assert schedule.days[..|schedule.days|] == schedule.days;
      b := false;
    }

    method Starts(n: int) returns (b: bool)
      requires Valid()
      modifies this`rec, this`parsed
      ensures Valid() && b == StartsOn(schedule, n)
    {
      hide Selected, MonthlyRule, MonthOf, Weekday;
      var r := Recurrence();
      var date := DateOf(n);
      if r.Some? {
        var ok := Matches(r.value, date.day, MonthOf(n));
        if !ok {
          return false;
        }
      } else {
        var ok := HasDay(Weekday(n));
        if !ok {
          return false;
        }
      }
      for i := 0 to |schedule.exDates|
        invariant date !in schedule.exDates[..i]
      {
        if schedule.exDates[i] == date {
          return false;
        }
      }
      assert schedule.exDates[..|schedule.exDates|] == schedule.exDates;
      b := OnDate(date) !in schedule.holidays && EveryYear(date.month, date.day) !in schedule.holidays;
    }

    method Window(at: Time) returns (w: Option<Span>)
      requires Valid()
      modifies this`rec, this`parsed
      ensures Valid() && w == WindowAt(schedule, at)
    {
      hide StartsOn, MonthlyRule, OccurrenceOn;
      var s := schedule;
      var ref := at;
      if s.from > ref {
        ref := s.from;
      }
      var local := (ref + s.offset) / DAY;
      for i := -1 to MAX_SCAN_DAYS
        invariant Valid()
        invariant WindowAt(s, at) == Scan(s, at, local + i, Horizon(s, at))
      {
        var ok := Starts(local + i);
        var o := OccurrenceOn(s, local + i);
        if !ok || o.end <= s.from {
          continue;
        }
        var start, end := o.start, o.end;
        if start < s.from {
          start := s.from;
        }
        if s.until.Some? {
          if start >= s.until.value {
            return None;
          }
          if end > s.until.value {
            end := s.until.value;
          }
        }
        if end > at {
          return Some(Span(start, end));
        }
      }
      w := None;
    }

    method Occurrences(at: Time, n: nat) returns (out: seq<Span>)
      requires Valid()
      modifies this`rec, this`parsed
      ensures Valid() && Chain(schedule, at, n, out)
    {
      hide WindowAt, MonthlyRule;
      out := [];
      var t := at;
      while |out| < n
        invariant Valid() && |out| <= n && t == QueryAt(at, out, |out|)
        invariant forall i :: 0 <= i < |out| ==> WindowAt(schedule, QueryAt(at, out, i)) == Some(out[i])
        decreases n - |out|
      {
        var w := Window(t);
        if w.None? {
          break;
        }
        ghost var before := out;
        out := out + [w.value];
        t := w.value.end;
        assert forall i :: 0 <= i <= |before| ==> QueryAt(at, out, i) == QueryAt(at, before, i);
      }
    }
  }

  // ----- mutes -----

  datatype Op = Eq | Neq | Contains

  datatype Matcher = Matcher(name: string, op: Op, value: string)

  /** A mute with a fixed window, or with a schedule and the window that was stored for it. */
  datatype Mute = Mute(ruleIds: seq<string>, matchers: seq<Matcher>, window: Span, schedule: Option<Schedule>)

  function Occurrence(m: Mute, at: Time): (Span, bool) {
    if m.schedule.None? then (m.window, true)
    else
      match WindowAt(m.schedule.value, at)
      case Some(w) => (w, true)
      case None => (m.window, false)
  }

  predicate Active(m: Mute, at: Time) {
    Occurrence(m, at).1 && Holds(Occurrence(m, at).0, at)
  }

  /** A mute is active exactly in its fixed window, or exactly at the instants its schedule covers. */
  lemma ActiveIsCovered(m: Mute, at: Time)
    ensures Active(m, at) <==> if m.schedule.None? then Holds(m.window, at) else Covered(m.schedule.value, at)
  {
    if m.schedule.Some? {
      ActiveIffCovered(m.schedule.value, at);
      hide WindowAt, Covered;
    }
  }

  predicate Within(sub: string, s: string) {
    exists i :: 0 <= i <= |s| && sub <= s[i..]
  }

  /** Unicode's case folding: `strings.EqualFold` and `strings.ToLower`. */
  datatype Folding = Folding(same: (string, string) -> bool, lower: string -> string)

  predicate MatcherHolds(m: Matcher, labels: map<string, string>, f: Folding) {
    match m.op
    case Eq => m.name in labels && labels[m.name] == m.value
    case Neq => m.name in labels ==> labels[m.name] != m.value
    case Contains => m.name in labels && Within(f.lower(m.value), f.lower(labels[m.name]))
  }

  predicate Applies(m: Mute, ruleId: string, labels: map<string, string>, f: Folding) {
    && (m.ruleIds == [] || exists id :: id in m.ruleIds && f.same(id, ruleId))
    && forall x :: x in m.matchers ==> MatcherHolds(x, labels, f)
  }

  method MatchesMute(m: Mute, ruleId: string, labels: map<string, string>, f: Folding) returns (b: bool)
    ensures b == Applies(m, ruleId, labels, f)
  {
    hide MatcherHolds;
    if |m.ruleIds| > 0 {
      var found := false;
      for i := 0 to |m.ruleIds|
        invariant !found && forall id :: id in m.ruleIds[..i] ==> !f.same(id, ruleId)
      {
        if f.same(m.ruleIds[i], ruleId) {
          found := true;
          assert m.ruleIds[i] in m.ruleIds;
          break;
        }
      }
      if !found {
        assert m.ruleIds[..|m.ruleIds|] == m.ruleIds;
        return false;
      }
    }
    for i := 0 to |m.matchers|
      invariant forall x :: x in m.matchers[..i] ==> MatcherHolds(x, labels, f)
    {
      if !MatcherHolds(m.matchers[i], labels, f) {
        assert m.matchers[i] in m.matchers;
        return false;
      }
    }
    assert m.matchers[..|m.matchers|] == m.matchers;
    b := true;
  }

  predicate Mutes(m: Mute, ruleId: string, labels: map<string, string>, f: Folding, at: Time) {
    Active(m, at) && Applies(m, ruleId, labels, f)
  }

  /** The first, among the active mutes that apply, of those whose occurrence ends last. It carries that occurrence, so
      a notification can be postponed to its end. */
  method MatchingMute(mutes: seq<Mute>, ruleId: string, labels: map<string, string>, f: Folding, at: Time)
    returns (best: Option<Mute>)
    ensures best.None? <==> forall m :: m in mutes ==> !Mutes(m, ruleId, labels, f, at)
    ensures best.Some? ==> Holds(best.value.window, at)
    ensures best.Some? ==>
              exists i :: 0 <= i < |mutes| && Mutes(mutes[i], ruleId, labels, f, at)
                && best.value == mutes[i].(window := Occurrence(mutes[i], at).0)
                && (forall j :: 0 <= j < |mutes| && Mutes(mutes[j], ruleId, labels, f, at) ==>
                      Occurrence(mutes[j], at).0.end <= best.value.window.end
                      && (j < i ==> Occurrence(mutes[j], at).0.end < best.value.window.end))
  {
    hide Occurrence, Applies;
    best := None;
    ghost var at0 := 0;
    for i := 0 to |mutes|
      invariant best.None? ==> forall j :: 0 <= j < i ==> !Mutes(mutes[j], ruleId, labels, f, at)
      invariant best.Some? ==> 0 <= at0 < i && Mutes(mutes[at0], ruleId, labels, f, at)
      invariant best.Some? ==> best.value == mutes[at0].(window := Occurrence(mutes[at0], at).0)
      invariant best.Some? ==> forall j :: 0 <= j < i && Mutes(mutes[j], ruleId, labels, f, at) ==>
        Occurrence(mutes[j], at).0.end <= best.value.window.end
        && (j < at0 ==> Occurrence(mutes[j], at).0.end < best.value.window.end)
    {
      var m := mutes[i];
      var applies := MatchesMute(m, ruleId, labels, f);
      if !Active(m, at) || !applies {
        continue;
      }
      var mm := m.(window := Occurrence(m, at).0);
      if best.None? || mm.window.end > best.value.window.end {
        best := Some(mm);
        at0 := i;
      }
    }
  }
}
