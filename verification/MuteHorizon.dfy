/** A mute schedule whose next occurrence lies past the horizon of the search (internal/alert/mute_schedule.go), so
    that a rule that goes on for ever is reported as having no further occurrence. */
module MuteHorizon {
  import opened Base
  import opened Text
  import opened Recurrence
  import opened RecurrenceText
  import opened MonthlyDates
  import opened Calendar
  import opened MuteSchedules
  import opened Mutes

  // ----- the rule -----

  const MONTH_DAYS: seq<int> := [-15, 14, 16, 17]

  /** The fourth of the days 14, 16, 17 and the fifteenth from the end: there are four of them in a month of 29 days,
      and three in every other. */
  const TEXT: string := "FREQ=MONTHLY;BYMONTHDAY=-15,14,16,17;BYSETPOS=4"

  const LEAP_RULE: Rule := Rule("MONTHLY", [], [], MONTH_DAYS, [4], TEXT)

  lemma TextOfRule()
    ensures Join(RuleParts("MONTHLY", [], MONTH_DAYS, [4]), ';') == TEXT
  {
    PartsOfRule();
    hide RuleParts, Join;
    JoinThree("FREQ=MONTHLY", "BYMONTHDAY=-15,14,16,17", "BYSETPOS=4");
    assert "FREQ=MONTHLY" + ";" + "BYMONTHDAY=-15,14,16,17" + ";" + "BYSETPOS=4" == TEXT;
  }

  lemma PartsOfRule()
    ensures RuleParts("MONTHLY", [], MONTH_DAYS, [4]) == ["FREQ=MONTHLY", "BYMONTHDAY=-15,14,16,17", "BYSETPOS=4"]
  {
    IntTextsOfRule();
    JoinFour();
    assert DayTexts([]) == [];
    hide Join, IntTexts, DayTexts;
    ListedText("BYMONTHDAY", ["-15", "14", "16", "17"]);
    ListedText("BYSETPOS", ["4"]);
    assert "BYMONTHDAY" + "=" + "-15,14,16,17" == "BYMONTHDAY=-15,14,16,17" && "BYSETPOS" + "=" + "4" == "BYSETPOS=4";
    assert Listed("BYDAY", []) == [];
    hide Listed;
    assert "FREQ=" + "MONTHLY" == "FREQ=MONTHLY";
  }

  lemma ListedText(name: string, texts: seq<string>)
    requires texts != []
    ensures Listed(name, texts) == [name + "=" + Join(texts, ',')]
  {
  }

  lemma JoinThree(a: string, b: string, c: string)
    ensures Join([a, b, c], ';') == a + ";" + b + ";" + c
  {
    JoinAppend([a], b, ';');
    JoinAppend([a, b], c, ';');
    assert [a] + [b] == [a, b] && [a, b] + [c] == [a, b, c];
  }

  lemma IntTextsOfRule()
    ensures IntTexts(MONTH_DAYS) == ["-15", "14", "16", "17"] && IntTexts([4]) == ["4"]
  {
    assert Digits(1) == "1" && Digits(4) == "4" && Digits(5) == "5" && Digits(6) == "6" && Digits(7) == "7";
    assert Digits(15) == "15" && Digits(14) == "14" && Digits(16) == "16" && Digits(17) == "17";
    assert Itoa(-15) == "-15" && Itoa(14) == "14" && Itoa(16) == "16" && Itoa(17) == "17" && Itoa(4) == "4";
    hide Itoa, Digits;
  }

  lemma JoinFour()
    ensures Join(["-15", "14", "16", "17"], ',') == "-15,14,16,17" && Join(["4"], ',') == "4"
  {
    var s := ["-15", "14", "16", "17"];
    assert s[1..] == ["14", "16", "17"] && s[1..][1..] == ["16", "17"] && s[1..][1..][1..] == ["17"];
  }

  lemma RuleIsAccepted()
    ensures Parse(TEXT) == Ok(LEAP_RULE) && MonthlyRule(TEXT) == Some(LEAP_RULE)
  {
    TextOfRule();
    hide Join, RuleParts, Parse;
    assert Accepted(LEAP_RULE);
    AcceptedReadsBack(LEAP_RULE);
    StoredRuleIsTheRule(TEXT);
  }

  // ----- the days it selects -----

  lemma {:induction false} CountNothing(p: int -> bool, lo: int, hi: int)
    requires forall d :: lo <= d <= hi ==> !p(d)
    ensures Count(p, lo, hi) == 0
    decreases hi - lo
  {
    if lo <= hi {
      CountNothing(p, lo, hi - 1);
    }
  }

  lemma CandidatesOfRule(d: int, m: Month)
    ensures Candidate(LEAP_RULE, d, m) <==> d == 14 || d == 16 || d == 17 || d == m.days - 14
  {
    assert -15 in MONTH_DAYS && 14 in MONTH_DAYS && 16 in MONTH_DAYS && 17 in MONTH_DAYS;
    assert forall n :: n in MONTH_DAYS ==> n == -15 || n == 14 || n == 16 || n == 17;
    assert OnMonthDay(14, d, m) <==> d == 14;
    assert OnMonthDay(16, d, m) <==> d == 16;
    assert OnMonthDay(17, d, m) <==> d == 17;
    assert OnMonthDay(-15, d, m) <==> d == m.days - 14;
  }

  /** The rule selects the 17th of a month of 29 days, and nothing else. */
  lemma RuleSelects(d: int, m: Month)
    requires 28 <= m.days <= 31
    ensures Selected(LEAP_RULE, d, m) <==> m.days == 29 && d == 17
  {
    var c := Candidates(LEAP_RULE, m);
    forall x ensures c(x) <==> x == 14 || x == 16 || x == 17 || x == m.days - 14 {
      CandidatesOfRule(x, m);
    }
    hide Candidate;
    CountNothing(c, 1, 13);
    assert Count(c, 1, 14) == 1;
    assert Count(c, 1, 15) == if m.days == 29 then 2 else 1;
    assert Count(c, 1, 16) == if m.days == 29 then 3 else 2;
    assert Count(c, 1, 17) == if m.days == 29 then 4 else 3;
    assert OnPosition(4, LEAP_RULE, d, m) <==> Count(c, 1, d) == 4;
  }

  // ----- the schedule -----

  /** 18 February 1972, and the 17th of the two leap Februaries around. */
  const AFTER: int := 778
  const NEXT_LEAP_DAY: int := 2238

  const AT: Time := AFTER * DAY

  /** From midnight to one o'clock, in UTC, with no end and no exceptions. */
  const LEAP_SCHEDULE: Schedule := Schedule(0, [], TEXT, "00:00", "01:00", AT, None, [], {})

  lemma NextJanuary(n: int, y: int)
    requires DateOf(n) == Date(y, 1, 1)
    ensures DateOf(n + if IsLeap(y) then 366 else 365) == Date(y + 1, 1, 1)
  {
    YearFromJanuary(n, y);
  }

  lemma Epoch()
    ensures DateOf(0) == Date(1970, 1, 1)
  {
  }

  lemma Januaries()
    ensures DateOf(730) == Date(1972, 1, 1) && DateOf(1096) == Date(1973, 1, 1) && DateOf(1461) == Date(1974, 1, 1)
    ensures DateOf(1826) == Date(1975, 1, 1) && DateOf(2191) == Date(1976, 1, 1)
  {
    hide DateOf;
    Epoch();
    NextJanuary(0, 1970);
    NextJanuary(365, 1971);
    NextJanuary(730, 1972);
    NextJanuary(1096, 1973);
    NextJanuary(1461, 1974);
    NextJanuary(1826, 1975);
  }

  lemma LeapDay()
    ensures DateOf(NEXT_LEAP_DAY) == Date(1976, 2, 17) && MonthOf(NEXT_LEAP_DAY).days == 29
  {
    hide DateOf;
    Januaries();
    YearFromJanuary(2191, 1976);
  }

  /** Between the two there is no 17th of a February of 29 days. */
  lemma NoLeapDayBetween(k: int)
    requires AFTER <= k < NEXT_LEAP_DAY
    ensures !(DateOf(k).day == 17 && MonthOf(k).days == 29)
  {
    hide DateOf, MonthOf;
    Januaries();
    if k < 1096 {
      YearFromJanuary(730, 1972);
    } else if k < 1461 {
      YearFromJanuary(1096, 1973);
    } else if k < 1826 {
      YearFromJanuary(1461, 1974);
    } else if k < 2191 {
      YearFromJanuary(1826, 1975);
    } else {
      YearFromJanuary(2191, 1976);
    }
  }

  lemma ClockTimes()
    ensures Clock("00:00") == 0 && Clock("01:00") == 60
  {
    assert "00:00"[..2] == "00" && "00:00"[3..] == "00" && "01:00"[..2] == "01" && "01:00"[3..] == "00";
    DecimalDigits(0);
    DecimalDigits(1);
    assert Decimal("00") == Some(0) && Decimal("01") == Some(1) by {
      assert "00"[..1] == "0" && "01"[..1] == "0" && "0"[..0] == "";
    }
  }

  lemma ScheduleStartsOn(k: int)
    ensures StartsOn(LEAP_SCHEDULE, k) <==> DateOf(k).day == 17 && MonthOf(k).days == 29
  {
    RuleIsAccepted();
    hide DateOf, Parse, Selected;
    RuleSelects(DateOf(k).day, MonthOf(k));
  }

  /** The schedule has an occurrence on 17 February 1976, and the search at 18 February 1972 finds none. */
  lemma NextOccurrenceIsMissed()
    ensures IsNext(LEAP_SCHEDULE, AT, NEXT_LEAP_DAY) && WindowAt(LEAP_SCHEDULE, AT) == None
  {
    ClockTimes();
    hide Clock, StartsOn, DateOf, MonthOf, WindowAt;
    ScheduleStartsOn(NEXT_LEAP_DAY);
    LeapDay();
    forall k | k < NEXT_LEAP_DAY && Occurs(LEAP_SCHEDULE, k) ensures false {
      ScheduleStartsOn(k);
      if AFTER <= k {
        NoLeapDayBetween(k);
      }
    }
    SearchStopsAtHorizon(LEAP_SCHEDULE, AT, NEXT_LEAP_DAY);
  }
}
