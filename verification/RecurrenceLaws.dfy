/** Which recurrence texts are accepted, and as what, exactly (internal/alert/mute_rrule.go). */
module RecurrenceLaws {
  import opened Base
  import opened Text
  import opened Recurrence
  import opened RecurrenceText

  // ----- case and spaces -----

  lemma {:induction false} LeadingSpace(s: string, c: char)
    requires IsSpace(c)
    ensures TrimSpace([c] + s) == TrimSpace(s)
  {
    assert ([c] + s)[1..] == s;
  }

  lemma {:induction false} TrailingSpace(s: string, c: char)
    requires IsSpace(c)
    ensures TrimSpace(s + [c]) == TrimSpace(s)
  {
    hide IsSpace;
    var t := s + [c];
    if s == "" {
      assert t[1..] == "";
    } else if IsSpace(s[0]) {
      assert t[1..] == s[1..] + [c];
      TrailingSpace(s[1..], c);
    } else {
      assert t[..|t| - 1] == s;
    }
  }

  /** Spaces around a rule mean nothing. */
  lemma SpacesDoNotMatter(s: string, c: char)
    requires IsSpace(c)
    ensures Parse([c] + s) == Parse(s) && Parse(s + [c]) == Parse(s)
  {
    LeadingSpace(s, c);
    TrailingSpace(s, c);
    hide TrimSpace, AddParts, Finish, Split;
  }

  lemma UpperKeepsSpaces(c: char)
    ensures IsSpace(Upper(c)) <==> IsSpace(c)
  {
  }

  lemma {:induction false} TrimThenUpper(s: string)
    ensures ToUpper(TrimSpace(s)) == TrimSpace(ToUpper(s))
    decreases |s|
  {
    hide Upper, IsSpace;
    var u := ToUpper(s);
    if s != "" {
      UpperKeepsSpaces(s[0]);
      UpperKeepsSpaces(s[|s| - 1]);
      if IsSpace(s[0]) {
        TrimThenUpper(s[1..]);
        assert u[1..] == ToUpper(s[1..]);
      } else if IsSpace(s[|s| - 1]) {
        TrimThenUpper(s[..|s| - 1]);
        assert u[..|u| - 1] == ToUpper(s[..|s| - 1]);
      }
    }
  }

  /** Neither does the case of its letters. */
  lemma CaseDoesNotMatter(s: string, t: string)
    requires ToUpper(s) == ToUpper(t)
    ensures Parse(s) == Parse(t)
  {
    TrimThenUpper(s);
    TrimThenUpper(t);
    hide ToUpper, TrimSpace, AddParts, Finish, Split;
  }

  /** An accepted rule is also accepted behind its property name. */
  lemma PrefixDoesNotMatter(r: Rule)
    requires Accepted(r)
    ensures Parse("RRULE:" + r.normalized) == Ok(r)
  {
    AcceptedReadsBack(r);
    NormalizedChars(r);
    PrefixedIsPrepared(r.normalized);
    hide Prepared, AddParts, Finish, Split, Accepted;
  }

  lemma NormalizedChars(r: Rule)
    requires Accepted(r)
    ensures r.normalized != "" && r.normalized[0] == 'F' && forall c :: c in r.normalized ==> TextChar(c)
  {
    var parts := RuleParts(r.freq, r.byDay, r.byMonthDay, r.bySetPos);
    RulePartsChars(r);
    assert parts[0] == "FREQ=" + r.freq && r.normalized == Join(parts, ';');
    hide Build, RuleParts, InRange;
    forall p | p in parts ensures forall c :: c in p ==> TextChar(c) {
      assert PartText(p);
    }
    JoinChars(parts, ';', TextChar);
  }

  lemma PrefixedIsPrepared(s: string)
    requires s != "" && s[0] == 'F' && forall c :: c in s ==> TextChar(c)
    ensures Prepared("RRULE:" + s) == Prepared(s) == s
  {
    PreparedKeeps(s);
    var t := "RRULE:" + s;
    assert s[|s| - 1] in s && t[|t| - 1] == s[|s| - 1];
    assert TrimSpace(t) == t;
    forall i | 0 <= i < |t| ensures Upper(t[i]) == t[i] {
      if i >= 6 {
        assert t[i] == s[i - 6] && TextChar(s[i - 6]);
      }
    }
    assert ToUpper(t) == t;
    assert TrimPrefix(t, "RRULE:") == s;
    assert s[0] in s;
    assert TrimSpace(s) == s;
  }

  // ----- the parts -----

  /** Key and value of a part, split at its first equals sign. */
  predicate Sets(part: string, k: string, v: string) {
    '=' !in k && part == k + "=" + v
  }

  lemma SetsIsCut(part: string, k: string, v: string)
    ensures Sets(part, k, v) <==> Cut(part, '=') == Some((k, v))
  {
    if Sets(part, k, v) {
      CutAt(k, v, '=');
      assert part == k + ['='] + v;
    }
  }

  /** A part is good on its own when it is empty, or sets one of the five names to a value that the name allows. */
  predicate GoodPart(part: string) {
    part == "" ||
    match Cut(part, '=')
    case None => false
    case Some(kv) =>
      && kv.1 != ""
      && (|| kv.0 == "FREQ" || kv.0 == "BYDAY" || (kv.0 == "INTERVAL" && kv.1 == "1")
          || ((kv.0 == "BYMONTHDAY" || kv.0 == "BYSETPOS") && IntList(kv.0, kv.1, 31).Ok?))
  }

  function NameOf(part: string): string {
    match Cut(part, '=')
    case None => part
    case Some(kv) => kv.0
  }

  /** No name is set twice. */
  predicate NamesOnce(parts: seq<string>) {
    forall i, j :: 0 <= i < j < |parts| && parts[i] != "" && parts[j] != "" ==> NameOf(parts[i]) != NameOf(parts[j])
  }

  predicate IsNamed(parts: seq<string>, k: string) {
    exists i :: 0 <= i < |parts| && parts[i] != "" && NameOf(parts[i]) == k
  }

  lemma IsNamedGrows(parts: seq<string>, p: string, k: string)
    ensures IsNamed(parts + [p], k) <==> IsNamed(parts, k) || (p != "" && NameOf(p) == k)
  {
    hide NameOf;
    var all := parts + [p];
    if i :| 0 <= i < |parts| && parts[i] != "" && NameOf(parts[i]) == k {
      assert all[i] == parts[i];
    }
    assert all[|parts|] == p;
    if i :| 0 <= i < |all| && all[i] != "" && NameOf(all[i]) == k {
      assert i < |parts| ==> all[i] == parts[i];
    }
  }

  lemma NamesOnceGrows(parts: seq<string>, p: string)
    ensures NamesOnce(parts + [p]) <==> NamesOnce(parts) && (p == "" || !IsNamed(parts, NameOf(p)))
  {
    hide NameOf;
    var all := parts + [p];
    assert all[|parts|] == p && all[..|parts|] == parts;
    if NamesOnce(all) {
      forall i, j | 0 <= i < j < |parts| && parts[i] != ""
          && parts[j] != "" ensures NameOf(parts[i]) != NameOf(parts[j]) {
        assert all[i] == parts[i] && all[j] == parts[j];
      }
      forall i | 0 <= i < |parts| && p != "" && parts[i] != "" ensures NameOf(parts[i]) != NameOf(p) {
        assert all[i] == parts[i];
      }
    }
  }

  lemma GoodIsAdded(d: Draft, p: string)
    ensures AddPart(d, p).Ok? <==> GoodPart(p) && (p == "" || NameOf(p) !in d.seen)
    ensures AddPart(d, p).Ok? ==> AddPart(d, p).value.seen == if p == "" then d.seen else d.seen + {NameOf(p)}
  {
    hide Cut, IntList, Split;
  }

  /** The parts are read exactly when each of them is good and no name is set twice. */
  lemma {:induction false} PartsAreExact(parts: seq<string>)
    ensures AddParts(parts).Ok? <==> NamesOnce(parts) && forall p :: p in parts ==> GoodPart(p)
    ensures AddParts(parts).Ok? ==> forall k :: k in AddParts(parts).value.seen <==> IsNamed(parts, k)
  {
    hide GoodPart, NameOf, AddPart;
    if parts != [] {
      var n := |parts| - 1;
      var init, p := parts[..n], parts[n];
      assert parts == init + [p];
      PartsAreExact(init);
      NamesOnceGrows(init, p);
      hide NamesOnce;
      forall k ensures IsNamed(parts, k) <==> IsNamed(init, k) || (p != "" && NameOf(p) == k) {
        IsNamedGrows(init, p, k);
      }
      hide IsNamed;
      if AddParts(init).Ok? {
        GoodIsAdded(AddParts(init).value, p);
      }
    }
  }

  /** What a name is set to is what is read for it. */
  predicate Reads(d: Draft, k: string, v: string) {
    && (k == "FREQ" ==> d.freq == v)
    && (k == "BYDAY" ==> d.rawDays == Split(v, ','))
    && (k == "BYMONTHDAY" ==> IntList(k, v, 31) == Ok(d.byMonthDay))
    && (k == "BYSETPOS" ==> IntList(k, v, 31) == Ok(d.bySetPos))
  }

  /** What holds of a name that no part sets. */
  predicate ReadsNothing(d: Draft, k: string) {
    && (k == "FREQ" ==> d.freq == "") && (k == "BYDAY" ==> d.rawDays == [])
    && (k == "BYMONTHDAY" ==> d.byMonthDay == []) && (k == "BYSETPOS" ==> d.bySetPos == [])
  }

  lemma SetPartReads(d: Draft, part: string, k: string, v: string)
    requires Sets(part, k, v) && AddPart(d, part).Ok?
    ensures Reads(AddPart(d, part).value, k, v) && k !in d.seen && k in AddPart(d, part).value.seen && NameOf(part) == k
    ensures part != ""
  {
    SetsIsCut(part, k, v);
    hide Cut, IntList, Split, Sets;
    assert part == "" ==> Cut(part, '=').None? by { CutOfNothing(); }
  }

  lemma CutOfNothing()
    ensures Cut("", '=').None?
  {
  }

  lemma OthersAreKept(d: Draft, part: string, k: string)
    requires AddPart(d, part).Ok? && (part == "" || NameOf(part) != k)
    ensures var e := AddPart(d, part).value;
            && (k == "FREQ" ==> e.freq == d.freq) && (k == "BYDAY" ==> e.rawDays == d.rawDays)
            && (k == "BYMONTHDAY" ==> e.byMonthDay == d.byMonthDay) && (k == "BYSETPOS" ==> e.bySetPos == d.bySetPos)
  {
    hide Cut, IntList, Split;
  }

  /** Each part of an accepted text counts as it is written, wherever it stands. */
  lemma {:induction false} PartIsRead(parts: seq<string>, i: nat, k: string, v: string)
    requires AddParts(parts).Ok? && i < |parts| && Sets(parts[i], k, v)
    ensures Reads(AddParts(parts).value, k, v)
  {
    hide Reads, AddPart, Sets, NameOf;
    var n := |parts| - 1;
    var init, p := parts[..n], parts[n];
    assert parts == init + [p];
    var d := AddParts(init).value;
    if i == n {
      SetPartReads(d, p, k, v);
    } else {
      assert init[i] == parts[i];
      PartIsRead(init, i, k, v);
      PartIsSeen(init, i, k, v);
      GoodIsAdded(d, p);
      OthersAreKept(d, p, k);
      ReadsAgree(d, AddPart(d, p).value, k, v);
    }
  }

  lemma ReadsAgree(d: Draft, e: Draft, k: string, v: string)
    requires Reads(d, k, v)
    requires (k == "FREQ" ==> e.freq == d.freq) && (k == "BYDAY" ==> e.rawDays == d.rawDays)
    requires (k == "BYMONTHDAY" ==> e.byMonthDay == d.byMonthDay) && (k == "BYSETPOS" ==> e.bySetPos == d.bySetPos)
    ensures Reads(e, k, v)
  {
    hide IntList, Split;
  }

  lemma PartIsSeen(parts: seq<string>, i: nat, k: string, v: string)
    requires AddParts(parts).Ok? && i < |parts| && Sets(parts[i], k, v)
    ensures k in AddParts(parts).value.seen
  {
    hide AddParts;
    PartsAreExact(parts);
    SetsIsCut(parts[i], k, v);
    CutOfNothing();
    hide Cut, GoodPart, NamesOnce;
  }

  /** A name that no part sets is read as nothing. */
  lemma {:induction false} NothingIsRead(parts: seq<string>, k: string)
    requires AddParts(parts).Ok? && !IsNamed(parts, k)
    ensures ReadsNothing(AddParts(parts).value, k)
  {
    hide AddPart, NameOf;
    if parts != [] {
      var n := |parts| - 1;
      var init, p := parts[..n], parts[n];
      assert parts == init + [p];
      IsNamedGrows(init, p, k);
      hide IsNamed;
      NothingIsRead(init, k);
      OthersAreKept(AddParts(init).value, p, k);
    }
  }

  // ----- weekdays -----

  /** A value of BYDAY is a weekday code, or one with a position from 1 to 5 or -1 to -5 in front. */
  lemma DayIsExact(t: string, d: Day)
    requires ValidDay(d)
    ensures ParseDay(t) == Some(d) <==>
            || (d.ord == 0 && t == CODES[d.wd])
            || (|t| > 2 && t[|t| - 2..] == CODES[d.wd] && Number(t[..|t| - 2], 5) == Some(d.ord))
  {
    hide Number;
    var k := if |t| > 2 then |t| - 2 else 0;
    CodeIndexRange(t[k..], 0);
    CodeReadsBack(d.wd);
    assert t[0..] == t;
    hide CodeIndex;
    if |t| > 2 {
      NumberNotZero(t[..k], 5);
    }
  }

  lemma NumberNotZero(x: string, max: int)
    ensures Number(x, max) != Some(0)
  {
    hide Atoi;
  }

  /** A number is what it reads as, signed or not, when it is not 0 and not above the limit either way. */
  lemma NumberIsExact(x: string, max: int, n: int)
    ensures Number(x, max) == Some(n) <==> Atoi(TrimPrefix(x, "+")) == Some(n) && n != 0 && -max <= n <= max
  {
    hide Atoi;
  }

  // ----- frequencies -----

  /** A daily rule takes no lists, a weekly one exactly weekdays without positions, and a monthly one weekdays or month
      days, with or without positions. */
  lemma FrequenciesAreExact(freq: string, byDay: seq<Day>, byMonthDay: seq<int>, bySetPos: seq<int>)
    requires forall d :: d in byDay ==> ValidDay(d)
    ensures Build(freq, byDay, byMonthDay, bySetPos).Ok? <==>
            || (freq == "DAILY" && byDay == [] && byMonthDay == [] && bySetPos == [])
            || (freq == "WEEKLY" && byDay != [] && byMonthDay == [] && bySetPos == []
                && forall d :: d in byDay ==> d.ord == 0)
            || (freq == "MONTHLY" && (byDay != [] || byMonthDay != []))
  {
    NoOrdinals(byDay);
    BuildIsExact(freq, byDay, byMonthDay, bySetPos);
    hide Build, FirstOrdinal, NormalizeDays, ValidDay;
    assert "DAILY"[0] == 'D' && "WEEKLY"[0] == 'W' && "MONTHLY"[0] == 'M';
  }

  /** The weekdays a rule takes place on, whatever the month: all of them daily, and the listed ones weekly. */
  ghost predicate TakesPlaceOn(freq: string, byDay: seq<Day>, wd: int) {
    (freq == "DAILY" && 0 <= wd < 7) || (freq == "WEEKLY" && exists d :: d in byDay && d.wd == wd)
  }

  /** A rule holds the lists as they are, and its weekdays. */
  lemma BuiltRuleIsExact(freq: string, byDay: seq<Day>, byMonthDay: seq<int>, bySetPos: seq<int>)
    requires (forall d :: d in byDay ==> ValidDay(d)) && Build(freq, byDay, byMonthDay, bySetPos).Ok?
    ensures var r := Build(freq, byDay, byMonthDay, bySetPos).value;
            && r.freq == freq && r.byDay == byDay && r.byMonthDay == byMonthDay && r.bySetPos == bySetPos
            && (forall wd :: wd in r.days <==> TakesPlaceOn(freq, byDay, wd))
  {
    BuildIsExact(freq, byDay, byMonthDay, bySetPos);
    hide Build, NormalizeDays, Weekdays, ValidDay;
    forall wd ensures wd in Build(freq, byDay, byMonthDay, bySetPos).value.days <==> TakesPlaceOn(freq, byDay, wd) {
      DaysTakePlace(freq, byDay, wd);
    }
  }

  lemma DaysTakePlace(freq: string, byDay: seq<Day>, wd: int)
    requires forall d :: d in byDay ==> ValidDay(d)
    ensures freq == "DAILY" ==> (wd in NormalizeDays(WEEK) <==> TakesPlaceOn(freq, byDay, wd))
    ensures freq == "WEEKLY" ==> (wd in NormalizeDays(Weekdays(byDay)) <==> TakesPlaceOn(freq, byDay, wd))
    ensures freq != "DAILY" && freq != "WEEKLY" ==> !TakesPlaceOn(freq, byDay, wd)
  {
    if freq == "DAILY" {
      assert freq[0] == 'D';
      EveryDay(wd);
    } else if freq == "WEEKLY" {
      assert freq[0] == 'W';
      ListedDays(byDay, wd);
    }
    hide NormalizeDays, Weekdays, ValidDay;
  }

  lemma EveryDay(wd: int)
    ensures wd in NormalizeDays(WEEK) <==> 0 <= wd < 7
  {
    WeekHolds(wd);
    forall d | d in WEEK ensures 0 <= d < 7 {
      WeekHolds(d);
    }
    hide WEEK;
    NormalizedDays(WEEK);
    hide NormalizeDays;
  }

  lemma WeekHolds(wd: int)
    ensures wd in WEEK <==> 0 <= wd < 7
  {
    if 0 <= wd < 7 {
      assert WEEK[wd] == wd;
    }
  }

  lemma ListedDays(ds: seq<Day>, wd: int)
    requires forall d :: d in ds ==> ValidDay(d)
    ensures wd in NormalizeDays(Weekdays(ds)) <==> exists d :: d in ds && d.wd == wd
  {
    var ws := Weekdays(ds);
    forall w | w in ws ensures 0 <= w < 7 {
      var i :| 0 <= i < |ws| && ws[i] == w;
      assert ds[i] in ds && ValidDay(ds[i]);
    }
    NormalizedDays(ws);
    hide NormalizeDays, ValidDay;
    if wd in ws {
      var i :| 0 <= i < |ws| && ws[i] == wd;
      assert ds[i] in ds;
    }
    if d :| d in ds && d.wd == wd {
      var i :| 0 <= i < |ds| && ds[i] == d;
      assert ws[i] == wd;
    }
  }

  lemma BuildIsExact(freq: string, byDay: seq<Day>, byMonthDay: seq<int>, bySetPos: seq<int>)
    requires forall d :: d in byDay ==> ValidDay(d)
    ensures var r := Build(freq, byDay, byMonthDay, bySetPos);
            && (freq == "DAILY" ==> r.Ok? == (byDay == [] && byMonthDay == [] && bySetPos == []))
            && (freq == "WEEKLY" ==>
                  r.Ok? == (byDay != [] && byMonthDay == [] && bySetPos == [] && FirstOrdinal(byDay).None?))
            && (freq == "MONTHLY" ==> r.Ok? == (byDay != [] || byMonthDay != []))
            && (freq != "DAILY" && freq != "WEEKLY" && freq != "MONTHLY" ==> r.Err?)
            && (r.Ok? ==>
                  && r.value.freq == freq && r.value.byDay == byDay && r.value.byMonthDay == byMonthDay
                  && r.value.bySetPos == bySetPos
                  && r.value.days == if freq == "DAILY" then NormalizeDays(WEEK)
                                     else if freq == "WEEKLY" then NormalizeDays(Weekdays(byDay)) else [])
  {
    hide Join, RuleParts, ValidDay, FirstOrdinal, NormalizeDays;
    assert "DAILY"[0] == 'D' && "WEEKLY"[0] == 'W' && "MONTHLY"[0] == 'M';
  }

  lemma {:induction false} NoOrdinals(ds: seq<Day>)
    ensures FirstOrdinal(ds).None? <==> forall d :: d in ds ==> d.ord == 0
  {
    if ds != [] {
      NoOrdinals(ds[1..]);
      assert ds == [ds[0]] + ds[1..];
    }
  }
}
