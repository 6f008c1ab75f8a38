/** The recurrence rules of mute schedules, a subset of section 3.3.10 of RFC 5545, and their normalized text
    (internal/alert/mute_rrule.go). */
module Recurrence {
  import opened Base
  import opened Text

  /** A BYDAY value: a weekday (0 is Sunday) and its position in the month, 0 for every one. */
  datatype Day = Day(ord: int, wd: int)

  datatype Rule = Rule(
    freq: string,
    days: seq<int>,
    byDay: seq<Day>,
    byMonthDay: seq<int>,
    bySetPos: seq<int>,
    normalized: string)

  datatype Error =
    | InvalidPart(part: string)
    | DuplicatePart(name: string)
    | InvalidValue(name: string, value: string)
    | OnlyInterval1
    | UnsupportedPart(name: string)
    | DailyTakesNoParts
    | WeeklyNeedsDays
    | WeeklyTakesOnlyDays
    | OrdinalNeedsMonthly(day: Day)
    | MonthlyNeedsDays
    | FreqRequired
    | FreqUnknown

  datatype Result<+T> = Ok(value: T) | Err(error: Error)

  // ----- distinct values in order -----

  predicate Distinct<T(==)>(s: seq<T>) {
    forall i, j :: 0 <= i < j < |s| ==> s[i] != s[j]
  }

  predicate Increasing<T(!new)>(s: seq<T>, key: T -> int) {
    forall i, j :: 0 <= i < j < |s| ==> key(s[i]) < key(s[j])
  }

  function AddNew<T(==)>(s: seq<T>, x: T): seq<T> {
    if x in s then s else s + [x]
  }

  function Insert<T>(s: seq<T>, x: T, key: T -> int): seq<T> {
    if s == [] then [x]
    else
      var n := |s| - 1;
      if key(s[n]) <= key(x) then s + [x] else Insert(s[..n], x, key) + [s[n]]
  }

  function Sort<T>(s: seq<T>, key: T -> int): seq<T> {
    if s == [] then [] else Insert(Sort(s[..|s| - 1], key), s[|s| - 1], key)
  }

  function Self(n: int): int {
    n
  }

  /** Monday first, then by position. Positions are within ±5. */
  function Order(d: Day): int {
    (d.wd + 6) % 7 * 11 + d.ord
  }

  lemma {:induction false} InsertMembers<T(!new)>(s: seq<T>, x: T, key: T -> int)
    ensures forall y :: y in Insert(s, x, key) <==> y in s || y == x
  {
    if s != [] && key(s[|s| - 1]) > key(x) {
      var n := |s| - 1;
      InsertMembers(s[..n], x, key);
      assert s == s[..n] + [s[n]];
    }
  }

  lemma IncreasingAppend<T(!new)>(s: seq<T>, x: T, key: T -> int)
    requires Increasing(s, key) && forall y :: y in s ==> key(y) < key(x)
    ensures Increasing(s + [x], key)
  {
  }

  lemma {:induction false} InsertInOrder<T(!new)>(s: seq<T>, x: T, key: T -> int)
    requires Increasing(s, key) && forall y :: y in s ==> key(y) != key(x)
    ensures Increasing(Insert(s, x, key), key)
  {
    if s != [] {
      var n := |s| - 1;
      assert s == s[..n] + [s[n]];
      forall y | y in s[..n] ensures key(y) < key(s[n]) {
        var i :| 0 <= i < n && s[i] == y;
      }
      assert Increasing(s[..n], key);
      hide Increasing;
      if key(s[n]) > key(x) {
        InsertInOrder(s[..n], x, key);
        InsertMembers(s[..n], x, key);
        IncreasingAppend(Insert(s[..n], x, key), s[n], key);
      } else {
        IncreasingAppend(s, x, key);
      }
    }
  }

  /** Sorting values with different keys gives the same values in increasing order. */
  lemma {:induction false} SortInOrder<T(!new)>(s: seq<T>, key: T -> int)
    requires forall i, j :: 0 <= i < j < |s| ==> key(s[i]) != key(s[j])
    ensures Increasing(Sort(s, key), key)
    ensures forall y :: y in Sort(s, key) <==> y in s
  {
    if s != [] {
      var n := |s| - 1;
      SortInOrder(s[..n], key);
      assert s == s[..n] + [s[n]];
      InsertInOrder(Sort(s[..n], key), s[n], key);
      InsertMembers(Sort(s[..n], key), s[n], key);
      hide Insert, Increasing;
    }
  }

  lemma {:induction false} SortSorted<T(!new)>(s: seq<T>, key: T -> int)
    requires Increasing(s, key)
    ensures Sort(s, key) == s
  {
    if s != [] {
      SortSorted(s[..|s| - 1], key);
    }
  }

  // ----- lists of numbers -----

  function Number(x: string, max: int): Option<int> {
    match Atoi(TrimPrefix(x, "+"))
    case None => None
    case Some(n) => if n == 0 || n < -max || n > max then None else Some(n)
  }

  function Numbers(name: string, xs: seq<string>, max: int): Result<seq<int>> {
    if xs == [] then Ok([])
    else
      var n := |xs| - 1;
      match Numbers(name, xs[..n], max)
      case Err(e) => Err(e)
      case Ok(out) =>
        match Number(xs[n], max)
        case None => Err(InvalidValue(name, xs[n]))
        case Some(v) => Ok(AddNew(out, v))
  }

  function IntList(name: string, v: string, max: int): Result<seq<int>> {
    match Numbers(name, Split(v, ','), max)
    case Err(e) => Err(e)
    case Ok(out) => Ok(Sort(out, Self))
  }

  /** Whether one of the texts is read as `v`. */
  ghost predicate Names(xs: seq<string>, max: int, v: Option<int>) {
    exists x :: x in xs && Number(x, max) == v
  }

  lemma NamesLast(xs: seq<string>, max: int, v: Option<int>)
    requires xs != []
    ensures Names(xs, max, v) <==> Names(xs[..|xs| - 1], max, v) || Number(xs[|xs| - 1], max) == v
  {
    hide Number;
    var n := |xs| - 1;
    assert xs == xs[..n] + [xs[n]];
    if Names(xs[..n], max, v) {
      var x :| x in xs[..n] && Number(x, max) == v;
      assert x in xs;
    }
    assert xs[n] in xs;
  }

  lemma {:induction false} NumbersAreDistinct(name: string, xs: seq<string>, max: int)
    ensures match Numbers(name, xs, max)
            case Ok(out) => !Names(xs, max, None) && Distinct(out) && forall n :: n in out <==> Names(xs, max, Some(n))
            case Err(_) => Names(xs, max, None)
  {
    if xs != [] {
      hide Number, Names;
      NumbersAreDistinct(name, xs[..|xs| - 1], max);
      forall v ensures Names(xs, max, v) <==> Names(xs[..|xs| - 1], max, v) || Number(xs[|xs| - 1], max) == v {
        NamesLast(xs, max, v);
      }
    }
  }

  /** A list is accepted exactly when each of its values is; it holds the values named in it, each once and in order. */
  lemma IntListIsExact(name: string, v: string, max: int)
    ensures IntList(name, v, max).Ok? <==> !Names(Split(v, ','), max, None)
    ensures IntList(name, v, max).Ok? ==>
              && Increasing(IntList(name, v, max).value, Self)
              && forall n :: n in IntList(name, v, max).value <==> Names(Split(v, ','), max, Some(n))
  {
    hide Names;
    NumbersAreDistinct(name, Split(v, ','), max);
    match Numbers(name, Split(v, ','), max)
    case Ok(out) => SortInOrder(out, Self);
    case Err(_) =>
  }

  method ParseIntList(name: string, v: string, max: int) returns (r: Result<seq<int>>)
    ensures r == IntList(name, v, max)
  {
    hide Number;
    var out: seq<int> := [];
    var seen: set<int> := {};
    var xs := Split(v, ',');
    for i := 0 to |xs|
      invariant Numbers(name, xs[..i], max) == Ok(out)
      invariant forall n :: n in seen <==> n in out
    {
      assert xs[..i + 1][..i] == xs[..i];
      var a := Number(xs[i], max);
      if a.None? {
        NumbersStop(name, xs, i + 1, max);
        return Err(InvalidValue(name, xs[i]));
      }
      if a.value !in seen {
        seen := seen + {a.value};
        out := out + [a.value];
      }
    }
    assert xs[..|xs|] == xs;
    r := Ok(Sort(out, Self));
  }

  lemma {:induction false} NumbersStop(name: string, xs: seq<string>, i: nat, max: int)
    requires i <= |xs| && Numbers(name, xs[..i], max).Err?
    ensures Numbers(name, xs, max) == Numbers(name, xs[..i], max)
  {
    if i < |xs| {
      assert xs[..|xs| - 1][..i] == xs[..i];
      NumbersStop(name, xs[..|xs| - 1], i, max);
    } else {
      assert xs[..i] == xs;
    }
  }

  // ----- weekdays -----

  const CODES: seq<string> := ["SU", "MO", "TU", "WE", "TH", "FR", "SA"]

  function CodeIndex(code: string, i: nat): int
    requires i <= |CODES|
    decreases |CODES| - i
  {
    if i == |CODES| then -1 else if CODES[i] == code then i else CodeIndex(code, i + 1)
  }

  method WeekdayCode(code: string) returns (wd: int)
    ensures wd == CodeIndex(code, 0)
  {
    for i := 0 to |CODES|
      invariant CodeIndex(code, 0) == CodeIndex(code, i)
    {
      if CODES[i] == code {
        return i;
      }
    }
    wd := -1;
  }

  /** A weekday code with an optional position in front. */
  function ParseDay(d: string): (r: Option<Day>)
  {
    var k := if |d| > 2 then |d| - 2 else 0;
    var ord := if k > 0 then Number(d[..k], 5) else Some(0);
    var wd := CodeIndex(d[k..], 0);
    if ord.None? || wd < 0 then None else Some(Day(ord.value, wd))
  }

  function ParseDays(xs: seq<string>): Result<seq<Day>> {
    if xs == [] then Ok([])
    else
      var n := |xs| - 1;
      match ParseDays(xs[..n])
      case Err(e) => Err(e)
      case Ok(out) =>
        match ParseDay(xs[n])
        case None => Err(InvalidValue("BYDAY", xs[n]))
        case Some(d) => Ok(AddNew(out, d))
  }

  predicate ValidDay(d: Day) {
    -5 <= d.ord <= 5 && 0 <= d.wd < 7
  }

  lemma OrderIsLexicographic(a: Day, b: Day)
    requires ValidDay(a) && ValidDay(b)
    ensures Order(a) < Order(b) <==>
            (a.wd + 6) % 7 < (b.wd + 6) % 7 || ((a.wd + 6) % 7 == (b.wd + 6) % 7 && a.ord < b.ord)
    ensures Order(a) == Order(b) <==> a == b
  {
    assert (a.wd + 6) % 7 == if a.wd == 0 then 6 else a.wd - 1;
    assert (b.wd + 6) % 7 == if b.wd == 0 then 6 else b.wd - 1;
  }

  lemma CodeIndexRange(code: string, i: nat)
    requires i <= |CODES|
    ensures -1 <= CodeIndex(code, i) < 7 && (CodeIndex(code, i) >= 0 ==> CODES[CodeIndex(code, i)] == code)
    decreases |CODES| - i
  {
    if i < |CODES| {
      CodeIndexRange(code, i + 1);
    }
  }

  lemma {:induction false} DaysAreDistinct(xs: seq<string>)
    ensures match ParseDays(xs)
            case Ok(out) => Distinct(out) && forall d :: d in out ==> ValidDay(d)
            case Err(_) => true
  {
    if xs != [] {
      var n := |xs| - 1;
      DaysAreDistinct(xs[..n]);
      CodeIndexRange(if |xs[n]| > 2 then xs[n][|xs[n]| - 2..] else xs[n][0..], 0);
    }
  }

  method ParseByDay(raw: seq<string>) returns (r: Result<seq<Day>>)
    ensures r == ParseDays(raw)
  {
    hide Number, CodeIndex;
    var out: seq<Day> := [];
    var seen: set<Day> := {};
    for i := 0 to |raw|
      invariant ParseDays(raw[..i]) == Ok(out)
      invariant forall d :: d in seen <==> d in out
    {
      assert raw[..i + 1][..i] == raw[..i];
      var d := raw[i];
      var code, ord := d, 0;
      assert d[0..] == d;
      if |d| > 2 {
        var n := Number(d[..|d| - 2], 5);
        if n.None? {
          DaysStop(raw, i + 1);
          return Err(InvalidValue("BYDAY", d));
        }
        ord, code := n.value, d[|d| - 2..];
      }
      var wd := WeekdayCode(code);
      if wd < 0 {
        DaysStop(raw, i + 1);
        return Err(InvalidValue("BYDAY", d));
      }
      if Day(ord, wd) !in seen {
        seen := seen + {Day(ord, wd)};
        out := out + [Day(ord, wd)];
      }
    }
    assert raw[..|raw|] == raw;
    r := Ok(out);
  }

  lemma {:induction false} DaysStop(xs: seq<string>, i: nat)
    requires i <= |xs| && ParseDays(xs[..i]).Err?
    ensures ParseDays(xs) == ParseDays(xs[..i])
  {
    if i < |xs| {
      assert xs[..|xs| - 1][..i] == xs[..i];
      DaysStop(xs[..|xs| - 1], i);
    } else {
      assert xs[..i] == xs;
    }
  }

  // ----- the parts of a rule -----

  /** What has been read of a rule. */
  datatype Draft = Draft(seen: set<string>, freq: string, rawDays: seq<string>, byMonthDay: seq<int>,
      bySetPos: seq<int>)

  const EMPTY: Draft := Draft({}, "", [], [], [])

  const MAX_DAY: int := 31

  function AddPart(d: Draft, part: string): Result<Draft> {
    if part == "" then Ok(d)
    else
      match Cut(part, '=')
      case None => Err(InvalidPart(part))
      case Some((k, v)) =>
        if v == "" then Err(InvalidPart(part))
        else if k in d.seen then Err(DuplicatePart(k))
        else SetPart(d.(seen := d.seen + {k}), k, v)
  }

  function SetPart(d: Draft, k: string, v: string): Result<Draft> {
    if k == "FREQ" then Ok(d.(freq := v))
    else if k == "BYDAY" then Ok(d.(rawDays := Split(v, ',')))
    else if k == "BYMONTHDAY" then
      match IntList(k, v, MAX_DAY) { case Err(e) => Err(e) case Ok(ns) => Ok(d.(byMonthDay := ns)) }
    else if k == "BYSETPOS" then
      match IntList(k, v, MAX_DAY) { case Err(e) => Err(e) case Ok(ns) => Ok(d.(bySetPos := ns)) }
    else if k == "INTERVAL" then if v == "1" then Ok(d) else Err(OnlyInterval1)
    else Err(UnsupportedPart(k))
  }

  function AddParts(parts: seq<string>): Result<Draft> {
    if parts == [] then Ok(EMPTY)
    else
      match AddParts(parts[..|parts| - 1])
      case Err(e) => Err(e)
      case Ok(d) => AddPart(d, parts[|parts| - 1])
  }

  // ----- the rule and its normalized text -----

  function DayText(d: Day): string
    requires ValidDay(d)
  {
    (if d.ord == 0 then "" else Itoa(d.ord)) + CODES[d.wd]
  }

  function DayTexts(ds: seq<Day>): seq<string>
    requires forall d :: d in ds ==> ValidDay(d)
  {
    seq(|ds|, i requires 0 <= i < |ds| => assert ds[i] in ds; DayText(ds[i]))
  }

  function IntTexts(ns: seq<int>): seq<string> {
    seq(|ns|, i requires 0 <= i < |ns| => Itoa(ns[i]))
  }

  /** A part that is written only when its list is not empty. */
  function Listed(name: string, texts: seq<string>): seq<string> {
    if texts == [] then [] else [name + "=" + Join(texts, ',')]
  }

  function RuleParts(freq: string, byDay: seq<Day>, byMonthDay: seq<int>, bySetPos: seq<int>): seq<string>
    requires forall d :: d in byDay ==> ValidDay(d)
  {
    ["FREQ=" + freq] + Listed("BYDAY", DayTexts(byDay)) + Listed("BYMONTHDAY", IntTexts(byMonthDay))
    + Listed("BYSETPOS", IntTexts(bySetPos))
  }

  function MondayFirst(wd: int): int {
    (wd + 6) % 7
  }

  function Unique<T(==, !new)>(s: seq<T>): (r: seq<T>)
    ensures Distinct(r) && forall x :: x in r <==> x in s
  {
    if s == [] then [] else assert s == s[..|s| - 1] + [s[|s| - 1]]; AddNew(Unique(s[..|s| - 1]), s[|s| - 1])
  }

  /** Each weekday once, Monday first. */
  function NormalizeDays(days: seq<int>): seq<int> {
    Sort(Unique(days), MondayFirst)
  }

  lemma NormalizedDays(days: seq<int>)
    requires forall d :: d in days ==> 0 <= d < 7
    ensures Increasing(NormalizeDays(days), MondayFirst)
    ensures forall d :: d in NormalizeDays(days) <==> d in days
  {
    var u := Unique(days);
    forall i, j | 0 <= i < j < |u| ensures MondayFirst(u[i]) != MondayFirst(u[j]) {
      assert u[i] in u && u[j] in u;
    }
    SortInOrder(u, MondayFirst);
  }

  const WEEK: seq<int> := [0, 1, 2, 3, 4, 5, 6]

  function Weekdays(ds: seq<Day>): seq<int> {
    seq(|ds|, i requires 0 <= i < |ds| => ds[i].wd)
  }

  function FirstOrdinal(ds: seq<Day>): Option<Day> {
    if ds == [] then None else if ds[0].ord != 0 then Some(ds[0]) else FirstOrdinal(ds[1..])
  }

  /** The rule of a frequency and its lists, or what is wrong with them. */
  function Build(freq: string, byDay: seq<Day>, byMonthDay: seq<int>, bySetPos: seq<int>): Result<Rule>
    requires forall d :: d in byDay ==> ValidDay(d)
  {
    var text := Join(RuleParts(freq, byDay, byMonthDay, bySetPos), ';');
    if freq == "DAILY" then
      if byDay != [] || byMonthDay != [] || bySetPos != [] then Err(DailyTakesNoParts)
      else Ok(Rule(freq, NormalizeDays(WEEK), [], [], [], text))
    else if freq == "WEEKLY" then
      if byDay == [] then Err(WeeklyNeedsDays)
      else if byMonthDay != [] || bySetPos != [] then Err(WeeklyTakesOnlyDays)
      else if FirstOrdinal(byDay).Some? then Err(OrdinalNeedsMonthly(FirstOrdinal(byDay).value))
      else Ok(Rule(freq, NormalizeDays(Weekdays(byDay)), byDay, [], [], text))
    else if freq == "MONTHLY" then
      if byDay == [] && byMonthDay == [] then Err(MonthlyNeedsDays)
      else Ok(Rule(freq, [], byDay, byMonthDay, bySetPos, text))
    else if freq == "" then Err(FreqRequired)
    else Err(FreqUnknown)
  }

  lemma SortedDaysValid(raw: seq<string>)
    requires ParseDays(raw).Ok?
    ensures var ds := ParseDays(raw).value;
            Increasing(Sort(ds, Order), Order) && forall d :: d in Sort(ds, Order) <==> d in ds
    ensures forall d :: d in Sort(ParseDays(raw).value, Order) ==> ValidDay(d)
  {
    DaysAreDistinct(raw);
    var ds := ParseDays(raw).value;
    forall i, j | 0 <= i < j < |ds| ensures Order(ds[i]) != Order(ds[j]) {
      assert ds[i] in ds && ds[j] in ds;
      OrderIsLexicographic(ds[i], ds[j]);
    }
    SortInOrder(ds, Order);
  }

  function Finish(d: Draft): Result<Rule> {
    match ParseDays(d.rawDays)
    case Err(e) => Err(e)
    case Ok(ds) =>
      SortedDaysValid(d.rawDays);
      Build(d.freq, Sort(ds, Order), d.byMonthDay, d.bySetPos)
  }

  function Prepared(s: string): string {
    TrimSpace(TrimPrefix(ToUpper(TrimSpace(s)), "RRULE:"))
  }

  function Parse(s: string): Result<Rule> {
    match AddParts(Split(Prepared(s), ';'))
    case Err(e) => Err(e)
    case Ok(d) => Finish(d)
  }

  lemma {:induction false} PartsStop(parts: seq<string>, i: nat)
    requires i <= |parts| && AddParts(parts[..i]).Err?
    ensures AddParts(parts) == AddParts(parts[..i])
  {
    if i < |parts| {
      assert parts[..|parts| - 1][..i] == parts[..i];
      PartsStop(parts[..|parts| - 1], i);
    } else {
      assert parts[..i] == parts;
    }
  }

  method ReadParts(parts: seq<string>) returns (r: Result<Draft>)
    ensures r == AddParts(parts)
  {
    hide Split, Cut, IntList;
    var seen: set<string>, freq, rawDays: seq<string>, byMonthDay: seq<int>, bySetPos: seq<int> := {}, "", [], [], [];
    for i := 0 to |parts|
      invariant AddParts(parts[..i]) == Ok(Draft(seen, freq, rawDays, byMonthDay, bySetPos))
    {
      var part := parts[i];
      assert parts[..i + 1][..i] == parts[..i];
      var kv := Cut(part, '=');
      r := Err(InvalidPart(part));
      if part == "" {
        continue;
      }
      if kv.None? || kv.value.1 == "" {
        PartsStop(parts, i + 1);
        return;
      }
      var (k, v) := kv.value;
      if k in seen {
        PartsStop(parts, i + 1);
        return Err(DuplicatePart(k));
      }
      seen := seen + {k};
      if k == "FREQ" {
        freq := v;
      } else if k == "BYDAY" {
        rawDays := Split(v, ',');
      } else if k == "BYMONTHDAY" || k == "BYSETPOS" {
        var ns := ParseIntList(k, v, MAX_DAY);
        if ns.Err? {
          PartsStop(parts, i + 1);
          return Err(ns.error);
        }
        if k == "BYMONTHDAY" {
          byMonthDay := ns.value;
        } else {
          bySetPos := ns.value;
        }
      } else if k != "INTERVAL" {
        PartsStop(parts, i + 1);
        return Err(UnsupportedPart(k));
      } else if v != "1" {
        PartsStop(parts, i + 1);
        return Err(OnlyInterval1);
      }
    }
    assert parts[..|parts|] == parts;
    r := Ok(Draft(seen, freq, rawDays, byMonthDay, bySetPos));
  }

  method BuildWeekly(byDay: seq<Day>) returns (r: Result<Rule>)
    requires byDay != [] && forall d :: d in byDay ==> ValidDay(d)
    ensures r == Build("WEEKLY", byDay, [], [])
  {
    var days: seq<int>, codes: seq<string> := [], [];
    for i := 0 to |byDay|
      invariant days == Weekdays(byDay[..i])
      invariant (forall d :: d in byDay[..i] ==> ValidDay(d)) && codes == DayTexts(byDay[..i])
      invariant FirstOrdinal(byDay) == FirstOrdinal(byDay[i..])
    {
      var e := byDay[i];
      assert e in byDay;
      if e.ord != 0 {
        return Err(OrdinalNeedsMonthly(e));
      }
      days := days + [e.wd];
      codes := codes + [CODES[e.wd]];
      assert byDay[..i + 1] == byDay[..i] + [e];
      assert DayText(e) == CODES[e.wd];
    }
    assert byDay[..|byDay|] == byDay;
    WeeklyText(byDay);
    r := Ok(Rule("WEEKLY", NormalizeDays(days), byDay, [], [], "FREQ=WEEKLY;BYDAY=" + Join(codes, ',')));
  }

  lemma WeeklyText(byDay: seq<Day>)
    requires byDay != [] && forall d :: d in byDay ==> ValidDay(d)
    ensures Join(RuleParts("WEEKLY", byDay, [], []), ';') == "FREQ=WEEKLY;BYDAY=" + Join(DayTexts(byDay), ',')
  {
    var list := Join(DayTexts(byDay), ',');
    var first, second := "FREQ=" + "WEEKLY", "BYDAY" + "=" + list;
    assert RuleParts("WEEKLY", byDay, [], []) == [first] + [second] by {
      hide Join, DayText, Itoa;
      assert IntTexts([]) == [];
    }
    assert Join([first], ';') == first;
    hide RuleParts, DayTexts, Join, Itoa, DayText, ValidDay;
    JoinAppend([first], second, ';');
    assert first + [';'] + second == "FREQ=WEEKLY;BYDAY=" + list;
  }

  method BuildMonthly(byDay: seq<Day>, byMonthDay: seq<int>, bySetPos: seq<int>) returns (r: Result<Rule>)
    requires (byDay != [] || byMonthDay != []) && forall d :: d in byDay ==> ValidDay(d)
    ensures r == Build("MONTHLY", byDay, byMonthDay, bySetPos)
  {
    var parts := ["FREQ=MONTHLY"];
    if |byDay| > 0 {
      var codes: seq<string> := [];
      for i := 0 to |byDay|
        invariant (forall d :: d in byDay[..i] ==> ValidDay(d)) && codes == DayTexts(byDay[..i])
      {
        var e := byDay[i];
        assert e in byDay;
        var c := CODES[e.wd];
        if e.ord != 0 {
          c := Itoa(e.ord) + c;
        }
        assert c == DayText(e);
        codes := codes + [c];
        assert byDay[..i + 1] == byDay[..i] + [e];
      }
      assert byDay[..|byDay|] == byDay;
      parts := parts + ["BYDAY=" + Join(codes, ',')];
    }
    if |byMonthDay| > 0 {
      parts := parts + ["BYMONTHDAY=" + Join(IntTexts(byMonthDay), ',')];
    }
    if |bySetPos| > 0 {
      parts := parts + ["BYSETPOS=" + Join(IntTexts(bySetPos), ',')];
    }
    assert "FREQ=" + "MONTHLY" == "FREQ=MONTHLY" && "BYDAY" + "=" == "BYDAY=";
    assert "BYMONTHDAY" + "=" == "BYMONTHDAY=" && "BYSETPOS" + "=" == "BYSETPOS=";
    assert parts == RuleParts("MONTHLY", byDay, byMonthDay, bySetPos);
    r := Ok(Rule("MONTHLY", [], byDay, byMonthDay, bySetPos, Join(parts, ';')));
  }

  method ParseRecurrence(s: string) returns (r: Result<Rule>)
    ensures r == Parse(s)
  {
    hide Prepared, Split, ParseDays, AddParts;
    var draft := ReadParts(Split(Prepared(s), ';'));
    if draft.Err? {
      return Err(draft.error);
    }
    var Draft(_, freq, rawDays, byMonthDay, bySetPos) := draft.value;
    var days := ParseByDay(rawDays);
    if days.Err? {
      return Err(days.error);
    }
    SortedDaysValid(rawDays);
    var byDay := Sort(days.value, Order);
    hide Sort, Join, RuleParts, NormalizeDays;
    if freq == "DAILY" {
      if |byDay| > 0 || |byMonthDay| > 0 || |bySetPos| > 0 {
        return Err(DailyTakesNoParts);
      }
      DailyText();
      return Ok(Rule("DAILY", NormalizeDays(WEEK), [], [], [], "FREQ=DAILY"));
    } else if freq == "WEEKLY" {
      if |byDay| == 0 {
        return Err(WeeklyNeedsDays);
      }
      if |byMonthDay| > 0 || |bySetPos| > 0 {
        return Err(WeeklyTakesOnlyDays);
      }
      r := BuildWeekly(byDay);
    } else if freq == "MONTHLY" {
      if |byDay| == 0 && |byMonthDay| == 0 {
        return Err(MonthlyNeedsDays);
      }
      r := BuildMonthly(byDay, byMonthDay, bySetPos);
    } else {
      r := if freq == "" then Err(FreqRequired) else Err(FreqUnknown);
    }
  }

  lemma DailyText()
    ensures Join(RuleParts("DAILY", [], [], []), ';') == "FREQ=DAILY"
  {
    assert IntTexts([]) == [] && DayTexts([]) == [];
    assert "FREQ=" + "DAILY" == "FREQ=DAILY";
    assert RuleParts("DAILY", [], [], []) == ["FREQ=DAILY"];
  }
}
