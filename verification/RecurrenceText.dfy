/** Every accepted rule is read back from its normalized text. */
module RecurrenceText {
  import opened Base
  import opened Text
  import opened Recurrence

  predicate InRange(ns: seq<int>) {
    Increasing(ns, Self) && forall n :: n in ns ==> n != 0 && -MAX_DAY <= n <= MAX_DAY
  }

  ghost predicate DaysInOrder(ds: seq<Day>) {
    Increasing(ds, Order) && forall d :: d in ds ==> ValidDay(d)
  }

  /** What every accepted rule is: its lists in order, and the rest of it built from them. */
  ghost predicate Accepted(r: Rule) {
    && DaysInOrder(r.byDay) && InRange(r.byMonthDay) && InRange(r.bySetPos)
    && Build(r.freq, r.byDay, r.byMonthDay, r.bySetPos) == Ok(r)
  }

  // ----- accepted rules -----

  lemma IntListInRange(name: string, v: string)
    requires IntList(name, v, MAX_DAY).Ok?
    ensures InRange(IntList(name, v, MAX_DAY).value)
  {
    IntListIsExact(name, v, MAX_DAY);
    var ns := IntList(name, v, MAX_DAY).value;
    forall n | n in ns ensures n != 0 && -MAX_DAY <= n <= MAX_DAY {
      var x :| x in Split(v, ',') && Number(x, MAX_DAY) == Some(n);
    }
  }

  lemma {:induction false} PartsInRange(parts: seq<string>)
    requires AddParts(parts).Ok?
    ensures InRange(AddParts(parts).value.byMonthDay) && InRange(AddParts(parts).value.bySetPos)
  {
    if parts != [] {
      var n := |parts| - 1;
      PartsInRange(parts[..n]);
      hide InRange, Split, IntList;
      var kv := Cut(parts[n], '=');
      if kv.Some? && (kv.value.0 == "BYMONTHDAY" || kv.value.0 == "BYSETPOS")
         && IntList(kv.value.0, kv.value.1, MAX_DAY).Ok? {
        IntListInRange(kv.value.0, kv.value.1);
      }
    }
  }

  lemma BuildKeeps(freq: string, byDay: seq<Day>, byMonthDay: seq<int>, bySetPos: seq<int>)
    requires (forall d :: d in byDay ==> ValidDay(d)) && Build(freq, byDay, byMonthDay, bySetPos).Ok?
    ensures var r := Build(freq, byDay, byMonthDay, bySetPos).value;
            r.freq == freq && r.byDay == byDay && r.byMonthDay == byMonthDay && r.bySetPos == bySetPos
  {
    hide Join, RuleParts, NormalizeDays, ValidDay;
  }

  lemma ParsedIsAccepted(s: string)
    requires Parse(s).Ok?
    ensures Accepted(Parse(s).value)
  {
    var parts := Split(Prepared(s), ';');
    PartsInRange(parts);
    var d := AddParts(parts).value;
    SortedDaysValid(d.rawDays);
    hide Sort, ParseDays, AddParts, Build, InRange, Order, Increasing, ValidDay, Split, Prepared;
    BuildKeeps(d.freq, Sort(ParseDays(d.rawDays).value, Order), d.byMonthDay, d.bySetPos);
  }

  // ----- reading the lists back -----

  lemma NumberReadsBack(n: int, max: int)
    requires n != 0 && -max <= n <= max && max <= MAX_DAY
    ensures Number(Itoa(n), max) == Some(n)
  {
    AtoiItoa(n);
    var s := Itoa(n);
    assert !("+" <= s);
  }

  lemma IncreasingFront<T(!new)>(s: seq<T>, key: T -> int)
    requires s != [] && Increasing(s, key)
    ensures Increasing(s[..|s| - 1], key) && s[|s| - 1] !in s[..|s| - 1]
  {
  }

  lemma InRangeFront(ns: seq<int>)
    requires InRange(ns) && ns != []
    ensures var k := |ns| - 1;
            InRange(ns[..k]) && ns[k] !in ns[..k] && ns[k] != 0 && -MAX_DAY <= ns[k] <= MAX_DAY
  {
    var k := |ns| - 1;
    IncreasingFront(ns, Self);
    assert ns[k] in ns;
    hide Increasing;
    forall n | n in ns[..k] ensures n != 0 && -MAX_DAY <= n <= MAX_DAY {
      var i :| 0 <= i < k && ns[i] == n;
      assert ns[i] in ns;
    }
  }

  lemma NumbersNext(name: string, xs: seq<string>, x: string)
    requires Numbers(name, xs, MAX_DAY).Ok? && Number(x, MAX_DAY).Some?
    ensures Numbers(name, xs + [x], MAX_DAY) == Ok(AddNew(Numbers(name, xs, MAX_DAY).value, Number(x, MAX_DAY).value))
  {
    hide Number;
    assert (xs + [x])[..|xs|] == xs;
  }

  lemma {:induction false} NumbersReadBack(name: string, ns: seq<int>)
    requires InRange(ns)
    ensures Numbers(name, IntTexts(ns), MAX_DAY) == Ok(ns)
  {
    if ns != [] {
      var k := |ns| - 1;
      InRangeFront(ns);
      hide Numbers, Number, Itoa, InRange;
      assert ns == ns[..k] + [ns[k]];
      NumbersReadBack(name, ns[..k]);
      NumberReadsBack(ns[k], MAX_DAY);
      assert IntTexts(ns) == IntTexts(ns[..k]) + [Itoa(ns[k])];
      NumbersNext(name, IntTexts(ns[..k]), Itoa(ns[k]));
    }
  }

  lemma IntListReadsBack(name: string, ns: seq<int>)
    requires InRange(ns) && ns != []
    ensures IntList(name, Join(IntTexts(ns), ','), MAX_DAY) == Ok(ns)
  {
    hide Numbers, Itoa, Sort, Split, Join;
    forall t | t in IntTexts(ns) ensures ',' !in t {
      var i :| 0 <= i < |ns| && t == Itoa(ns[i]);
    }
    SplitJoin(IntTexts(ns), ',');
    NumbersReadBack(name, ns);
    SortSorted(ns, Self);
  }

  lemma DayReadsBack(d: Day)
    requires ValidDay(d)
    ensures ParseDay(DayText(d)) == Some(d)
    ensures DayText(d) != "" && forall c :: c in DayText(d) ==> IsDigit(c) || c == '-' || 'A' <= c <= 'Z'
  {
    var t := DayText(d);
    var code := CODES[d.wd];
    assert CodeIndex(code, 0) == d.wd by {
      CodeReadsBack(d.wd);
    }
    hide CodeIndex;
    if d.ord == 0 {
      assert t == code && t[0..] == code;
    } else {
      NumberReadsBack(d.ord, 5);
      hide Number;
      var k := |Itoa(d.ord)|;
      assert t[..k] == Itoa(d.ord) && t[k..] == code;
    }
  }

  lemma CodeReadsBack(wd: int)
    requires 0 <= wd < 7
    ensures CodeIndex(CODES[wd], 0) == wd && |CODES[wd]| == 2 && forall c :: c in CODES[wd] ==> 'A' <= c <= 'Z'
  {
    CodeIndexFinds(wd, 0);
  }

  lemma {:induction false} CodeIndexFinds(wd: int, i: nat)
    requires i <= wd < 7
    ensures CodeIndex(CODES[wd], i) == wd
    decreases wd - i
  {
    if i < wd {
      CodesDiffer(i, wd);
      CodeIndexFinds(wd, i + 1);
    }
  }

  lemma CodesDiffer(i: nat, j: nat)
    requires i < j < 7
    ensures CODES[i] != CODES[j]
  {
    var a, b := CODES[i], CODES[j];
    assert a[0] != b[0] || a[1] != b[1];
  }

  lemma DaysNext(xs: seq<string>, x: string)
    requires ParseDays(xs).Ok? && ParseDay(x).Some?
    ensures ParseDays(xs + [x]) == Ok(AddNew(ParseDays(xs).value, ParseDay(x).value))
  {
    hide ParseDay;
    assert (xs + [x])[..|xs|] == xs;
  }

  lemma {:induction false} DaysReadBack(ds: seq<Day>)
    requires DaysInOrder(ds)
    ensures ParseDays(DayTexts(ds)) == Ok(ds)
  {
    if ds != [] {
      var k := |ds| - 1;
      hide ParseDays, ParseDay, DayText, Order;
      IncreasingFront(ds, Order);
      assert ds == ds[..k] + [ds[k]];
      DaysReadBack(ds[..k]);
      DayReadsBack(ds[k]);
      assert DayTexts(ds) == DayTexts(ds[..k]) + [DayText(ds[k])];
      DaysNext(DayTexts(ds[..k]), DayText(ds[k]));
    }
  }

  // ----- reading the parts back -----

  lemma JoinNotEmpty(texts: seq<string>, sep: char)
    requires texts != [] && texts[0] != ""
    ensures Join(texts, sep) != ""
  {
  }

  lemma AddNamed(d: Draft, k: string, v: string)
    requires '=' !in k && k !in d.seen && v != ""
    ensures AddPart(d, k + "=" + v) == SetPart(d.(seen := d.seen + {k}), k, v)
  {
    CutAt(k, v, '=');
    assert k + "=" + v == k + ['='] + v;
    hide Cut, SetPart;
  }

  lemma AddDays(d: Draft, ds: seq<Day>)
    requires ds != [] && DaysInOrder(ds) && "BYDAY" !in d.seen
    ensures AddPart(d, "BYDAY" + "=" + Join(DayTexts(ds), ',')) ==
            Ok(d.(seen := d.seen + {"BYDAY"}, rawDays := DayTexts(ds)))
  {
    DayTextsPlain(ds);
    hide DayTexts, Join, Split, AddPart;
    JoinNotEmpty(DayTexts(ds), ',');
    SplitJoin(DayTexts(ds), ',');
    NamesDiffer();
    AddNamed(d, "BYDAY", Join(DayTexts(ds), ','));
  }

  lemma DayTextsPlain(ds: seq<Day>)
    requires ds != [] && forall d :: d in ds ==> ValidDay(d)
    ensures |DayTexts(ds)| == |ds| && DayTexts(ds)[0] != "" && forall t :: t in DayTexts(ds) ==> ',' !in t
  {
    hide DayText, ParseDay;
    forall t | t in DayTexts(ds) ensures ',' !in t && t != "" {
      var i :| 0 <= i < |ds| && t == DayText(ds[i]);
      assert ds[i] in ds;
      DayReadsBack(ds[i]);
    }
    assert DayTexts(ds)[0] in DayTexts(ds);
  }

  lemma AddInts(d: Draft, k: string, ns: seq<int>)
    requires ns != [] && InRange(ns) && k !in d.seen && (k == "BYMONTHDAY" || k == "BYSETPOS")
    ensures var next := d.(seen := d.seen + {k});
            AddPart(d, k + "=" + Join(IntTexts(ns), ',')) ==
            Ok(if k == "BYMONTHDAY" then next.(byMonthDay := ns) else next.(bySetPos := ns))
  {
    assert IntTexts(ns)[0] != "";
    hide Join, IntList, Itoa;
    JoinNotEmpty(IntTexts(ns), ',');
    IntListReadsBack(k, ns);
    hide AddPart, SetPart, InRange, IntTexts;
    AddNamed(d, k, Join(IntTexts(ns), ','));
    SetInts(d.(seen := d.seen + {k}), k, Join(IntTexts(ns), ','));
  }

  lemma SetInts(d: Draft, k: string, v: string)
    requires (k == "BYMONTHDAY" || k == "BYSETPOS") && IntList(k, v, MAX_DAY).Ok?
    ensures var ns := IntList(k, v, MAX_DAY).value;
            SetPart(d, k, v) == Ok(if k == "BYMONTHDAY" then d.(byMonthDay := ns) else d.(bySetPos := ns))
  {
    hide IntList, Split;
    NamesDiffer();
  }

  lemma AddListed(parts: seq<string>, d: Draft, name: string, texts: seq<string>, next: Draft)
    requires AddParts(parts) == Ok(d)
    requires if texts == [] then next == d else AddPart(d, name + "=" + Join(texts, ',')) == Ok(next)
    ensures AddParts(parts + Listed(name, texts)) == Ok(next)
  {
    hide AddPart, Join;
    if texts == [] {
      assert parts + [] == parts;
    } else {
      var p := name + "=" + Join(texts, ',');
      assert (parts + [p])[..|parts|] == parts;
    }
  }

  lemma AddListedDays(parts: seq<string>, d: Draft, ds: seq<Day>) returns (next: Draft)
    requires AddParts(parts) == Ok(d) && "BYDAY" !in d.seen && d.rawDays == [] && DaysInOrder(ds)
    ensures AddParts(parts + Listed("BYDAY", DayTexts(ds))) == Ok(next)
    ensures next.seen <= d.seen + {"BYDAY"} && next == d.(seen := next.seen, rawDays := DayTexts(ds))
  {
    hide AddParts, AddPart, Join, Listed, DayText, Order;
    next := d;
    if ds != [] {
      AddDays(d, ds);
      next := d.(seen := d.seen + {"BYDAY"}, rawDays := DayTexts(ds));
    }
    AddListed(parts, d, "BYDAY", DayTexts(ds), next);
  }

  lemma AddListedInts(parts: seq<string>, d: Draft, k: string, ns: seq<int>) returns (next: Draft)
    requires AddParts(parts) == Ok(d) && k !in d.seen && InRange(ns)
    requires (k == "BYMONTHDAY" && d.byMonthDay == []) || (k == "BYSETPOS" && d.bySetPos == [])
    ensures AddParts(parts + Listed(k, IntTexts(ns))) == Ok(next) && next.seen <= d.seen + {k}
    ensures k == "BYMONTHDAY" ==> next == d.(seen := next.seen, byMonthDay := ns)
    ensures k == "BYSETPOS" ==> next == d.(seen := next.seen, bySetPos := ns)
  {
    hide AddParts, AddPart, Join, Listed, InRange;
    NamesDiffer();
    next := d;
    if ns != [] {
      AddInts(d, k, ns);
      next := d.(seen := d.seen + {k});
      next := if k == "BYMONTHDAY" then next.(byMonthDay := ns) else next.(bySetPos := ns);
    }
    AddListed(parts, d, k, IntTexts(ns), next);
  }

  lemma NamesDiffer()
    ensures "BYDAY" != "FREQ" && "BYMONTHDAY" != "FREQ" && "BYSETPOS" != "FREQ"
    ensures "BYMONTHDAY" != "BYDAY" && "BYSETPOS" != "BYDAY" && "BYSETPOS" != "BYMONTHDAY"
  {
    assert "BYMONTHDAY"[2] == 'M' && "BYSETPOS"[2] == 'S';
  }

  lemma AddFreq(freq: string)
    requires freq != ""
    ensures AddParts(["FREQ=" + freq]) == Ok(EMPTY.(seen := {"FREQ"}, freq := freq))
  {
    var first := ["FREQ=" + freq];
    assert first[..0] == [];
    AddNamed(EMPTY, "FREQ", freq);
    assert "FREQ" + "=" + freq == "FREQ=" + freq;
    assert EMPTY.seen + {"FREQ"} == {"FREQ"};
  }

  lemma PartsReadBack(r: Rule)
    requires Accepted(r)
    ensures AddParts(RuleParts(r.freq, r.byDay, r.byMonthDay, r.bySetPos)).Ok?
    ensures var d := AddParts(RuleParts(r.freq, r.byDay, r.byMonthDay, r.bySetPos)).value;
            d.freq == r.freq && d.rawDays == DayTexts(r.byDay) && d.byMonthDay == r.byMonthDay
                && d.bySetPos == r.bySetPos
  {
    assert r.freq != "";
    NamesDiffer();
    AddFreq(r.freq);
    hide AddParts, Build, InRange, Listed, IntTexts, DayTexts;
    var d0 := EMPTY.(seen := {"FREQ"}, freq := r.freq);
    var d1 := AddListedDays(["FREQ=" + r.freq], d0, r.byDay);
    var d := AddBothLists(["FREQ=" + r.freq] + Listed("BYDAY", DayTexts(r.byDay)), d1, r.byMonthDay, r.bySetPos);
  }

  lemma AddBothLists(parts: seq<string>, d: Draft, byMonthDay: seq<int>, bySetPos: seq<int>) returns (next: Draft)
    requires AddParts(parts) == Ok(d) && "BYMONTHDAY" !in d.seen && "BYSETPOS" !in d.seen
    requires d.byMonthDay == [] && d.bySetPos == [] && InRange(byMonthDay) && InRange(bySetPos)
    ensures AddParts(parts + Listed("BYMONTHDAY", IntTexts(byMonthDay)) + Listed("BYSETPOS", IntTexts(bySetPos))) ==
        Ok(next)
    ensures next == d.(seen := next.seen, byMonthDay := byMonthDay, bySetPos := bySetPos)
  {
    NamesDiffer();
    hide AddParts, InRange, Listed, IntTexts;
    var mid := AddListedInts(parts, d, "BYMONTHDAY", byMonthDay);
    next := AddListedInts(parts + Listed("BYMONTHDAY", IntTexts(byMonthDay)), mid, "BYSETPOS", bySetPos);
  }

  // ----- the text as a whole -----

  /** The characters of a part. */
  predicate PartChar(c: char) {
    IsDigit(c) || c == '-' || c == ',' || c == '=' || 'A' <= c <= 'Z'
  }

  predicate TextChar(c: char) {
    PartChar(c) || c == ';'
  }

  predicate PartText(s: string) {
    forall c :: c in s ==> PartChar(c)
  }

  lemma ListedChars(name: string, texts: seq<string>)
    requires PartText(name) && forall t :: t in texts ==> PartText(t)
    ensures forall p :: p in Listed(name, texts) ==> PartText(p)
  {
    JoinChars(texts, ',', PartChar);
  }

  lemma RulePartsChars(r: Rule)
    requires Accepted(r)
    ensures forall p :: p in RuleParts(r.freq, r.byDay, r.byMonthDay, r.bySetPos) ==> PartText(p)
  {
    assert r.freq == "DAILY" || r.freq == "WEEKLY" || r.freq == "MONTHLY";
    FreqChars(r.freq);
    hide Build, InRange, PartText, DayTexts, IntTexts, Listed, Increasing, Order;
    DaysChars(r.byDay);
    IntsChars(r.byMonthDay);
    IntsChars(r.bySetPos);
    NameChars();
    ListedChars("BYDAY", DayTexts(r.byDay));
    ListedChars("BYMONTHDAY", IntTexts(r.byMonthDay));
    ListedChars("BYSETPOS", IntTexts(r.bySetPos));
  }

  lemma FreqChars(freq: string)
    requires freq == "DAILY" || freq == "WEEKLY" || freq == "MONTHLY"
    ensures PartText("FREQ=" + freq)
  {
  }

  lemma NameChars()
    ensures PartText("BYDAY") && PartText("BYMONTHDAY") && PartText("BYSETPOS")
  {
  }

  lemma DaysChars(ds: seq<Day>)
    requires forall d :: d in ds ==> ValidDay(d)
    ensures forall t :: t in DayTexts(ds) ==> PartText(t)
  {
    hide DayText, ParseDay;
    forall t | t in DayTexts(ds) ensures PartText(t) {
      var i :| 0 <= i < |ds| && t == DayText(ds[i]);
      assert ds[i] in ds;
      DayReadsBack(ds[i]);
    }
  }

  lemma IntsChars(ns: seq<int>)
    ensures forall t :: t in IntTexts(ns) ==> PartText(t)
  {
    forall t | t in IntTexts(ns) ensures PartText(t) {
      var i :| 0 <= i < |ns| && t == Itoa(ns[i]);
    }
  }

  lemma PreparedKeeps(s: string)
    requires s != "" && s[0] == 'F' && forall c :: c in s ==> TextChar(c)
    ensures Prepared(s) == s
  {
    assert s[0] in s && s[|s| - 1] in s;
    assert TrimSpace(s) == s;
    assert ToUpper(s) == s by {
      forall i | 0 <= i < |s| ensures Upper(s[i]) == s[i] {
        assert TextChar(s[i]);
      }
    }
    assert !("RRULE:" <= s);
  }

  lemma SplitsIntoParts(r: Rule)
    requires Accepted(r)
    ensures Split(Prepared(r.normalized), ';') == RuleParts(r.freq, r.byDay, r.byMonthDay, r.bySetPos)
  {
    var parts := RuleParts(r.freq, r.byDay, r.byMonthDay, r.bySetPos);
    RulePartsChars(r);
    assert parts[0] == "FREQ=" + r.freq;
    assert r.normalized == Join(parts, ';');
    hide Build, RuleParts, InRange, Split, Prepared;
    forall p | p in parts ensures ';' !in p && forall c :: c in p ==> TextChar(c) {
      assert PartText(p);
    }
    JoinChars(parts, ';', TextChar);
    assert r.normalized[0] == 'F';
    PreparedKeeps(r.normalized);
    SplitJoin(parts, ';');
  }

  lemma AcceptedReadsBack(r: Rule)
    requires Accepted(r)
    ensures Parse(r.normalized) == Ok(r)
  {
    SplitsIntoParts(r);
    PartsReadBack(r);
    DaysReadBack(r.byDay);
    SortSorted(r.byDay, Order);
    hide Prepared, Split, RuleParts, AddParts, ParseDays, Sort, DayTexts, Build, InRange;
  }

  /** The normalized text of an accepted rule is read as the same rule: so it is its own normalized text, and two
      accepted texts have the same one exactly when they are the same rule. */
  lemma NormalizationRoundTrip(s: string, t: string)
    requires Parse(s).Ok? && Parse(t).Ok?
    ensures Parse(Parse(s).value.normalized) == Parse(s)
    ensures Parse(s).value.normalized == Parse(t).value.normalized <==> Parse(s) == Parse(t)
  {
    hide Parse;
    ParsedIsAccepted(s);
    ParsedIsAccepted(t);
    AcceptedReadsBack(Parse(s).value);
    AcceptedReadsBack(Parse(t).value);
  }
}
