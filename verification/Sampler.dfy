/** The `ot` member of a tracestate and the root sampler's decision over it (agents/go/sampler.go). */
module Sampler {
  import opened Base
  import opened Text
  import opened Thresholds

  // ----- the sub-keys of the `ot` member -----

  datatype Field = Field(k: string, v: string)

  type Fields = seq<Field>

  predicate WellFormed(f: Field) {
    f.k != "" && ':' !in f.k && ';' !in f.k && ';' !in f.v
  }

  predicate AllWellFormed(o: Fields) {
    forall f :: f in o ==> WellFormed(f)
  }

  function ParsePart(part: string): Fields {
    match Cut(part, ':')
    case None => []
    case Some(kv) => if kv.0 == "" then [] else [Field(kv.0, kv.1)]
  }

  function ParseParts(parts: seq<string>): Fields {
    if parts == [] then [] else ParseParts(parts[..|parts| - 1]) + ParsePart(parts[|parts| - 1])
  }

  function Parsed(s: string): Fields {
    if s == "" then [] else ParseParts(Split(s, ';'))
  }

  method ParseOT(s: string) returns (out: Fields)
    ensures out == Parsed(s)
  {
    out := [];
    if s == "" {
      return;
    }
    var parts := Split(s, ';');
    for i := 0 to |parts|
      invariant out == ParseParts(parts[..i])
    {
      assert parts[..i + 1][..i] == parts[..i];
      var kv := Cut(parts[i], ':');
      if kv.Some? && kv.value.0 != "" {
        out := out + [Field(kv.value.0, kv.value.1)];
      }
    }
    assert parts[..|parts|] == parts;
  }

  function FieldText(f: Field): string {
    f.k + ":" + f.v
  }

  function FieldTexts(o: Fields): seq<string> {
    seq(|o|, i requires 0 <= i < |o| => FieldText(o[i]))
  }

  function Rendered(o: Fields): string {
    Join(FieldTexts(o), ';')
  }

  lemma RenderedAppend(o: Fields, f: Field)
    ensures Rendered(o + [f]) == (if o == [] then "" else Rendered(o) + ";") + FieldText(f)
  {
    assert FieldTexts(o + [f]) == FieldTexts(o) + [FieldText(f)];
    if o != [] {
      JoinAppend(FieldTexts(o), FieldText(f), ';');
    }
  }

  method Render(o: Fields) returns (b: string)
    ensures b == Rendered(o)
  {
    b := "";
    for i := 0 to |o|
      invariant b == Rendered(o[..i])
    {
      RenderedAppend(o[..i], o[i]);
      assert o[..i + 1] == o[..i] + [o[i]];
      if i > 0 {
        b := b + ";";
      }
      b := b + o[i].k;
      b := b + ":";
      b := b + o[i].v;
    }
    assert o[..|o|] == o;
  }

  lemma {:induction false} PartsWellFormed(parts: seq<string>)
    requires forall p :: p in parts ==> ';' !in p
    ensures AllWellFormed(ParseParts(parts))
  {
    if parts != [] {
      var n := |parts| - 1;
      PartsWellFormed(parts[..n]);
      assert ';' !in parts[n];
      forall f | f in ParsePart(parts[n]) ensures WellFormed(f) {
        assert parts[n] == f.k + [':'] + f.v;
        assert forall c :: c in f.k || c in f.v ==> c in parts[n];
      }
    }
  }

  lemma PartReadsBack(f: Field)
    requires WellFormed(f)
    ensures ParsePart(FieldText(f)) == [f]
  {
    CutAt(f.k, f.v, ':');
    assert FieldText(f) == f.k + [':'] + f.v;
  }

  lemma FrontWellFormed(o: Fields)
    requires AllWellFormed(o) && o != []
    ensures var n := |o| - 1;
            AllWellFormed(o[..n]) && WellFormed(o[n]) && FieldTexts(o) == FieldTexts(o[..n]) + [FieldText(o[n])]
  {
    hide WellFormed, FieldText;
    var n := |o| - 1;
    assert o[n] in o;
    forall f | f in o[..n] ensures WellFormed(f) {
      assert f in o;
    }
  }

  lemma PartsNext(parts: seq<string>, p: string)
    ensures ParseParts(parts + [p]) == ParseParts(parts) + ParsePart(p)
  {
    hide ParsePart;
    assert (parts + [p])[..|parts|] == parts;
  }

  lemma {:induction false} PartsReadBack(o: Fields)
    requires AllWellFormed(o)
    ensures ParseParts(FieldTexts(o)) == o
  {
    if o != [] {
      var n := |o| - 1;
      FrontWellFormed(o);
      hide ParsePart, FieldText, ParseParts, FieldTexts, WellFormed, AllWellFormed;
      PartsReadBack(o[..n]);
      PartReadsBack(o[n]);
      PartsNext(FieldTexts(o[..n]), FieldText(o[n]));
      assert o == o[..n] + [o[n]];
    }
  }

  /** Parsing undoes rendering, on exactly the lists that parsing produces: those of well-formed fields. */
  lemma ParseInvertsRender(o: Fields)
    ensures AllWellFormed(o) <==> Parsed(Rendered(o)) == o
  {
    if AllWellFormed(o) {
      PartsReadBack(o);
      if o != [] {
        forall p | p in FieldTexts(o) ensures ';' !in p {
          var i :| 0 <= i < |o| && p == FieldText(o[i]);
          assert WellFormed(o[i]);
        }
        SplitJoin(FieldTexts(o), ';');
        assert FieldTexts(o)[0] != "";
      }
    }
    ParsedIsWellFormed(Rendered(o));
  }

  lemma ParsedIsWellFormed(s: string)
    ensures AllWellFormed(Parsed(s))
  {
    if s != "" {
      PartsWellFormed(Split(s, ';'));
    }
  }

  // ----- reading and replacing a sub-key -----

  /** The value of the first field with key `k`. */
  function Get(o: Fields, k: string): Option<string> {
    if o == [] then None else if o[0].k == k then Some(o[0].v) else Get(o[1..], k)
  }

  function Without(o: Fields, k: string): (r: Fields)
    ensures forall f :: f in r <==> f in o && f.k != k
  {
    if o == [] then []
    else
      var n := |o| - 1;
      Without(o[..n], k) + if o[n].k == k then [] else [o[n]]
  }

  function With(o: Fields, k: string, v: string): Fields {
    [Field(k, v)] + Without(o, k)
  }

  method RemoveKey(o: Fields, k: string) returns (out: Fields)
    ensures out == Without(o, k)
  {
    out := [];
    for i := 0 to |o|
      invariant out == Without(o[..i], k)
    {
      assert o[..i + 1][..i] == o[..i];
      if o[i].k != k {
        out := out + [o[i]];
      }
    }
    assert o[..|o|] == o;
  }

  lemma {:induction false} GetConcat(a: Fields, b: Fields, k: string)
    ensures Get(a + b, k) == if Get(a, k).Some? then Get(a, k) else Get(b, k)
  {
    if a == [] {
      assert a + b == b;
    } else {
      assert (a + b)[1..] == a[1..] + b;
      GetConcat(a[1..], b, k);
    }
  }

  /** Removing a key leaves every other one, and none of its own. */
  lemma {:induction false} GetWithout(o: Fields, k: string, other: string)
    ensures Get(Without(o, k), other) == if other == k then None else Get(o, other)
  {
    if o != [] {
      var n := |o| - 1;
      var last: Fields := if o[n].k == k then [] else [o[n]];
      assert Without(o, k) == Without(o[..n], k) + last;
      assert Get([], other) == None && Get([o[n]], other) == if o[n].k == other then Some(o[n].v) else None;
      assert o == o[..n] + [o[n]];
      hide Get, Without;
      GetWithout(o[..n], k, other);
      GetConcat(o[..n], [o[n]], other);
      GetConcat(Without(o[..n], k), last, other);
    }
  }

  lemma GetWith(o: Fields, k: string, v: string, other: string)
    ensures Get(With(o, k, v), other) == if other == k then Some(v) else Get(o, other)
  {
    GetWithout(o, k, other);
    GetConcat([Field(k, v)], Without(o, k), other);
  }

  // ----- fitting the value into 256 characters -----

  const MAX_VALUE: nat := 256

  predicate Protected(f: Field) {
    f.k == "th" || f.k == "rv"
  }

  /** The last field that may be dropped, or -1. */
  function LastFree(o: Fields): (i: int)
    ensures -1 <= i < |o|
    ensures i >= 0 ==> !Protected(o[i])
    ensures forall j :: i < j < |o| ==> Protected(o[j])
  {
    if o == [] then -1
    else
      var n := |o| - 1;
      if Protected(o[n]) then LastFree(o[..n]) else n
  }

  function DropLastFree(o: Fields): Fields
    requires LastFree(o) >= 0
  {
    o[..LastFree(o)] + o[LastFree(o) + 1..]
  }

  /** The list as it is stored; `None` when it cannot be made to fit. */
  function Fit(o: Fields): Option<Fields>
    decreases |o|
  {
    if |Rendered(o)| <= MAX_VALUE then Some(o)
    else if LastFree(o) < 0 then None
    else Fit(DropLastFree(o))
  }

  /** `th`, `rv` and the first `n` of the other fields, in their order. */
  function Kept(o: Fields, n: nat): Fields {
    if o == [] then []
    else if Protected(o[0]) then [o[0]] + Kept(o[1..], n)
    else if n == 0 then Kept(o[1..], 0)
    else [o[0]] + Kept(o[1..], n - 1)
  }

  function FreeCount(o: Fields): nat {
    if o == [] then 0 else FreeCount(o[1..]) + if Protected(o[0]) then 0 else 1
  }

  lemma {:induction false} KeptAll(o: Fields, n: nat)
    requires FreeCount(o) <= n
    ensures Kept(o, n) == o
  {
    if o != [] {
      KeptAll(o[1..], if Protected(o[0]) then n else n - 1);
    }
  }

  lemma {:induction false} KeptDropped(o: Fields, i: nat, n: nat)
    requires i < |o| && !Protected(o[i]) && forall j :: i < j < |o| ==> Protected(o[j])
    ensures var d := o[..i] + o[i + 1..];
            FreeCount(d) == FreeCount(o) - 1 && (n < FreeCount(o) ==> Kept(d, n) == Kept(o, n))
  {
    var d := o[..i] + o[i + 1..];
    if i == 0 {
      assert d == o[1..];
      NoneFree(o[1..], 0);
      NoneFree(o[1..], n);
    } else {
      assert d[0] == o[0] && d[1..] == o[1..][..i - 1] + o[1..][i..];
      KeptDropped(o[1..], i - 1, if Protected(o[0]) || n == 0 then n else n - 1);
      if n == 0 && !Protected(o[0]) {
        HasFree(o[1..], i - 1);
      }
    }
  }

  lemma {:induction false} NoneFree(o: Fields, n: nat)
    requires forall j :: 0 <= j < |o| ==> Protected(o[j])
    ensures FreeCount(o) == 0 && Kept(o, n) == o
  {
    if o != [] {
      NoneFree(o[1..], n);
    }
  }

  lemma {:induction false} HasFree(o: Fields, i: nat)
    requires i < |o| && !Protected(o[i])
    ensures FreeCount(o) > 0
  {
    if i > 0 {
      HasFree(o[1..], i - 1);
    }
  }

  /** What is stored is the longest list of `th`, `rv` and a first stretch of the other fields that fits; nothing is
      stored exactly when `th` and `rv` alone do not. */
  ghost predicate LargestFit(o: Fields, n: nat) {
    && n <= FreeCount(o) && Fit(o) == Some(Kept(o, n)) && |Rendered(Kept(o, n))| <= MAX_VALUE
    && forall m :: n < m <= FreeCount(o) ==> |Rendered(Kept(o, m))| > MAX_VALUE
  }

  lemma {:induction false} FitIsLargest(o: Fields)
    ensures if Fit(o).None? then forall m :: 0 <= m <= FreeCount(o) ==> |Rendered(Kept(o, m))| > MAX_VALUE
            else exists n :: LargestFit(o, n)
    decreases |o|
  {
    hide Rendered, Kept, FreeCount;
    KeptAll(o, FreeCount(o));
    var i := LastFree(o);
    if |Rendered(o)| <= MAX_VALUE {
      assert LargestFit(o, FreeCount(o));
    } else if i < 0 {
      NoneFree(o, 0);
    } else {
      var d := DropLastFree(o);
      FitIsLargest(d);
      forall m: nat ensures FreeCount(d) == FreeCount(o) - 1 && (m < FreeCount(o) ==> Kept(d, m) == Kept(o, m)) {
        KeptDropped(o, i, m);
      }
      if Fit(o).Some? {
        var n :| LargestFit(d, n);
        assert Kept(d, n) == Kept(o, n);
        assert LargestFit(o, n);
      }
    }
  }

  lemma {:induction false} KeptGet(o: Fields, n: nat, k: string)
    requires k == "th" || k == "rv"
    ensures Get(Kept(o, n), k) == Get(o, k)
  {
    if o != [] {
      var m := if Protected(o[0]) || n == 0 then n else n - 1;
      KeptGet(o[1..], m, k);
      GetConcat([o[0]], Kept(o[1..], m), k);
    }
  }

  lemma {:induction false} KeptWellFormed(o: Fields, n: nat)
    requires AllWellFormed(o)
    ensures AllWellFormed(Kept(o, n))
  {
    if o != [] {
      KeptWellFormed(o[1..], if Protected(o[0]) || n == 0 then n else n - 1);
    }
  }

  lemma FitKeeps(o: Fields, k: string)
    requires Fit(o).Some? && (k == "th" || k == "rv")
    ensures |Rendered(Fit(o).value)| <= MAX_VALUE && Get(Fit(o).value, k) == Get(o, k)
    ensures AllWellFormed(o) ==> AllWellFormed(Fit(o).value)
  {
    FitIsLargest(o);
    var n :| LargestFit(o, n);
    KeptGet(o, n, k);
    if AllWellFormed(o) {
      KeptWellFormed(o, n);
    }
  }

  // ----- the tracestate -----

  datatype Member = Member(key: string, value: string)

  type TraceState = seq<Member>

  const MAX_MEMBERS: nat := 32

  function Lookup(ts: TraceState, key: string): string {
    if ts == [] then "" else if ts[0].key == key then ts[0].value else Lookup(ts[1..], key)
  }

  function Delete(ts: TraceState, key: string): TraceState {
    if ts == [] then []
    else if ts[0].key == key then Delete(ts[1..], key)
    else [ts[0]] + Delete(ts[1..], key)
  }

  /** A member value of section 3.3.1.3.2 of W3C Trace Context: 1 to 256 printable characters other than comma and
      equals sign, the last of them not a space. */
  predicate ValidValue(v: string) {
    && 1 <= |v| <= 256 && v[|v| - 1] != ' '
    && forall c :: c in v ==> ' ' <= c <= '~' && c != ',' && c != '='
  }

  /** The new member comes first; when the list was full the right-most one goes. */
  function Insert(ts: TraceState, key: string, value: string): Option<TraceState> {
    if !ValidValue(value) then None
    else
      var others := Delete(ts, key);
      Some([Member(key, value)] +
           if |others| == |ts| >= MAX_MEMBERS then others[..|others| - 1] else others)
  }

  function Stored(ts: TraceState, o: Fields): TraceState {
    match Fit(o)
    case None => ts
    case Some(x) =>
      if x == [] then Delete(ts, "ot")
      else
        match Insert(ts, "ot", Rendered(x))
        case None => ts
        case Some(out) => out
  }

  method WithOT(ts: TraceState, o: Fields) returns (out: TraceState)
    ensures out == Stored(ts, o)
  {
    var x := o;
    var text := Render(x);
    while |text| > MAX_VALUE
      invariant text == Rendered(x) && Fit(x) == Fit(o)
      decreases |x|
    {
      var i := |x| - 1;
      while i >= 0 && Protected(x[i])
        invariant -1 <= i < |x|
        invariant forall j :: i < j < |x| ==> Protected(x[j])
      {
        i := i - 1;
      }
      assert i == LastFree(x) by {
        if i < LastFree(x) {
          assert false;
        }
      }
      if i < 0 {
        return ts;
      }
      x := x[..i] + x[i + 1..];
      text := Render(x);
    }
    if x == [] {
      return Delete(ts, "ot");
    }
    var inserted := Insert(ts, "ot", text);
    out := if inserted.None? then ts else inserted.value;
  }

  lemma {:induction false} DeleteLookup(ts: TraceState, key: string)
    ensures Lookup(Delete(ts, key), key) == "" && |Delete(ts, key)| <= |ts|
  {
    if ts != [] {
      DeleteLookup(ts[1..], key);
    }
  }

  /** Whether `o` is stored, rather than refused for its length or its characters. */
  predicate Storable(o: Fields) {
    Fit(o).Some? && (Fit(o).value == [] || ValidValue(Rendered(Fit(o).value)))
  }

  /** The limits hold after every store, and whoever reads the stored member finds the list as it was made to fit. */
  lemma StoredReadsBack(ts: TraceState, o: Fields)
    requires AllWellFormed(o)
    ensures |Lookup(ts, "ot")| <= MAX_VALUE ==> |Lookup(Stored(ts, o), "ot")| <= MAX_VALUE
    ensures |ts| <= MAX_MEMBERS ==> |Stored(ts, o)| <= MAX_MEMBERS
    ensures if Storable(o) then Parsed(Lookup(Stored(ts, o), "ot")) == Fit(o).value else Stored(ts, o) == ts
  {
    DeleteLookup(ts, "ot");
    if Fit(o).Some? {
      FitKeeps(o, "th");
      ParseInvertsRender(Fit(o).value);
    }
  }

  // ----- the decision for a new trace -----

  function Randomness(o: Fields): (r: Option<int>)
  {
    match Get(o, "rv")
    case None => None
    case Some(v) => if |v| == HEX_DIGITS then HexNumber(v) else None
  }

  function HalfPower(n: nat): real {
    if n == 0 then 1.0 else HalfPower(n - 1) / 2.0
  }

  /** The legacy form `p:n`. */
  function LegacyProbability(o: Fields): Option<real> {
    match Get(o, "p")
    case None => None
    case Some(v) =>
      match Atoi(v)
      case None => None
      case Some(n) =>
        if 0 <= n <= 63 then Some(if n == 63 then 0.0 else HalfPower(n)) else None
  }

  function Probability(o: Fields): Option<real> {
    match Get(o, "th")
    case None => LegacyProbability(o)
    case Some(v) =>
      match ParseThreshold(v)
      case None => LegacyProbability(o)
      case Some(t) => Some(1.0 - t as real / MAX_THRESHOLD as real)
  }

  /** What one decision draws on: the lower 8 bytes of the trace id, and 56 random bits. */
  datatype Draw = Draw(traceBits: nat, random: nat)

  ghost predicate ValidDraw(d: Draw) {
    d.random < MAX_THRESHOLD
  }

  /** The randomness of the decision and the sub-keys that go on with the trace. */
  function Chosen(o: Fields, writeRV: bool, d: Draw): (int, Fields) {
    match Randomness(o)
    case Some(r) => (r, o)
    case None =>
      if writeRV then (d.random, Without(o, "rv") + [Field("rv", Hex(d.random, HEX_DIGITS))])
      else (d.traceBits % MAX_THRESHOLD, o)
  }

  function SubKeys(root: Root, o: Fields, sampled: bool): Fields {
    if root.AtLeast? then if sampled then With(o, "th", root.th) else Without(o, "th") else o
  }

  /** The decision and the tracestate of the new trace. A root that takes everything or nothing writes only a missing
      `rv`. */
  function Decided(root: Root, writeRV: bool, ts: TraceState, d: Draw): (bool, TraceState) {
    var o := Parsed(Lookup(ts, "ot"));
    var (r, next) := Chosen(o, writeRV, d);
    if !root.AtLeast? then (root.Always?, if writeRV && Randomness(o).None? then Stored(ts, next) else ts)
    else (r >= root.threshold, Stored(ts, SubKeys(root, next, r >= root.threshold)))
  }

  method ShouldSample(root: Root, writeRV: bool, ts: TraceState, d: Draw) returns (sampled: bool, out: TraceState)
    ensures (sampled, out) == Decided(root, writeRV, ts, d)
  {
    var o := ParseOT(Lookup(ts, "ot"));
    var r := Randomness(o);
    var bits := 0;
    if r.Some? {
      bits := r.value;
    } else if writeRV {
      bits := d.random;
      o := RemoveKey(o, "rv");
      o := o + [Field("rv", Hex(d.random, HEX_DIGITS))];
    } else {
      bits := d.traceBits % MAX_THRESHOLD;
    }
    match root {
      case AtLeast(t, th) =>
        sampled := bits >= t;
        var rest := RemoveKey(o, "th");
        out := WithOT(ts, if sampled then [Field("th", th)] + rest else rest);
      case _ =>
        sampled := root.Always?;
        out := ts;
        if r.None? && writeRV {
          out := WithOT(ts, o);
        }
    }
  }

  /** The two cases of every decision of a root with a threshold: the trace goes on with the same randomness, and with
      the threshold exactly if it was sampled. */
  lemma SubKeysKeep(root: Root, o: Fields, sampled: bool)
    requires root.AtLeast? && AllWellFormed(o) && forall c :: c in root.th ==> IsHex(c)
    ensures AllWellFormed(SubKeys(root, o, sampled))
    ensures Get(SubKeys(root, o, sampled), "rv") == Get(o, "rv")
    ensures Get(SubKeys(root, o, sampled), "th") == if sampled then Some(root.th) else None
  {
    GetWithout(o, "th", "rv");
    GetWithout(o, "th", "th");
    GetWith(o, "th", root.th, "rv");
    GetWith(o, "th", root.th, "th");
    assert WellFormed(Field("th", root.th));
  }

  lemma ChosenIsWritten(ts: TraceState, writeRV: bool, d: Draw)
    requires ValidDraw(d)
    ensures var (r, next) := Chosen(Parsed(Lookup(ts, "ot")), writeRV, d);
            AllWellFormed(next) && (writeRV || Randomness(Parsed(Lookup(ts, "ot"))).Some? ==>
                Randomness(next) == Some(r))
  {
    var o := Parsed(Lookup(ts, "ot"));
    ParsedIsWellFormed(Lookup(ts, "ot"));
    if writeRV && Randomness(o).None? {
      var f := Field("rv", Hex(d.random, HEX_DIGITS));
      GetWithout(o, "rv", "rv");
      GetConcat(Without(o, "rv"), [f], "rv");
      MaxIsPow16();
      HexReadsBack(d.random, HEX_DIGITS);
      assert WellFormed(f);
    }
  }

  /** What a decision wants to hand on. */
  function Wanted(root: Root, writeRV: bool, ts: TraceState, d: Draw): Fields {
    var (r, next) := Chosen(Parsed(Lookup(ts, "ot")), writeRV, d);
    SubKeys(root, next, Passes(root, r))
  }

  function KeepProbability(root: Root): real {
    Keep(root) as real / MAX_THRESHOLD as real
  }

  /** Whoever reads the tracestate of a sampled trace decodes the share of all traces that the root samples, `Keep` of
      2^56, and a dropped trace carries no threshold: exactly when what the root wants to hand on can be stored, or the
      tracestate said so before. */
  lemma DownstreamDecodesKeep(ratio: real, writeRV: bool, ts: TraceState, d: Draw)
    requires ValidDraw(d) && RootOf(ratio).AtLeast?
    ensures var (sampled, out) := Decided(RootOf(ratio), writeRV, ts, d);
            var o, before := Parsed(Lookup(out, "ot")), Parsed(Lookup(ts, "ot"));
            var storable := Storable(Wanted(RootOf(ratio), writeRV, ts, d));
            var p := Some(KeepProbability(RootOf(ratio)));
            if sampled then Probability(o) == p <==> storable || Probability(before) == p
            else Get(o, "th") == None <==> storable || Get(before, "th") == None
  {
    hide Parsed, Fit, Rendered, Lookup, Stored, Get, SubKeys, Chosen, Probability, Storable, KeepProbability;
    var root := RootOf(ratio);
    ThresholdDecodes(ratio);
    ChosenIsWritten(ts, writeRV, d);
    var (r, next) := Chosen(Parsed(Lookup(ts, "ot")), writeRV, d);
    var stored := SubKeys(root, next, r >= root.threshold);
    SubKeysKeep(root, next, r >= root.threshold);
    StoredReadsBack(ts, stored);
    if Storable(stored) {
      StorableFits(stored);
      FitKeeps(stored, "th");
      ReadsThreshold(ratio, Fit(stored).value);
    }
  }

  lemma StorableFits(o: Fields)
    requires Storable(o)
    ensures Fit(o).Some?
  {
  }

  lemma ThresholdDecodes(ratio: real)
    requires RootOf(ratio).AtLeast?
    ensures var root := RootOf(ratio);
            ParseThreshold(root.th) == Some(root.threshold) && 1 <= |root.th| <= HEX_DIGITS && forall c ::
                c in root.th ==> IsHex(c)
  {
    ExactlyKeepPass(ratio);
    ThresholdRoundTrip(RootOf(ratio).threshold);
  }

  lemma ReadsThreshold(ratio: real, o: Fields)
    requires RootOf(ratio).AtLeast?
    ensures Get(o, "th") == Some(RootOf(ratio).th) ==>
              Probability(o) == Some(KeepProbability(RootOf(ratio)))
  {
    hide Get, RootOf, EncodeThreshold;
    ThresholdDecodes(ratio);
  }

  /** Every later root decides by the randomness `r`, whatever its trace id and its own random bits. */
  ghost predicate AllDecideBy(root: Root, ts: TraceState, r: int) {
    forall writeRV, later :: ValidDraw(later) ==> Decided(root, writeRV, ts, later).0 == Passes(root, r)
  }

  lemma KnownRandomnessDecides(root: Root, ts: TraceState, r: int)
    requires Randomness(Parsed(Lookup(ts, "ot"))) == Some(r)
    ensures AllDecideBy(root, ts, r)
  {
    hide Parsed, Lookup, Stored, Randomness, SubKeys;
  }

  /** Without a written value a later root that takes some traces and not others can be made to differ. */
  lemma UnknownRandomnessDiffers(root: Root, ts: TraceState, r: int)
    requires Randomness(Parsed(Lookup(ts, "ot"))) == None && root.AtLeast? && 0 < root.threshold < MAX_THRESHOLD
    ensures !AllDecideBy(root, ts, r)
  {
    hide Parsed, Lookup, Stored, Randomness, SubKeys, Hex;
    var later := Draw(0, if r >= root.threshold then 0 else MAX_THRESHOLD - 1);
    assert Decided(root, true, ts, later).0 != Passes(root, r);
  }

  /** Once a root was told to write its randomness every later root decides by it, whatever its trace id and its own
      random bits, exactly when the value could be stored or was in the tracestate before, or when the later root takes
      all or nothing. */
  lemma LaterRootsAgree(a: real, b: real, ts: TraceState, d: Draw)
    requires ValidDraw(d) && RootOf(a).AtLeast?
    ensures var out := Decided(RootOf(a), true, ts, d).1;
            AllDecideBy(RootOf(b), out, Chosen(Parsed(Lookup(ts, "ot")), true, d).0) <==>
              || Storable(Wanted(RootOf(a), true, ts, d))
              || Randomness(Parsed(Lookup(ts, "ot"))).Some?
              || !RootOf(b).AtLeast?
  {
    hide Parsed, Fit, Rendered, Lookup, Stored, Randomness, RootOf, SubKeys, Storable, Passes, AllDecideBy, Hex;
    var root := RootOf(a);
    ThresholdDecodes(a);
    ChosenIsWritten(ts, true, d);
    var o := Parsed(Lookup(ts, "ot"));
    var (r, next) := Chosen(o, true, d);
    var stored := Wanted(root, true, ts, d);
    var out := Decided(root, true, ts, d).1;
    WantedKeepsRandomness(root, ts, d);
    if !RootOf(b).AtLeast? {
      ConstantDecides(RootOf(b), out, r);
    } else if Storable(stored) || Randomness(o).Some? {
      KnownRandomnessDecides(RootOf(b), out, r);
    } else {
      ExactlyKeepPass(b);
      UnknownRandomnessDiffers(RootOf(b), out, r);
    }
  }

  lemma ConstantDecides(root: Root, ts: TraceState, r: int)
    requires !root.AtLeast?
    ensures AllDecideBy(root, ts, r)
  {
    hide Parsed, Lookup, Stored, Randomness;
  }

  /** The randomness that is found after the decision. */
  lemma WantedKeepsRandomness(root: Root, ts: TraceState, d: Draw)
    requires ValidDraw(d) && root.AtLeast? && forall c :: c in root.th ==> IsHex(c)
    ensures var out := Decided(root, true, ts, d).1;
            var r := Chosen(Parsed(Lookup(ts, "ot")), true, d).0;
            Randomness(Parsed(Lookup(out, "ot"))) ==
              if Storable(Wanted(root, true, ts, d)) then Some(r) else Randomness(Parsed(Lookup(ts, "ot")))
    ensures Randomness(Parsed(Lookup(ts, "ot"))).Some? ==>
              Randomness(Parsed(Lookup(ts, "ot"))) == Some(Chosen(Parsed(Lookup(ts, "ot")), true, d).0)
  {
    hide Parsed, Fit, Rendered, Lookup, Stored, SubKeys, Storable, Hex, HexNumber;
    ChosenIsWritten(ts, true, d);
    var (r, next) := Chosen(Parsed(Lookup(ts, "ot")), true, d);
    var stored := SubKeys(root, next, r >= root.threshold);
    SubKeysKeep(root, next, r >= root.threshold);
    StoredReadsBack(ts, stored);
    if Storable(stored) {
      StorableFits(stored);
      FitKeeps(stored, "rv");
    }
  }

  /** With the randomness known to both, a root with a higher ratio samples every trace that the first one samples. */
  lemma HigherRatioSamplesMore(a: real, b: real, ts: TraceState, d: Draw, later: Draw, writeRV: bool)
    requires a <= b && ValidDraw(d) && ValidDraw(later) && RootOf(a).AtLeast?
    requires Storable(Wanted(RootOf(a), true, ts, d)) || Randomness(Parsed(Lookup(ts, "ot"))).Some?
    ensures var (first, out) := Decided(RootOf(a), true, ts, d);
            first ==> Decided(RootOf(b), writeRV, out, later).0
  {
    LaterRootsAgree(a, b, ts, d);
    RandomnessInRange(Parsed(Lookup(ts, "ot")));
    hide Parsed, Lookup, Stored, RootOf, SubKeys, Storable, Randomness, Wanted;
    var r := Chosen(Parsed(Lookup(ts, "ot")), true, d).0;
    if Decided(RootOf(a), true, ts, d).0 {
      SamplingIsConsistent(a, b, r);
    }
  }

  // ----- incoming members that cannot be stored -----

  function Repeat(c: char, n: nat): (s: string)
    ensures |s| == n && forall x :: x in s ==> x == c
  {
    seq(n, _ => c)
  }

  /** An over-long `rv`: nothing of it may be dropped, and no room is left for the threshold. */
  function LongRandomness(): Fields {
    [Field("rv", Repeat('0', 250))]
  }

  /** A first field that ends in a space: it ends the value once the second field is dropped. */
  function SpaceBeforeLast(): Fields {
    [Field("a", Repeat('x', 100) + " "), Field("b", Repeat('y', 150))]
  }

  function Incoming(o: Fields): TraceState {
    [Member("ot", Rendered(o))]
  }

  lemma LongRandomnessIsNotStorable(th: string)
    requires th != ""
    ensures ValidValue(Rendered(LongRandomness())) && !Storable(With(LongRandomness(), "th", th))
  {
    var rv, f := LongRandomness()[0], Field("th", th);
    assert Rendered([rv]) == FieldText(rv) by {
      RenderedAppend([], rv);
      assert [] + [rv] == [rv];
    }
    assert Rendered([f]) == FieldText(f) by {
      RenderedAppend([], f);
      assert [] + [f] == [f];
    }
    assert FieldText(rv)[252] in rv.v;
    RenderedAppend([f], rv);
    assert With([rv], "th", th) == [f] + [rv] by {
      assert [rv][..0] == [] && Without([], "th") == [];
    }
    hide Rendered;
    var o := [f] + [rv];
    assert LastFree(o) < 0;
  }

  lemma TwoFieldText(f: Field, g: Field)
    ensures Rendered([f, g]) == FieldText(f) + ";" + FieldText(g)
  {
    OneFieldText(f);
    RenderedAppend([f], g);
    assert [f] + [g] == [f, g];
  }

  /** A free last field goes when the whole does not fit and the rest does. */
  lemma LastFieldGoes(f: Field, x: Field, y: Field)
    requires !Protected(y) && |Rendered([f, x])| <= MAX_VALUE < |Rendered([f, x])| + |FieldText(y)|
    ensures Fit([f, x, y]) == Some([f, x])
  {
    RenderedAppend([f, x], y);
    assert [f, x] + [y] == [f, x, y];
    hide Rendered, FieldText;
    assert LastFree([f, x, y]) == 2 && DropLastFree([f, x, y]) == [f, x];
  }

  lemma SpaceBeforeLastIsNotStorable(th: string)
    requires 1 <= |th| <= HEX_DIGITS
    ensures ValidValue(Rendered(SpaceBeforeLast())) && !Storable(With(SpaceBeforeLast(), "th", th))
  {
    var o := SpaceBeforeLast();
    var x, y, f := o[0], o[1], Field("th", th);
    TwoFieldText(x, y);
    TwoFieldText(f, x);
    assert With(o, "th", th) == [f, x, y] by {
      hide Rendered;
      assert o[..1] == [x] && [x][..0] == [] && Without([], "th") == [];
      assert Without(o, "th") == o == [x, y];
    }
    SpaceValueValid(Rendered(o), FieldText(x), FieldText(y));
    hide Rendered, With;
    LastFieldGoes(f, x, y);
    var t := Rendered([f, x]);
    assert t[|t| - 1] == ' ';
  }

  lemma OneFieldText(f: Field)
    ensures Rendered([f]) == FieldText(f)
  {
    RenderedAppend([], f);
    assert [] + [f] == [f];
  }

  lemma SpaceValueValid(v: string, x: string, y: string)
    requires v == x + ";" + y && 1 <= |y| && |v| <= 256 && y[|y| - 1] != ' '
    requires forall c :: c in x || c in y ==> ' ' <= c <= '~' && c != ',' && c != '='
    ensures ValidValue(v)
  {
    assert v[|v| - 1] == y[|y| - 1];
    forall c | c in v ensures ' ' <= c <= '~' && c != ',' && c != '=' {
      assert c in x || c == ';' || c in y;
    }
  }

  lemma UnstoredStaysAsItCame(ratio: real, o: Fields)
    requires RootOf(ratio).AtLeast? && AllWellFormed(o) && Randomness(o) == None
    requires !Storable(With(o, "th", RootOf(ratio).th))
    ensures Parsed(Lookup(Incoming(o), "ot")) == o
    ensures Decided(RootOf(ratio), false, Incoming(o), Draw(MAX_THRESHOLD - 1, 0)) == (true, Incoming(o))
  {
    hide *;
    var root, ts := RootOf(ratio), Incoming(o);
    ThresholdDecodes(ratio);
    ExactlyKeepPass(ratio);
    ParseInvertsRender(o);
    IncomingValue(o);
    SampledSubKeys(root, o);
    SubKeysKeep(root, o, true);
    StoredReadsBack(ts, SubKeys(root, o, true));
    TopDrawIsSampled(root, ts);
  }

  lemma SampledSubKeys(root: Root, o: Fields)
    requires root.AtLeast?
    ensures SubKeys(root, o, true) == With(o, "th", root.th)
  {
  }

  lemma TopDrawIsSampled(root: Root, ts: TraceState)
    requires root.AtLeast? && root.threshold < MAX_THRESHOLD && Randomness(Parsed(Lookup(ts, "ot"))) == None
    ensures var out := Stored(ts, SubKeys(root, Parsed(Lookup(ts, "ot")), true));
            Decided(root, false, ts, Draw(MAX_THRESHOLD - 1, 0)) == (true, out)
  {
    hide Parsed, Lookup, Stored, SubKeys, Randomness;
  }

  lemma WitnessFields(o: Fields)
    requires o == LongRandomness() || o == SpaceBeforeLast()
    ensures AllWellFormed(o) && Randomness(o) == None && Probability(o) == None
  {
    assert "th"[0] == 't' && "rv"[0] == 'r' && "a"[0] == 'a' && "b"[0] == 'b' && "p"[0] == 'p';
    forall k ensures Get(o, k) == if o[0].k == k then Some(o[0].v) else if |o| == 2 && o[1].k == k then Some(o[1].v)
        else None {
      GetFew(o[0], o[|o| - 1], k);
      assert o == if |o| == 1 then [o[0]] else [o[0], o[1]];
    }
    hide Get;
  }

  lemma GetFew(f: Field, g: Field, k: string)
    ensures Get([f], k) == if f.k == k then Some(f.v) else None
    ensures Get([f, g], k) == if f.k == k then Some(f.v) else if g.k == k then Some(g.v) else None
  {
    assert [f][1..] == [] && [f, g][1..] == [g] && [g][1..] == [];
    assert Get([], k) == None;
  }

  /** So for every ratio between 0 and 1 there are valid incoming members under which a trace is sampled and goes on as
      it came, without its threshold. */
  lemma SampledWithoutThreshold(ratio: real, o: Fields)
    requires RootOf(ratio).AtLeast? && (o == LongRandomness() || o == SpaceBeforeLast())
    ensures ValidValue(Lookup(Incoming(o), "ot"))
    ensures Decided(RootOf(ratio), false, Incoming(o), Draw(MAX_THRESHOLD - 1, 0)) == (true, Incoming(o))
    ensures Probability(Parsed(Lookup(Incoming(o), "ot"))) == None
  {
    hide *;
    ThresholdDecodes(ratio);
    if o == LongRandomness() {
      LongRandomnessIsNotStorable(RootOf(ratio).th);
    } else {
      SpaceBeforeLastIsNotStorable(RootOf(ratio).th);
    }
    WitnessFields(o);
    UnstoredStaysAsItCame(ratio, o);
    IncomingValue(o);
  }

  lemma IncomingValue(o: Fields)
    ensures Lookup(Incoming(o), "ot") == Rendered(o)
  {
  }

  lemma RandomnessInRange(o: Fields)
    ensures Randomness(o).Some? ==> 0 <= Randomness(o).value < MAX_THRESHOLD
  {
    MaxIsPow16();
    if Randomness(o).Some? {
      HexNumberBound(Get(o, "rv").value);
    }
  }

  /** A trace that starts without an `ot` member is always stored. */
  lemma NewTraceIsStorable(ratio: real, writeRV: bool, d: Draw)
    requires ValidDraw(d) && RootOf(ratio).AtLeast?
    ensures var (r, next) := Chosen([], writeRV, d);
            Storable(SubKeys(RootOf(ratio), next, r >= RootOf(ratio).threshold))
  {
    var root := RootOf(ratio);
    ThresholdDecodes(ratio);
    hide RootOf, ParseThreshold, Storable, Fit, Rendered, Hex, IsHex, MAX_THRESHOLD;
    var th, rv := Field("th", root.th), Field("rv", Hex(d.random, HEX_DIGITS));
    OneFieldStorable(th);
    OneFieldStorable(rv);
    TwoFieldsStorable(th, rv);
    NothingIsStorable();
    NewSubKeys(root, writeRV, d);
    hide Chosen, SubKeys;
  }

  lemma NewSubKeys(root: Root, writeRV: bool, d: Draw)
    requires root.AtLeast?
    ensures var (r, next) := Chosen([], writeRV, d);
            var th, rv := Field("th", root.th), Field("rv", Hex(d.random, HEX_DIGITS));
            SubKeys(root, next, true) == (if writeRV then [th] + [rv] else [th])
            && SubKeys(root, next, false) == if writeRV then [rv] else []
  {
    hide Hex;
    var rv := Field("rv", Hex(d.random, HEX_DIGITS));
    assert Without([], "th") == [] && Without([], "rv") == [];
    assert [rv][..0] == [] && Without([rv], "th") == [rv];
    assert [] + [rv] == [rv];
  }

  lemma NothingIsStorable()
    ensures Storable([])
  {
    assert Rendered([]) == "";
  }

  /** Short hexadecimal values under `th` and `rv` always fit. */
  lemma OneFieldStorable(f: Field)
    requires (f.k == "th" || f.k == "rv") && 1 <= |f.v| <= HEX_DIGITS && forall c :: c in f.v ==> IsHex(c)
    ensures Storable([f]) && Rendered([f]) == FieldText(f)
  {
    FieldValid(f);
    assert Rendered([f]) == FieldText(f) by {
      RenderedAppend([], f);
      assert [] + [f] == [f] && "" + FieldText(f) == FieldText(f);
    }
    hide Rendered, Storable, ValidValue, FieldText, IsHex;
    ValidIsStorable([f]);
  }

  lemma TwoFieldsStorable(th: Field, rv: Field)
    requires th.k == "th" && rv.k == "rv" && 1 <= |th.v| <= HEX_DIGITS && 1 <= |rv.v| <= HEX_DIGITS
    requires (forall c :: c in th.v ==> IsHex(c)) && forall c :: c in rv.v ==> IsHex(c)
    ensures Storable([th] + [rv])
  {
    OneFieldStorable(th);
    FieldValid(th);
    FieldValid(rv);
    hide Rendered, Storable, ValidValue, FieldText, IsHex;
    RenderedAppend([th], rv);
    JoinedValid(FieldText(th), FieldText(rv));
    ValidIsStorable([th] + [rv]);
  }

  lemma JoinedValid(t: string, r: string)
    requires ValidValue(t) && ValidValue(r) && |t| + |r| < 256
    ensures ValidValue(t + ";" + r)
  {
    var s := t + ";" + r;
    assert s[|s| - 1] == r[|r| - 1];
    forall c | c in s ensures ' ' <= c <= '~' && c != ',' && c != '=' {
      assert c in t || c == ';' || c in r;
    }
  }

  lemma ValidIsStorable(o: Fields)
    requires ValidValue(Rendered(o))
    ensures Storable(o)
  {
  }

  lemma FieldValid(f: Field)
    requires |f.k| == 2 && 1 <= |f.v| <= HEX_DIGITS && (f.k == "th" || f.k == "rv") && forall c :: c in f.v ==> IsHex(c)
    ensures ValidValue(FieldText(f)) && |FieldText(f)| <= 20
  {
    var t := FieldText(f);
    assert t[|t| - 1] == f.v[|f.v| - 1];
    assert f.v[|f.v| - 1] in f.v;
    forall c | c in t ensures ' ' <= c <= '~' && c != ',' && c != '=' {
      assert c in f.k || c == ':' || c in f.v;
    }
  }
}
