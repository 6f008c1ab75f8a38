/** Condition values over a range of ends from shared buckets, against one evaluation per end
    (internal/alert/cond_metric.go, internal/alert/cond_nodata.go, internal/alert/cond_discovery.go). */
module Ranges {
  import opened Base
  import opened Windows
  import opened Arithmetic

  /** The ends in (from, to], one step apart. */
  method RangeEnds(from: Time, upTo: Time, step: int) returns (ends: seq<Time>)
    requires step > 0
    ensures forall i :: 0 <= i < |ends| ==> ends[i] == Mark(from, step, i + 1) && ends[i] <= upTo
    ensures Mark(from, step, |ends| + 1) > upTo
  {
    ends := [];
    var e := from + step;
    while !(e > upTo)
      invariant e == Mark(from, step, |ends| + 1)
      invariant forall i :: 0 <= i < |ends| ==> ends[i] == Mark(from, step, i + 1) && ends[i] <= upTo
      decreases upTo - e
    {
      MarkNext(from, step, |ends| + 1);
      ends := ends + [e];
      e := e + step;
    }
  }

  // ----- points in time -----

  datatype Point = Point(t: Time, v: real)

  predicate InOrder(ps: seq<Point>) {
    forall i, j :: 0 <= i < j < |ps| ==> ps[i].t <= ps[j].t
  }

  function Within(ps: seq<Point>, lo: Time, hi: Time): seq<Point> {
    if ps == [] then []
    else (if lo <= ps[0].t < hi then [ps[0]] else []) + Within(ps[1..], lo, hi)
  }

  function ValuesOf(ps: seq<Point>): (vs: seq<real>)
    ensures |vs| == |ps|
  {
    seq(|ps|, i requires 0 <= i < |ps| => ps[i].v)
  }

  lemma {:induction false} WithinNone(ps: seq<Point>, lo: Time, hi: Time)
    requires forall i :: 0 <= i < |ps| ==> hi <= ps[i].t
    ensures Within(ps, lo, hi) == []
  {
    if ps != [] {
      WithinNone(ps[1..], lo, hi);
    }
  }

  /** Adjacent stretches of time hold adjacent stretches of points. */
  lemma {:induction false} WithinJoin(ps: seq<Point>, a: Time, b: Time, c: Time)
    requires InOrder(ps) && a <= b <= c
    ensures Within(ps, a, c) == Within(ps, a, b) + Within(ps, b, c)
  {
    if ps != [] {
      WithinJoin(ps[1..], a, b, c);
      WithinHead(ps, a, b);
      WithinHead(ps, b, c);
      WithinHead(ps, a, c);
      hide Within;
      if b <= ps[0].t {
        WithinNone(ps, a, b);
        WithinNone(ps[1..], a, b);
      }
    }
  }

  lemma WithinHead(ps: seq<Point>, lo: Time, hi: Time)
    requires ps != []
    ensures Within(ps, lo, hi) ==
            if lo <= ps[0].t < hi then [ps[0]] + Within(ps[1..], lo, hi) else Within(ps[1..], lo, hi)
  {
  }

  /** The points of the buckets [lo, hi), bucket by bucket. */
  function Chunks(ps: seq<Point>, origin: Time, step: int, lo: int, hi: int): (cs: seq<seq<real>>)
    requires lo <= hi
    ensures |cs| == hi - lo
    ensures forall k :: 0 <= k < |cs| ==>
        cs[k] == ValuesOf(Within(ps, Mark(origin, step, lo + k), Mark(origin, step, lo + k + 1)))
    decreases hi - lo
  {
    if lo == hi then []
    else
      var last := ValuesOf(Within(ps, Mark(origin, step, hi - 1), Mark(origin, step, hi)));
      Chunks(ps, origin, step, lo, hi - 1) + [last]
  }

  lemma ValuesConcat(p: seq<Point>, q: seq<Point>)
    ensures ValuesOf(p + q) == ValuesOf(p) + ValuesOf(q)
  {
  }

  lemma {:induction false} WithinNothing(ps: seq<Point>, a: Time)
    ensures Within(ps, a, a) == []
  {
    if ps != [] {
      WithinNothing(ps[1..], a);
    }
  }

  lemma {:induction false} ChunksJoin(ps: seq<Point>, origin: Time, step: int, lo: int, hi: int)
    requires InOrder(ps) && step > 0 && lo <= hi
    ensures Flat(Chunks(ps, origin, step, lo, hi)) ==
        ValuesOf(Within(ps, Mark(origin, step, lo), Mark(origin, step, hi)))
    decreases hi - lo
  {
    hide Mark;
    hide InOrder;
    var cs := Chunks(ps, origin, step, lo, hi);
    if lo == hi {
      WithinNothing(ps, Mark(origin, step, lo));
    } else {
      ChunksJoin(ps, origin, step, lo, hi - 1);
      assert cs[..|cs| - 1] == Chunks(ps, origin, step, lo, hi - 1);
      MarkLe(origin, step, lo, hi - 1);
      MarkLe(origin, step, hi - 1, hi);
      var a, b, c := Mark(origin, step, lo), Mark(origin, step, hi - 1), Mark(origin, step, hi);
      WithinJoin(ps, a, b, c);
      ValuesConcat(Within(ps, a, b), Within(ps, b, c));
    }
  }

  // ----- metric thresholds -----

  datatype Series = Series(points: seq<Point>, delta: bool)

  /** The condition's settings: aggregation over time and across the series of a group. */
  datatype Selector = Selector(agg: Aggregation, how: Across)

  /** A window in time and its length in seconds. */
  datatype Window = Window(lo: Time, hi: Time, seconds: real)

  function WindowBefore(end: Time, w: int): Window {
    Window(end - w, end, w as real / SECOND as real)
  }

  /** The value of one series over a window, from its points. */
  function SeriesValue(s: Series, w: Window, agg: Aggregation): Value {
    DirectValue(ValuesOf(Within(s.points, w.lo, w.hi)), s.delta, agg, w.seconds)
  }

  function SeriesValues(ss: seq<Series>, w: Window, agg: Aggregation): seq<real> {
    if ss == [] then []
    else
      var v := SeriesValue(ss[0], w, agg);
      (if v.Num? then [v.x] else []) + SeriesValues(ss[1..], w, agg)
  }

  /** What the condition says about a group of series over a window. */
  function MetricValue(ss: seq<Series>, w: Window, sel: Selector): Value {
    SeriesAggregate(SeriesValues(ss, w, sel.agg), sel.how)
  }

  function Buckets(s: Series, origin: Time, step: int, n: nat): (bs: seq<Stats>)
    ensures |bs| == n
  {
    Summaries(Chunks(s.points, origin, step, 0, n), s.delta)
  }

  ghost predicate AllInOrder(ss: seq<Series>) {
    forall s :: s in ss ==> InOrder(s.points)
  }

  lemma SlicedBuckets(s: Series, origin: Time, step: int, n: nat, lo: nat, hi: nat)
    requires lo <= hi <= n
    ensures Buckets(s, origin, step, n)[lo..hi] == Summaries(Chunks(s.points, origin, step, lo, hi), s.delta)
  {
    hide Mark;
    hide Summary;
  }

  /** A slice of a series' buckets is worth the points between its bounds. */
  lemma BucketSlice(s: Series, origin: Time, step: int, n: nat, lo: nat, hi: nat, agg: Aggregation, seconds: real)
    requires InOrder(s.points) && step > 0 && lo <= hi <= n
    ensures ValueOf(Merged(Buckets(s, origin, step, n)[lo..hi]), agg, seconds)
         == SeriesValue(s, Window(Mark(origin, step, lo), Mark(origin, step, hi), seconds), agg)
  {
    hide Mark;
    hide Buckets;
    hide ValueOf;
    hide DirectValue;
    SlicedBuckets(s, origin, step, n, lo, hi);
    BucketsDoNotMatter(Chunks(s.points, origin, step, lo, hi), s.delta, agg, seconds);
    ChunksJoin(s.points, origin, step, lo, hi);
  }

  function AllBuckets(ss: seq<Series>, origin: Time, step: int, n: nat): (r: seq<seq<Stats>>)
    ensures |r| == |ss| && forall i :: 0 <= i < |ss| ==> r[i] == Buckets(ss[i], origin, step, n)
  {
    seq(|ss|, i requires 0 <= i < |ss| => Buckets(ss[i], origin, step, n))
  }

  lemma {:induction false} SeriesValuesConcat(a: seq<Series>, b: seq<Series>, w: Window, agg: Aggregation)
    ensures SeriesValues(a + b, w, agg) == SeriesValues(a, w, agg) + SeriesValues(b, w, agg)
  {
    hide SeriesValue;
    if a == [] {
      assert a + b == b;
    } else {
      assert (a + b)[1..] == a[1..] + b;
      SeriesValuesConcat(a[1..], b, w, agg);
    }
  }

  /** The group value over the buckets [lo, hi), series by series. */
  method ValueAt(ss: seq<Series>, bs: seq<seq<Stats>>, origin: Time, step: int, n: nat, lo: nat, hi: nat, sel: Selector,
      seconds: real)
    returns (v: Value)
    requires AllInOrder(ss) && step > 0 && lo <= hi <= n && bs == AllBuckets(ss, origin, step, n)
    ensures v == MetricValue(ss, Window(Mark(origin, step, lo), Mark(origin, step, hi), seconds), sel)
  {
    hide Mark;
    hide Buckets;
    hide SeriesValue;
    ghost var w := Window(Mark(origin, step, lo), Mark(origin, step, hi), seconds);
    var vals: seq<Value> := [];
    for i := 0 to |ss|
      invariant Numbers(vals) == SeriesValues(ss[..i], w, sel.agg)
    {
      assert ss[i] in ss;
      BucketSlice(ss[i], origin, step, n, lo, hi, sel.agg, seconds);
      assert ss[..i + 1] == ss[..i] + [ss[i]];
      SeriesValuesConcat(ss[..i], [ss[i]], w, sel.agg);
      var x := WindowValue(bs[i][lo..hi], sel.agg, seconds);
      if x.Num? {
        assert (vals + [x])[..|vals|] == vals;
        vals := vals + [x];
      }
    }
    assert ss[..|ss|] == ss;
    v := AggregateSeries(vals, sel.how);
  }

  /** One evaluation: a single bucket as wide as the window. */
  method EvaluateMetric(ss: seq<Series>, end: Time, w: int, sel: Selector) returns (v: Value)
    requires AllInOrder(ss) && w > 0
    ensures v == MetricValue(ss, WindowBefore(end, w), sel)
  {
    v := ValueAt(ss, AllBuckets(ss, end - w, w, 1), end - w, w, 1, 0, 1, sel, w as real / SECOND as real);
  }

  /** The buckets [i + 1, i + 1 + k) of a range end at its i-th end and reach back `k` steps. */
  lemma RangeWindow(from: Time, step: int, k: int, i: int)
    requires step > 0
    ensures Mark(from - k * step, step, i + 1 + k) == Mark(from, step, i + 1)
    ensures Mark(from - k * step, step, i + 1) == Mark(from, step, i + 1) - k * step
  {
    hide Mark;
    MarkShift(from, step, k, i + 1);
    MarkBack(from - k * step, step, k, i + 1);
  }

  /** A range: shared buckets one step wide. Every value is the evaluation at its end over the window rounded up to
      whole steps, so it is the evaluation itself exactly when the step divides the window. */
  method RangeMetric(ss: seq<Series>, from: Time, upTo: Time, step: int, w: int, sel: Selector)
    returns (ends: seq<Time>, values: seq<Value>, approximate: bool)
    requires AllInOrder(ss) && step > 0 && w > 0
    ensures |values| == |ends| && (approximate <==> w % step != 0)
    ensures forall i :: 0 <= i < |ends| ==> ends[i] == Mark(from, step, i + 1) && ends[i] <= upTo
    ensures Mark(from, step, |ends| + 1) > upTo
    ensures forall i :: 0 <= i < |values| ==>
        values[i] == MetricValue(ss, WindowBefore(ends[i], CeilDiv(w, step) * step), sel)
    ensures !approximate ==> forall i :: 0 <= i < |values| ==>
        values[i] == MetricValue(ss, WindowBefore(ends[i], w), sel)
  {
    hide MetricValue;
    hide Mark;
    ends := RangeEnds(from, upTo, step);
    var k := CeilDiv(w, step);
    CeilDivCovers(w, step);
    hide CeilDiv;
    var width := k * step;
    var origin := from - width;
    var n := k + |ends|;
    var bs := AllBuckets(ss, origin, step, n);
    approximate := w % step != 0;
    values := [];
    for i := 0 to |ends|
      invariant |values| == i
      invariant forall j :: 0 <= j < i ==> values[j] == MetricValue(ss, WindowBefore(ends[j], width), sel)
    {
      RangeWindow(from, step, k, i);
      var v := ValueAt(ss, bs, origin, step, n, i + 1, i + 1 + k, sel, width as real / SECOND as real);
      values := values + [v];
    }
  }

  // ----- the order of series does not matter -----

  lemma {:induction false} SeriesOrder(a: seq<Series>, b: seq<Series>, w: Window, agg: Aggregation)
    requires multiset(a) == multiset(b)
    ensures multiset(SeriesValues(a, w, agg)) == multiset(SeriesValues(b, w, agg))
  {
    hide SeriesValue;
    assert |multiset(a)| == |a| && |multiset(b)| == |b|;
    if a != [] {
      var i := TakeOut(a, b);
      var p, q := b[..i], b[i + 1..];
      SeriesOrder(a[1..], p + q, w, agg);
      SeriesValuesConcat(p, q, w, agg);
      SeriesValuesConcat(p, [a[0]] + q, w, agg);
      SeriesValuesConcat([a[0]], q, w, agg);
      SeriesValuesConcat([a[0]], a[1..], w, agg);
      assert [a[0]] + a[1..] == a;
    }
  }

  /** Groups are maps: the value does not depend on the order their series are visited in. */
  lemma GroupOrderDoesNotMatter(a: seq<Series>, b: seq<Series>, w: Window, sel: Selector)
    requires multiset(a) == multiset(b)
    ensures MetricValue(a, w, sel) == MetricValue(b, w, sel)
  {
    SeriesOrder(a, b, w, sel.agg);
    AggregateOrder(SeriesValues(a, w, sel.agg), SeriesValues(b, w, sel.agg), sel.how);
  }

  /** A series without points in the window adds nothing, so it may as well be missing from the group. */
  lemma SilentSeriesDoNotMatter(a: seq<Series>, s: Series, b: seq<Series>, w: Window, sel: Selector)
    requires Within(s.points, w.lo, w.hi) == []
    ensures MetricValue(a + [s] + b, w, sel) == MetricValue(a + b, w, sel)
  {
    SeriesValuesConcat(a + [s], b, w, sel.agg);
    SeriesValuesConcat(a, [s], w, sel.agg);
    SeriesValuesConcat(a, b, w, sel.agg);
    assert SeriesValues(a, w, sel.agg) + [] == SeriesValues(a, w, sel.agg);
  }

  // ----- no data -----

  const MILLISECOND := 1_000_000

  /** The last data point in [lo, hi) in milliseconds, 0 when there is none. */
  function LastIn(ts: seq<Time>, lo: Time, hi: Time): int {
    if ts == [] then 0
    else Max(if lo <= ts[0] < hi then ts[0] / MILLISECOND else 0, LastIn(ts[1..], lo, hi))
  }

  lemma {:induction false} LastJoin(ts: seq<Time>, a: Time, b: Time, c: Time)
    requires a <= b <= c
    ensures LastIn(ts, a, c) == Max(LastIn(ts, a, b), LastIn(ts, b, c)) && LastIn(ts, a, a) == 0
  {
    if ts != [] {
      LastJoin(ts[1..], a, b, c);
    }
  }

  /** Seconds since the last data point within the lookback before `end`. */
  function Age(ts: seq<Time>, end: Time, lookback: int): Value {
    AgeSince(end, LastIn(ts, end - lookback, end))
  }

  function AgeSince(end: Time, last: int): Value {
    if last > 0 then Num(MaxReal(0.0, (end / MILLISECOND - last) as real / 1000.0)) else NaN
  }

  function LastPerBucket(ts: seq<Time>, origin: Time, step: int, n: nat): (last: seq<int>)
    ensures |last| == n && forall j {:trigger last[j]} :: 0 <= j < n ==>
        last[j] == LastIn(ts, Mark(origin, step, j), Mark(origin, step, j + 1))
  {
    seq(n, j => LastIn(ts, Mark(origin, step, j), Mark(origin, step, j + 1)))
  }

  /** Ages at every end from one last-seen value per bucket; each is the age an evaluation at that end sees with the
      lookback rounded up to whole steps. */
  method LastSeenRange(ts: seq<Time>, from: Time, upTo: Time, step: int, lookback: int)
    returns (ends: seq<Time>, ages: seq<Value>, approximate: bool)
    requires step > 0 && lookback > 0
    ensures |ages| == |ends| && (approximate <==> lookback % step != 0)
    ensures forall i :: 0 <= i < |ends| ==> ends[i] == Mark(from, step, i + 1) && ends[i] <= upTo
    ensures Mark(from, step, |ends| + 1) > upTo
    ensures forall i :: 0 <= i < |ages| ==> ages[i] == Age(ts, ends[i], CeilDiv(lookback, step) * step)
    ensures !approximate ==> forall i :: 0 <= i < |ages| ==> ages[i] == Age(ts, ends[i], lookback)
  {
    hide Mark;
    hide LastIn;
    hide AgeSince;
    ends := RangeEnds(from, upTo, step);
    var l := CeilDiv(lookback, step);
    CeilDivCovers(lookback, step);
    hide CeilDiv;
    var width := l * step;
    var origin := from - width;
    approximate := lookback % step != 0;
    var n := l + |ends|;
    var last := LastPerBucket(ts, origin, step, n);
    ages := [];
    for i := 0 to |ends|
      invariant |ages| == i
      invariant forall j :: 0 <= j < i ==> ages[j] == Age(ts, ends[j], width)
    {
      RangeWindow(from, step, l, i);
      var best := LatestBucket(ts, last, origin, step, i + 1, i + 1 + l);
      assert AgeSince(ends[i], best) == Age(ts, ends[i], width);
      ages := ages + [AgeSince(ends[i], best)];
    }
  }

  method LatestBucket(ghost ts: seq<Time>, last: seq<int>, ghost origin: Time, ghost step: int, lo: nat, hi: nat)
      returns (best: int)
    requires step > 0 && lo <= hi <= |last|
    requires forall j {:trigger last[j]} :: 0 <= j < |last| ==>
        last[j] == LastIn(ts, Mark(origin, step, j), Mark(origin, step, j + 1))
    ensures best == LastIn(ts, Mark(origin, step, lo), Mark(origin, step, hi))
  {
    hide Mark;
    best := 0;
    var start := Mark(origin, step, lo);
    LastJoin(ts, start, start, start);
    for j := lo to hi
      invariant best == LastIn(ts, start, Mark(origin, step, j))
    {
      MarkLe(origin, step, lo, j);
      MarkLe(origin, step, j, j + 1);
      LastJoin(ts, start, Mark(origin, step, j), Mark(origin, step, j + 1));
      best := Max(best, last[j]);
    }
  }

  // ----- discovery -----

  datatype DiscoveryEvent = PortOpened | ProcessGone

  predicate SeenIn(ts: seq<Time>, lo: Time, hi: Time) {
    exists i :: 0 <= i < |ts| && lo <= ts[i] < hi
  }

  /** Presence per bucket. */
  function Presence(ts: seq<Time>, origin: Time, step: int, n: nat): (bs: seq<bool>)
    ensures |bs| == n && forall k {:trigger bs[k]} :: 0 <= k < n ==>
        bs[k] == SeenIn(ts, Mark(origin, step, k), Mark(origin, step, k + 1))
  {
    seq(n, k => SeenIn(ts, Mark(origin, step, k), Mark(origin, step, k + 1)))
  }

  method AnyIn(bs: seq<bool>, lo: int, hi: int) returns (found: bool)
    ensures found <==> AnyBucket(bs, lo, hi)
  {
    var i := Max(lo, 0);
    while i < hi && i < |bs|
      invariant Max(lo, 0) <= i
      invariant forall k :: Max(lo, 0) <= k < i && k < Min(hi, |bs|) ==> !bs[k]
    {
      if bs[i] {
        return true;
      }
      i := i + 1;
    }
    return false;
  }

  predicate AnyBucket(bs: seq<bool>, lo: int, hi: int) {
    exists i :: Max(lo, 0) <= i < Min(hi, |bs|) && bs[i]
  }

  /** Presence in consecutive buckets is presence in the time they cover. */
  lemma {:induction false} PresenceJoin(ts: seq<Time>, origin: Time, step: int, n: nat, lo: nat, hi: nat)
    requires step > 0 && lo <= hi <= n
    ensures AnyBucket(Presence(ts, origin, step, n), lo, hi) <==>
        SeenIn(ts, Mark(origin, step, lo), Mark(origin, step, hi))
    decreases hi
  {
    hide Mark;
    hide SeenIn;
    var bs := Presence(ts, origin, step, n);
    if lo == hi {
      NothingSeen(ts, Mark(origin, step, lo));
    } else {
      PresenceJoin(ts, origin, step, n, lo, hi - 1);
      MarkLe(origin, step, lo, hi - 1);
      MarkLe(origin, step, hi - 1, hi);
      var a, b, c := Mark(origin, step, lo), Mark(origin, step, hi - 1), Mark(origin, step, hi);
      assert bs[hi - 1] == SeenIn(ts, b, c);
      SeenJoin(ts, a, b, c);
      AnySplit(bs, lo, hi);
    }
  }

  lemma AnySplit(bs: seq<bool>, lo: nat, hi: nat)
    requires lo < hi <= |bs|
    ensures AnyBucket(bs, lo, hi) <==> AnyBucket(bs, lo, hi - 1) || bs[hi - 1]
  {
  }

  lemma NothingSeen(ts: seq<Time>, a: Time)
    ensures !SeenIn(ts, a, a)
  {
  }

  lemma SeenJoin(ts: seq<Time>, a: Time, b: Time, c: Time)
    requires a <= b <= c
    ensures SeenIn(ts, a, c) <==> SeenIn(ts, a, b) || SeenIn(ts, b, c)
  {
  }

  /** The event at one end: the item in the earlier period A, in the recent window B, and whether the host reported. */
  function EventValue(event: DiscoveryEvent, inA: bool, inB: bool, hostA: bool, hostB: bool): Value {
    if !inA && !inB then NaN
    else match event
      case PortOpened => Num(if inB && !inA && hostA then 1.0 else 0.0)
      case ProcessGone => Num(if inA && !inB && hostB then 1.0 else 0.0)
  }

  /** One evaluation at `end`: A = [end - lookback, end - window), B = [end - window, end). */
  function DiscoveryValue(event: DiscoveryEvent, item: seq<Time>, host: seq<Time>, end: Time, lookback: int,
      window: int): Value {
    EventValue(event, SeenIn(item, end - lookback, end - window), SeenIn(item, end - window, end),
               SeenIn(host, end - lookback, end - window), SeenIn(host, end - window, end))
  }

  method BucketEvent(event: DiscoveryEvent, item: seq<bool>, host: seq<bool>, aLo: int, bLo: int, bHi: int)
      returns (v: Value)
    ensures v == EventValue(event, AnyBucket(item, aLo, bLo), AnyBucket(item, bLo, bHi), AnyBucket(host, aLo, bLo),
        AnyBucket(host, bLo, bHi))
  {
    var inA := AnyIn(item, aLo, bLo);
    var inB := AnyIn(item, bLo, bHi);
    if !inA && !inB {
      return NaN;
    }
    match event {
      case PortOpened =>
        var hostA := AnyIn(host, aLo, bLo);
        v := Num(if inB && !inA && hostA then 1.0 else 0.0);
      case ProcessGone =>
        var hostB := AnyIn(host, bLo, bHi);
        v := Num(if inA && !inB && hostB then 1.0 else 0.0);
    }
  }

  /** A range of discovery events from shared presence buckets: at every end what an evaluation sees with lookback and
      window rounded up to whole steps. It is marked approximate even when the step divides both. */
  method RangeDiscovery(event: DiscoveryEvent, item: seq<Time>, host: seq<Time>, from: Time, upTo: Time, step: int,
      lookback: int, window: int)
    returns (ends: seq<Time>, values: seq<Value>, approximate: bool)
    requires step > 0 && 0 < window < lookback
    ensures |values| == |ends| && approximate
    ensures forall i :: 0 <= i < |ends| ==> ends[i] == Mark(from, step, i + 1) && ends[i] <= upTo
    ensures Mark(from, step, |ends| + 1) > upTo
    ensures forall i :: 0 <= i < |values| ==>
              values[i] ==
              DiscoveryValue(event, item, host, ends[i], CeilDiv(lookback, step) * step, CeilDiv(window, step) * step)
    ensures lookback % step == 0 && window % step == 0 ==>
              forall i :: 0 <= i < |values| ==>
                values[i] == DiscoveryValue(event, item, host, ends[i], lookback, window)
  {
    hide EventValue;
    hide Mark;
    hide SeenIn;
    hide Presence;
    approximate := true;
    ends := RangeEnds(from, upTo, step);
    var l, w := CeilDiv(lookback, step), CeilDiv(window, step);
    CeilDivMonotone(window, lookback, step);
    CeilDivCovers(window, step);
    CeilDivCovers(lookback, step);
    hide CeilDiv;
    var far, near := l * step, w * step;
    var origin := from - far;
    var n := l + |ends|;
    var items, hosts := Presence(item, origin, step, n), Presence(host, origin, step, n);
    values := [];
    for i := 0 to |ends|
      invariant |values| == i
      invariant forall j :: 0 <= j < i ==> values[j] == DiscoveryValue(event, item, host, ends[j], far, near)
    {
      RangeWindow(from, step, l, i);
      MarkBack(origin, step, w, i + 1 + l - w);
      var v := EventAt(event, item, host, items, hosts, origin, step, i + 1, i + 1 + l - w, i + 1 + l);
      values := values + [v];
    }
  }

  method EventAt(event: DiscoveryEvent, ghost item: seq<Time>, ghost host: seq<Time>, items: seq<bool>,
      hosts: seq<bool>,
                 ghost origin: Time, ghost step: int, aLo: nat, bLo: nat, bHi: nat) returns (v: Value)
    requires step > 0 && aLo <= bLo <= bHi <= |items|
    requires items == Presence(item, origin, step, |items|) && hosts == Presence(host, origin, step, |items|)
    ensures var a, b, c := Mark(origin, step, aLo), Mark(origin, step, bLo), Mark(origin, step, bHi);
            v == EventValue(event, SeenIn(item, a, b), SeenIn(item, b, c), SeenIn(host, a, b), SeenIn(host, b, c))
  {
    hide EventValue;
    hide Mark;
    hide SeenIn;
    hide AnyBucket;
    hide Presence;
    PresenceJoin(item, origin, step, |items|, aLo, bLo);
    PresenceJoin(item, origin, step, |items|, bLo, bHi);
    PresenceJoin(host, origin, step, |items|, aLo, bLo);
    PresenceJoin(host, origin, step, |items|, bLo, bHi);
    v := BucketEvent(event, items, hosts, aLo, bLo, bHi);
  }

  /** Presence in A and B read as two single buckets, as one evaluation does. */
  method EvaluateDiscovery(event: DiscoveryEvent, item: seq<Time>, host: seq<Time>, end: Time, lookback: int,
      window: int) returns (v: Value)
    requires 0 < window < lookback
    ensures v == DiscoveryValue(event, item, host, end, lookback, window)
  {
    hide EventValue;
    hide SeenIn;
    var items := [SeenIn(item, end - lookback, end - window), SeenIn(item, end - window, end)];
    var hosts := [SeenIn(host, end - lookback, end - window), SeenIn(host, end - window, end)];
    TwoBuckets(items);
    TwoBuckets(hosts);
    v := BucketEvent(event, items, hosts, 0, 1, 2);
  }

  lemma TwoBuckets(bs: seq<bool>)
    requires |bs| == 2
    ensures AnyBucket(bs, 0, 1) == bs[0] && AnyBucket(bs, 1, 2) == bs[1]
  {
  }
}
