/** Percentiles of a window from the percentiles of its buckets (internal/alert/window.go,
    internal/alert/cond_metric.go). */
module Percentiles {
  import opened Base
  import opened Arithmetic
  import opened Ranges

  /** The percentile of one bucket and the number of its points. */
  datatype Item = Item(v: real, weight: nat)

  datatype Percentile = P50 | P95 | P99

  function QuantileOf(p: Percentile): (q: real)
    ensures 0.0 < q < 1.0
    ensures 100.0 * q == if p.P50? then 50.0 else if p.P95? then 95.0 else 99.0
  {
    match p
    case P50 => 0.5
    case P95 => 0.95
    case P99 => 0.99
  }

  // ----- weights -----

  function Total(items: seq<Item>): nat {
    if items == [] then 0 else items[0].weight + Total(items[1..])
  }

  function AtMost(items: seq<Item>, x: real): nat {
    if items == [] then 0 else (if items[0].v <= x then items[0].weight else 0) + AtMost(items[1..], x)
  }

  function Below(items: seq<Item>, x: real): nat {
    if items == [] then 0 else (if items[0].v < x then items[0].weight else 0) + Below(items[1..], x)
  }

  /** `x` is a value of the items, the items up to it have at least the share `q` of the weight, and those below it have
      less. */
  predicate IsWeightedQuantile(items: seq<Item>, q: real, x: real) {
    Reaches(items, q * Total(items) as real, x)
  }

  predicate Reaches(items: seq<Item>, target: real, x: real) {
    && (exists i :: 0 <= i < |items| && items[i].v == x)
    && AtMost(items, x) as real >= target && Below(items, x) as real < target
  }

  lemma {:induction false} SmallerHasLess(items: seq<Item>, x: real, y: real)
    requires x < y
    ensures AtMost(items, x) <= Below(items, y)
  {
    if items != [] {
      SmallerHasLess(items[1..], x, y);
    }
  }

  /** There is at most one such value. */
  lemma QuantileIsUnique(items: seq<Item>, q: real, x: real, y: real)
    requires IsWeightedQuantile(items, q, x) && IsWeightedQuantile(items, q, y)
    ensures x == y
  {
    hide AtMost, Below;
    if x < y {
      SmallerHasLess(items, x, y);
    } else if y < x {
      SmallerHasLess(items, y, x);
    }
  }

  lemma {:induction false} WeightsConcat(a: seq<Item>, b: seq<Item>, x: real)
    ensures Total(a + b) == Total(a) + Total(b)
    ensures AtMost(a + b, x) == AtMost(a, x) + AtMost(b, x) && Below(a + b, x) == Below(a, x) + Below(b, x)
  {
    if a == [] {
      assert a + b == b;
    } else {
      assert (a + b)[1..] == a[1..] + b;
      WeightsConcat(a[1..], b, x);
    }
  }

  lemma {:induction false} AllAtMost(items: seq<Item>, x: real)
    requires forall i :: 0 <= i < |items| ==> items[i].v <= x
    ensures AtMost(items, x) == Total(items)
  {
    if items != [] {
      AllAtMost(items[1..], x);
    }
  }

  lemma {:induction false} NoneBelow(items: seq<Item>, x: real)
    requires forall i :: 0 <= i < |items| ==> x <= items[i].v
    ensures Below(items, x) == 0
  {
    if items != [] {
      NoneBelow(items[1..], x);
    }
  }

  lemma {:induction false} BelowIsPart(items: seq<Item>, x: real)
    ensures Below(items, x) <= Total(items)
  {
    if items != [] {
      BelowIsPart(items[1..], x);
    }
  }

  // ----- sorting -----

  predicate IsSorted(items: seq<Item>) {
    forall i, j :: 0 <= i < j < |items| ==> items[i].v <= items[j].v
  }

  function Insert(x: Item, s: seq<Item>): seq<Item> {
    if s == [] || x.v <= s[0].v then [x] + s else [s[0]] + Insert(x, s[1..])
  }

  function Sorted(s: seq<Item>): seq<Item> {
    if s == [] then [] else Insert(s[0], Sorted(s[1..]))
  }

  lemma {:induction false} InsertMembers(x: Item, s: seq<Item>)
    ensures multiset(Insert(x, s)) == multiset(s) + multiset{x}
  {
    if s != [] && x.v > s[0].v {
      InsertMembers(x, s[1..]);
      assert s == [s[0]] + s[1..];
      assert Insert(x, s) == [s[0]] + Insert(x, s[1..]);
    }
  }

  lemma {:induction false} InsertKeeps(x: Item, s: seq<Item>, at: real)
    ensures Total(Insert(x, s)) == Total([x] + s)
    ensures AtMost(Insert(x, s), at) == AtMost([x] + s, at) && Below(Insert(x, s), at) == Below([x] + s, at)
  {
    if s != [] && x.v > s[0].v {
      assert Insert(x, s) == [s[0]] + Insert(x, s[1..]);
      hide Insert, Total, AtMost, Below;
      InsertKeeps(x, s[1..], at);
      assert s == [s[0]] + s[1..];
      WeightsConcat([s[0]], Insert(x, s[1..]), at);
      WeightsConcat([x], s[1..], at);
      WeightsConcat([x], s, at);
      WeightsConcat([s[0]], s[1..], at);
    }
  }

  lemma {:induction false} InsertSorts(x: Item, s: seq<Item>)
    requires IsSorted(s)
    ensures IsSorted(Insert(x, s))
  {
    if s != [] && x.v > s[0].v {
      InsertSorts(x, s[1..]);
      var rest := Insert(x, s[1..]);
      InsertMembers(x, s[1..]);
      forall i | 0 <= i < |rest| ensures s[0].v <= rest[i].v {
        assert rest[i] in multiset(rest);
        assert rest[i] == x || rest[i] in s[1..];
      }
    }
  }

  lemma {:induction false} SortedSorts(s: seq<Item>)
    ensures IsSorted(Sorted(s)) && multiset(Sorted(s)) == multiset(s)
  {
    hide Insert, IsSorted;
    if s != [] {
      SortedSorts(s[1..]);
      InsertMembers(s[0], Sorted(s[1..]));
      InsertSorts(s[0], Sorted(s[1..]));
      assert s == [s[0]] + s[1..];
    } else {
      NothingIsSorted();
    }
  }

  lemma NothingIsSorted()
    ensures IsSorted([])
  {
  }

  lemma {:induction false} SortedKeeps(s: seq<Item>, x: real)
    ensures Total(Sorted(s)) == Total(s)
    ensures AtMost(Sorted(s), x) == AtMost(s, x) && Below(Sorted(s), x) == Below(s, x)
  {
    if s != [] {
      SortedKeeps(s[1..], x);
      var rest := Sorted(s[1..]);
      assert Sorted(s) == Insert(s[0], rest);
      hide Insert, Sorted;
      InsertKeeps(s[0], rest, x);
      WeightsConcat([s[0]], rest, x);
      WeightsConcat([s[0]], s[1..], x);
      assert s == [s[0]] + s[1..];
    }
  }

  /** The weights around the `i`-th value of a sorted list. */
  lemma SortedWeights(s: seq<Item>, i: nat)
    requires IsSorted(s) && i < |s|
    ensures AtMost(s, s[i].v) >= Total(s[..i + 1]) && Below(s, s[i].v) <= Total(s[..i])
  {
    var x := s[i].v;
    AllAtMost(s[..i + 1], x);
    NoneBelow(s[i..], x);
    hide IsSorted, Total, AtMost, Below;
    assert s == s[..i + 1] + s[i + 1..] && s == s[..i] + s[i..];
    WeightsConcat(s[..i + 1], s[i + 1..], x);
    WeightsConcat(s[..i], s[i..], x);
    BelowIsPart(s[..i], x);
  }

  // ----- combining buckets -----

  /** The buckets that have points. */
  function Items(qs: seq<Value>, counts: seq<nat>): seq<Item>
    requires |qs| == |counts|
  {
    if qs == [] then []
    else
      var n := |qs| - 1;
      Items(qs[..n], counts[..n]) + if counts[n] == 0 || qs[n].NaN? then [] else [Item(qs[n].x, counts[n])]
  }

  method CollectItems(qs: seq<Value>, counts: seq<nat>) returns (items: seq<Item>, total: nat)
    requires |qs| == |counts|
    ensures items == Items(qs, counts) && total == Total(items)
    ensures total == 0 <==> items == []
  {
    items, total := [], 0;
    for i := 0 to |qs|
      invariant items == Items(qs[..i], counts[..i]) && total == Total(items)
      invariant total == 0 <==> items == []
    {
      assert qs[..i + 1][..i] == qs[..i] && counts[..i + 1][..i] == counts[..i];
      if counts[i] == 0 || qs[i].NaN? {
        continue;
      }
      WeightsConcat(items, [Item(qs[i].x, counts[i])], 0.0);
      items := items + [Item(qs[i].x, counts[i])];
      total := total + counts[i];
    }
    assert qs[..|qs|] == qs && counts[..|counts|] == counts;
  }

  /** The weighted quantile of the buckets that have points; a single one is returned as it is. */
  method CombineQuantiles(qs: seq<Value>, counts: seq<nat>, q: real) returns (v: Value)
    requires |qs| == |counts| && 0.0 < q <= 1.0
    ensures v.NaN? <==> Items(qs, counts) == []
    ensures v.Num? ==> IsWeightedQuantile(Items(qs, counts), q, v.x)
  {
    hide Items, AtMost, Below, Insert, Reaches, IsWeightedQuantile;
    var items, total := CollectItems(qs, counts);
    if total == 0 {
      return NaN;
    }
    if |items| == 1 {
      OneItem(items, q);
      return Num(items[0].v);
    }
    ShareOfTotal(q, total);
    var target := q * total as real;
    v := FirstReaching(items, target);
    ReachesIsQuantile(items, q, target, v.x);
  }

  lemma ReachesIsQuantile(items: seq<Item>, q: real, target: real, x: real)
    requires target == q * Total(items) as real && Reaches(items, target, x)
    ensures IsWeightedQuantile(items, q, x)
  {
    hide Reaches;
  }

  lemma OneItem(items: seq<Item>, q: real)
    requires |items| == 1 && Total(items) > 0 && 0.0 < q <= 1.0
    ensures IsWeightedQuantile(items, q, items[0].v)
  {
    ShareOfTotal(q, Total(items));
    hide IsWeightedQuantile;
    OneReaches(items, q * Total(items) as real);
    ReachesIsQuantile(items, q, q * Total(items) as real, items[0].v);
  }

  lemma OneReaches(items: seq<Item>, target: real)
    requires |items| == 1 && 0.0 < target <= Total(items) as real
    ensures Reaches(items, target, items[0].v)
  {
    assert items[1..] == [];
    assert items[0].v == items[0].v;
  }

  lemma ShareOfTotal(q: real, total: nat)
    requires 0.0 < q <= 1.0 && total > 0
    ensures 0.0 < q * total as real <= total as real
  {
  }

  method FirstReaching(items: seq<Item>, target: real) returns (v: Value)
    requires 0.0 < target <= Total(items) as real
    ensures v.Num? && Reaches(items, target, v.x)
  {
    var s := Sorted(items);
    SortedKeeps(items, 0.0);
    EmptyTotal(s);
    hide Total, AtMost, Below, Insert, Sorted, Reaches;
    var acc, i := 0, 0;
    v := NaN;
    while i < |s| && acc as real < target
      invariant 0 <= i <= |s| && acc == Total(s[..i])
      invariant i > 0 ==> v == Num(s[i - 1].v) && Total(s[..i - 1]) as real < target
      decreases |s| - i
    {
      TotalNext(s, i);
      v := Num(s[i].v);
      acc := acc + s[i].weight;
      i := i + 1;
    }
    assert s[..|s|] == s;
    ReachedAt(items, i - 1, target);
  }

  /** The value at which the sorted weights reach the target. */
  lemma ReachedAt(items: seq<Item>, i: nat, target: real)
    requires var s := Sorted(items);
             i < |s| && Total(s[..i]) as real < target <= Total(s[..i + 1]) as real
    ensures Reaches(items, target, Sorted(items)[i].v)
  {
    hide Total, AtMost, Below, Sorted;
    var s := Sorted(items);
    SortedSorts(items);
    SortedWeights(s, i);
    SortedKeeps(items, s[i].v);
    SameValues(items, s, i);
  }

  lemma EmptyTotal(s: seq<Item>)
    ensures Total(s[..0]) == 0
  {
  }

  lemma TotalNext(s: seq<Item>, i: nat)
    requires i < |s|
    ensures Total(s[..i + 1]) == Total(s[..i]) + s[i].weight
  {
    assert s[..i + 1] == s[..i] + [s[i]];
    WeightsConcat(s[..i], [s[i]], 0.0);
  }

  lemma SameValues(items: seq<Item>, s: seq<Item>, i: nat)
    requires multiset(s) == multiset(items) && i < |s|
    ensures exists j :: 0 <= j < |items| && items[j].v == s[i].v
  {
    assert s[i] in multiset(items);
    var j :| 0 <= j < |items| && items[j] == s[i];
  }

  // ----- evaluations and ranges -----

  /** The percentile of the points of a window, as the database computes it from them. */
  function WindowQuantile(ps: seq<Point>, f: seq<real> -> real, lo: Time, hi: Time): Value {
    var vs := ValuesOf(Within(ps, lo, hi));
    if vs == [] then NaN else Num(f(vs))
  }

  function BucketQuantiles(ps: seq<Point>, f: seq<real> -> real, origin: Time, step: int, n: nat): (qs: seq<Value>)
    ensures |qs| == n && forall j {:trigger qs[j]} :: 0 <= j < n ==>
      qs[j] == WindowQuantile(ps, f, Mark(origin, step, j), Mark(origin, step, j + 1))
  {
    seq(n, j => WindowQuantile(ps, f, Mark(origin, step, j), Mark(origin, step, j + 1)))
  }

  function BucketCounts(ps: seq<Point>, origin: Time, step: int, n: nat): (cs: seq<nat>)
    ensures |cs| == n && forall j {:trigger cs[j]} :: 0 <= j < n ==>
      cs[j] == |Within(ps, Mark(origin, step, j), Mark(origin, step, j + 1))|
  {
    seq(n, j => |Within(ps, Mark(origin, step, j), Mark(origin, step, j + 1))|)
  }

  /** What the buckets [lo, hi) say: nothing without points, and the percentile itself of a single bucket. */
  method PercentileAt(ps: seq<Point>, f: seq<real> -> real, origin: Time, step: int, n: nat, lo: nat, hi: nat,
                      p: Percentile) returns (v: Value)
    requires lo <= hi <= n
    ensures var qs, cs := BucketQuantiles(ps, f, origin, step, n)[lo..hi], BucketCounts(ps, origin, step, n)[lo..hi];
            && (v.NaN? <==> Items(qs, cs) == [])
            && (v.Num? ==> IsWeightedQuantile(Items(qs, cs), QuantileOf(p), v.x))
    ensures hi == lo + 1 ==> v == WindowQuantile(ps, f, Mark(origin, step, lo), Mark(origin, step, lo + 1))
  {
    hide Mark, Items, IsWeightedQuantile, Within;
    var qs, cs := BucketQuantiles(ps, f, origin, step, n)[lo..hi], BucketCounts(ps, origin, step, n)[lo..hi];
    v := CombineQuantiles(qs, cs, QuantileOf(p));
    if hi == lo + 1 {
      SingleBucket(qs, cs, QuantileOf(p), v);
    }
  }

  lemma SingleBucket(qs: seq<Value>, cs: seq<nat>, q: real, v: Value)
    requires |qs| == |cs| == 1 && (qs[0].NaN? <==> cs[0] == 0)
    requires v.NaN? <==> Items(qs, cs) == []
    requires v.Num? ==> IsWeightedQuantile(Items(qs, cs), q, v.x)
    ensures v == qs[0]
  {
    assert Items(qs[..0], cs[..0]) == [];
  }

  /** The time that `k` buckets cover. */
  function Width(k: int, step: int): int {
    k * step
  }

  lemma WidthOfOne(step: int)
    ensures Width(1, step) == step
  {
  }

  /** One evaluation: a single bucket as wide as the window. */
  method EvaluatePercentile(ps: seq<Point>, f: seq<real> -> real, end: Time, w: int, p: Percentile) returns (v: Value)
    ensures v == WindowQuantile(ps, f, end - w, end)
  {
    v := PercentileAt(ps, f, end - w, w, 1, 0, 1, p);
  }

  /** A range: every value is the weighted quantile of the buckets of its window. It is marked approximate unless the
      window is one bucket wide, and then it is the evaluation at its end. */
  method RangePercentile(ps: seq<Point>, f: seq<real> -> real, from: Time, upTo: Time, step: int, w: int, p: Percentile)
    returns (ends: seq<Time>, values: seq<Value>, approximate: bool)
    requires step > 0 && w > 0
    ensures |values| == |ends| && (approximate <==> w != step)
    ensures forall i :: 0 <= i < |ends| ==> ends[i] == Mark(from, step, i + 1) && ends[i] <= upTo
    ensures Mark(from, step, |ends| + 1) > upTo
    ensures forall i :: 0 <= i < |values| ==>
      CombinedAt(ps, f, ends[i] - Width(BucketsOf(w, step), step), step, BucketsOf(w, step), p, values[i])
    ensures !approximate ==> forall i :: 0 <= i < |values| ==> values[i] == WindowQuantile(ps, f, ends[i] - w, ends[i])
  {
    hide IsApproximate, BucketsOf, Mark, WindowQuantile, CombinedAt, Width;
    ends := RangeEnds(from, upTo, step);
    var k := BucketsOf(w, step);
    OneBucketExactly(w, step);
    var width := Width(k, step);
    approximate := IsApproximate(w, step, k);
    values := [];
    for i := 0 to |ends|
      invariant |values| == i
      invariant forall j :: 0 <= j < i ==> CombinedAt(ps, f, ends[j] - width, step, k, p, values[j])
      invariant k == 1 ==> forall j :: 0 <= j < i ==> values[j] == WindowQuantile(ps, f, ends[j] - step, ends[j])
    {
      var v := PercentileOf(ps, f, from, step, k, width, |ends|, i, p);
      values := values + [v];
    }
  }

  /** The value at the `i`-th end of a range. */
  method PercentileOf(ps: seq<Point>, f: seq<real> -> real, from: Time, step: int, k: nat, width: int, n: nat, i: nat,
                      p: Percentile) returns (v: Value)
    requires step > 0 && i < n && width == Width(k, step)
    ensures CombinedAt(ps, f, Mark(from, step, i + 1) - width, step, k, p, v)
    ensures k == 1 ==> v == WindowQuantile(ps, f, Mark(from, step, i + 1) - step, Mark(from, step, i + 1))
  {
    hide Mark, Width, WindowQuantile, BucketQuantiles, BucketCounts, Items, IsWeightedQuantile;
    v := PercentileAt(ps, f, from - width, step, k + n, i + 1, i + 1 + k, p);
    SliceOfRange(ps, f, from, step, k, width, n, i);
    if k == 1 {
      WidthOfOne(step);
      MarkMoves(from, step, k, width, i, 0);
      MarkMoves(from, step, k, width, i, 1);
    }
  }

  /** How many buckets reach back over the window. */
  function BucketsOf(w: int, step: int): nat
    requires w > 0 && step > 0
  {
    CeilDivCovers(w, step);
    CeilDiv(w, step)
  }

  predicate IsApproximate(w: int, step: int, k: int)
    requires step > 0
  {
    w % step != 0 || k > 1
  }

  lemma OneBucketExactly(w: int, step: int)
    requires w > 0 && step > 0
    ensures IsApproximate(w, step, BucketsOf(w, step)) <==> w != step
    ensures w == step ==> BucketsOf(w, step) == 1
  {
    CeilDivCovers(w, step);
    var k := CeilDiv(w, step);
    if k <= 0 {
      MulLe(k, 0, step);
    }
    if k == 1 {
      assert k * step == step;
    }
    if w == step {
      DivUnique(w, step, 1, 0);
      DivUnique(w + step - 1, step, 1, step - 1);
    }
  }

  /** The weighted quantile of the `k` buckets from `lo`, or nothing when none of them has points. */
  ghost predicate CombinedAt(ps: seq<Point>, f: seq<real> -> real, lo: Time, step: int, k: nat, p: Percentile,
      v: Value) {
    var qs, cs := BucketQuantiles(ps, f, lo, step, k), BucketCounts(ps, lo, step, k);
    && (v.NaN? <==> Items(qs, cs) == [])
    && (v.Num? ==> IsWeightedQuantile(Items(qs, cs), QuantileOf(p), v.x))
  }

  /** The slice of the shared buckets that ends at an end of the range is the buckets before that end. */
  lemma SliceOfRange(ps: seq<Point>, f: seq<real> -> real, from: Time, step: int, k: nat, width: int, n: nat, i: nat)
    requires step > 0 && i < n && width == Width(k, step)
    ensures var origin, lo := from - width, Mark(from, step, i + 1) - width;
            && BucketQuantiles(ps, f, origin, step, k + n)[i + 1..i + 1 + k] == BucketQuantiles(ps, f, lo, step, k)
            && BucketCounts(ps, origin, step, k + n)[i + 1..i + 1 + k] == BucketCounts(ps, lo, step, k)
  {
    hide WindowQuantile, Mark, Width;
    var origin, lo := from - width, Mark(from, step, i + 1) - width;
    var at := i + 1;
    forall j | 0 <= j <= k ensures MarksAgree(origin, lo, step, at, j) {
      MarkMoves(from, step, k, width, i, j);
    }
    SameQuantiles(ps, f, origin, lo, step, k, n, i + 1);
    SameCounts(ps, origin, lo, step, k, n, i + 1);
  }

  predicate MarksAgree(origin: Time, lo: Time, step: int, at: int, j: int) {
    Mark(origin, step, at + j) == Mark(lo, step, j)
  }

  lemma SameQuantiles(ps: seq<Point>, f: seq<real> -> real, origin: Time, lo: Time, step: int, k: nat, n: nat, at: nat)
    requires at <= n && forall j :: 0 <= j <= k ==> MarksAgree(origin, lo, step, at, j)
    ensures BucketQuantiles(ps, f, origin, step, k + n)[at..at + k] == BucketQuantiles(ps, f, lo, step, k)
  {
    hide WindowQuantile, Mark;
    var qs, rs := BucketQuantiles(ps, f, origin, step, k + n), BucketQuantiles(ps, f, lo, step, k);
    forall j | 0 <= j < k ensures qs[at + j] == rs[j] {
      assert MarksAgree(origin, lo, step, at, j) && MarksAgree(origin, lo, step, at, j + 1);
    }
    hide BucketQuantiles;
  }

  lemma SameCounts(ps: seq<Point>, origin: Time, lo: Time, step: int, k: nat, n: nat, at: nat)
    requires at <= n && forall j :: 0 <= j <= k ==> MarksAgree(origin, lo, step, at, j)
    ensures BucketCounts(ps, origin, step, k + n)[at..at + k] == BucketCounts(ps, lo, step, k)
  {
    hide Within, Mark;
    var cs, ds := BucketCounts(ps, origin, step, k + n), BucketCounts(ps, lo, step, k);
    forall j | 0 <= j < k ensures cs[at + j] == ds[j] {
      assert MarksAgree(origin, lo, step, at, j) && MarksAgree(origin, lo, step, at, j + 1);
    }
    hide BucketCounts;
  }

  /** The marks of the shared buckets and those of the buckets before one end. */
  lemma MarkMoves(from: Time, step: int, k: int, width: int, i: int, j: int)
    requires width == Width(k, step)
    ensures Mark(from - width, step, i + 1 + j) == Mark(Mark(from, step, i + 1) - width, step, j)
    ensures Mark(Mark(from, step, i + 1) - width, step, k) == Mark(from, step, i + 1)
    ensures Mark(Mark(from, step, i + 1) - width, step, 0) == Mark(from, step, i + 1) - width
  {
    assert (i + 1 + j) * step == (i + 1) * step + j * step;
  }
}
