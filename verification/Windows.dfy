/** Combining per-bucket aggregates of one time series into one window value, and the values of several series into
    one (internal/alert/window.go). */
module Windows {
  import opened Base

  /** The aggregates the query returns for one series in one bucket; `count` is 0 in an empty bucket. */
  datatype Stats = Stats(count: nat, sum: real, min: real, max: real, first: real, last: real, inc: real, delta: bool)

  const EMPTY := Stats(0, 0.0, 0.0, 0.0, 0.0, 0.0, 0.0, false)

  datatype Aggregation = Avg | MinAgg | MaxAgg | SumAgg | Count | Last | Rate | Unsupported

  function MinReal(a: real, b: real): real {
    if a < b then a else b
  }

  function MaxReal(a: real, b: real): real {
    if a < b then b else a
  }

  // ----- aggregating points directly -----

  function Sum(ps: seq<real>): real {
    if ps == [] then 0.0 else ps[0] + Sum(ps[1..])
  }

  function Least(ps: seq<real>): real
    requires ps != []
  {
    if |ps| == 1 then ps[0] else MinReal(ps[0], Least(ps[1..]))
  }

  function Greatest(ps: seq<real>): real
    requires ps != []
  {
    if |ps| == 1 then ps[0] else MaxReal(ps[0], Greatest(ps[1..]))
  }

  /** The increase of a counter: the sum of its positive differences, so a reset counts as 0. */
  function Increase(ps: seq<real>): real {
    if |ps| < 2 then 0.0 else MaxReal(ps[1] - ps[0], 0.0) + Increase(ps[1..])
  }

  /** The value of a window from its points alone. */
  function DirectValue(ps: seq<real>, delta: bool, agg: Aggregation, windowSec: real): Value {
    if ps == [] then NaN
    else match agg
      case Avg => Num(Sum(ps) / |ps| as real)
      case MinAgg => Num(Least(ps))
      case MaxAgg => Num(Greatest(ps))
      case SumAgg => Num(Sum(ps))
      case Count => Num(|ps| as real)
      case Last => Num(ps[|ps| - 1])
      case Rate => if windowSec <= 0.0 then NaN else Num((if delta then Sum(ps) else Increase(ps)) / windowSec)
      case Unsupported => NaN
  }

  // ----- aggregating bucket by bucket -----

  /** One bucket of a series in time order. */
  function Summary(ps: seq<real>, delta: bool): Stats {
    if ps == [] then EMPTY
    else Stats(|ps|, Sum(ps), Least(ps), Greatest(ps), ps[0], ps[|ps| - 1], Increase(ps), delta)
  }

  /** Two consecutive stretches seen as one. */
  function Merge(a: Stats, b: Stats): Stats {
    if b.count == 0 then a
    else if a.count == 0 then b
    else Stats(a.count + b.count, a.sum + b.sum, MinReal(a.min, b.min), MaxReal(a.max, b.max), a.first, b.last,
               a.inc + b.inc + MaxReal(b.first - a.last, 0.0), a.delta || b.delta)
  }

  function Merged(bs: seq<Stats>): Stats {
    if bs == [] then EMPTY else Merge(Merged(bs[..|bs| - 1]), bs[|bs| - 1])
  }

  function ValueOf(st: Stats, agg: Aggregation, windowSec: real): Value {
    if st.count == 0 then NaN
    else match agg
      case Avg => Num(st.sum / st.count as real)
      case MinAgg => Num(st.min)
      case MaxAgg => Num(st.max)
      case SumAgg => Num(st.sum)
      case Count => Num(st.count as real)
      case Last => Num(st.last)
      case Rate => if windowSec <= 0.0 then NaN else Num((if st.delta then st.sum else st.inc) / windowSec)
      case Unsupported => NaN
  }

  /** One pass over the buckets of a window. */
  method WindowValue(buckets: seq<Stats>, agg: Aggregation, windowSec: real) returns (v: Value)
    ensures v == ValueOf(Merged(buckets), agg, windowSec)
  {
    var cnt, sum, inc, last, deltaSeen := 0, 0.0, 0.0, 0.0, false;
    var mn, mx := 0.0, 0.0; // meaningful once cnt > 0
    var havePrev, prevLast := false, 0.0;
    for i := 0 to |buckets|
      invariant cnt == Merged(buckets[..i]).count && (havePrev <==> cnt > 0)
      invariant cnt > 0 ==>
        var m := Merged(buckets[..i]);
        && sum == m.sum && mn == m.min && mx == m.max && last == m.last && prevLast == m.last && inc == m.inc
        && deltaSeen == m.delta
      invariant cnt == 0 ==> sum == 0.0 && inc == 0.0 && !deltaSeen
    {
      assert buckets[..i + 1][..i] == buckets[..i];
      var b := buckets[i];
      if b.count == 0 {
        continue;
      }
      mn := if havePrev then MinReal(mn, b.min) else b.min;
      mx := if havePrev then MaxReal(mx, b.max) else b.max;
      cnt, sum, last := cnt + b.count, sum + b.sum, b.last;
      deltaSeen := deltaSeen || b.delta;
      inc := inc + b.inc;
      if havePrev {
        inc := inc + MaxReal(b.first - prevLast, 0.0);
      }
      prevLast, havePrev := b.last, true;
    }
    assert buckets[..|buckets|] == buckets;
    if cnt == 0 {
      return NaN;
    }
    match agg {
      case Avg => v := Num(sum / cnt as real);
      case MinAgg => v := Num(mn);
      case MaxAgg => v := Num(mx);
      case SumAgg => v := Num(sum);
      case Count => v := Num(cnt as real);
      case Last => v := Num(last);
      case Rate => v := if windowSec <= 0.0 then NaN else Num((if deltaSeen then sum else inc) / windowSec);
      case Unsupported => v := NaN;
    }
  }

  // ----- buckets do not matter -----

  lemma {:induction false} SumConcat(p: seq<real>, q: seq<real>)
    ensures Sum(p + q) == Sum(p) + Sum(q)
  {
    if p == [] {
      assert p + q == q;
    } else {
      assert (p + q)[1..] == p[1..] + q;
      SumConcat(p[1..], q);
    }
  }

  lemma {:induction false} LeastConcat(p: seq<real>, q: seq<real>)
    requires p != [] && q != []
    ensures Least(p + q) == MinReal(Least(p), Least(q)) && Greatest(p + q) == MaxReal(Greatest(p), Greatest(q))
  {
    assert (p + q)[1..] == p[1..] + q;
    if |p| > 1 {
      LeastConcat(p[1..], q);
    } else {
      assert p[1..] + q == q;
    }
  }

  lemma {:induction false} IncreaseConcat(p: seq<real>, q: seq<real>)
    requires p != [] && q != []
    ensures Increase(p + q) == Increase(p) + Increase(q) + MaxReal(q[0] - p[|p| - 1], 0.0)
  {
    assert (p + q)[1..] == p[1..] + q;
    if |p| > 1 {
      IncreaseConcat(p[1..], q);
    } else {
      assert p[1..] + q == q;
    }
  }

  /** Summaries of consecutive stretches merge to the summary of the whole, increase across the boundary included. */
  lemma SummaryConcat(p: seq<real>, q: seq<real>, delta: bool)
    ensures Summary(p + q, delta) == Merge(Summary(p, delta), Summary(q, delta))
  {
    if p == [] {
      assert p + q == q;
    } else if q == [] {
      assert p + q == p;
    } else {
      SumConcat(p, q);
      LeastConcat(p, q);
      IncreaseConcat(p, q);
    }
  }

  function Flat<T>(chunks: seq<seq<T>>): seq<T> {
    if chunks == [] then [] else Flat(chunks[..|chunks| - 1]) + chunks[|chunks| - 1]
  }

  function Summaries(chunks: seq<seq<real>>, delta: bool): (bs: seq<Stats>)
    ensures |bs| == |chunks| && forall i :: 0 <= i < |bs| ==> bs[i] == Summary(chunks[i], delta)
  {
    seq(|chunks|, i requires 0 <= i < |chunks| => Summary(chunks[i], delta))
  }

  lemma {:induction false} MergedSummaries(chunks: seq<seq<real>>, delta: bool)
    ensures Merged(Summaries(chunks, delta)) == Summary(Flat(chunks), delta)
  {
    var n := |chunks|;
    if n > 0 {
      MergedSummaries(chunks[..n - 1], delta);
      assert Summaries(chunks, delta)[..n - 1] == Summaries(chunks[..n - 1], delta);
      SummaryConcat(Flat(chunks[..n - 1]), chunks[n - 1], delta);
    }
  }

  /** However the points of a window are cut into consecutive buckets, the combined value is the one computed from
      the points. */
  lemma BucketsDoNotMatter(chunks: seq<seq<real>>, delta: bool, agg: Aggregation, windowSec: real)
    ensures ValueOf(Merged(Summaries(chunks, delta)), agg, windowSec) ==
        DirectValue(Flat(chunks), delta, agg, windowSec)
  {
    MergedSummaries(chunks, delta);
  }

  // ----- across series -----

  datatype Across = AcrossAvg | AcrossSum | AcrossMin | AcrossMax

  function SeriesAggregate(vs: seq<real>, how: Across): Value {
    if vs == [] then NaN
    else match how
      case AcrossSum => Num(Sum(vs))
      case AcrossMin => Num(Least(vs))
      case AcrossMax => Num(Greatest(vs))
      case AcrossAvg => Num(Sum(vs) / |vs| as real)
  }

  method AggregateSeries(values: seq<Value>, how: Across) returns (v: Value)
    ensures v == SeriesAggregate(Numbers(values), how)
  {
    var n, sum, mn, mx := 0, 0.0, 0.0, 0.0;
    for i := 0 to |values|
      invariant var vs := Numbers(values[..i]);
                n == |vs| && sum == Sum(vs) && (n > 0 ==> mn == Least(vs) && mx == Greatest(vs))
    {
      assert values[..i + 1][..i] == values[..i];
      ghost var vs := Numbers(values[..i]);
      if values[i].NaN? {
        assert Numbers(values[..i + 1]) == vs + [] == vs;
        continue;
      }
      var x := values[i].x;
      assert Numbers(values[..i + 1]) == vs + [x];
      SumConcat(vs, [x]);
      if n > 0 {
        LeastConcat(vs, [x]);
      }
      mn := if n == 0 then x else MinReal(mn, x);
      mx := if n == 0 then x else MaxReal(mx, x);
      n, sum := n + 1, sum + x;
    }
    assert values[..|values|] == values;
    if n == 0 {
      return NaN;
    }
    match how {
      case AcrossSum => v := Num(sum);
      case AcrossMin => v := Num(mn);
      case AcrossMax => v := Num(mx);
      case AcrossAvg => v := Num(sum / n as real);
    }
  }

  function Numbers(values: seq<Value>): seq<real> {
    if values == [] then []
    else
      var n := |values| - 1;
      Numbers(values[..n]) + if values[n].Num? then [values[n].x] else []
  }

  /** Taking the first value of `a` out of `b` leaves the other values of `a`. */
  lemma TakeOut<T>(a: seq<T>, b: seq<T>) returns (i: nat)
    requires multiset(a) == multiset(b) && a != []
    ensures i < |b| && b[i] == a[0] && b == b[..i] + ([a[0]] + b[i + 1..])
    ensures multiset(a[1..]) == multiset(b[..i] + b[i + 1..])
  {
    assert a[0] in multiset(b);
    i :| 0 <= i < |b| && b[i] == a[0];
    assert b == b[..i] + ([a[0]] + b[i + 1..]);
    assert a == [a[0]] + a[1..];
    assert multiset(a) == multiset{a[0]} + multiset(a[1..]);
    assert multiset(b) == multiset(b[..i]) + (multiset{a[0]} + multiset(b[i + 1..]));
    assert multiset(b[..i] + b[i + 1..]) == multiset(b[..i]) + multiset(b[i + 1..]);
    assert multiset(a[1..]) == multiset(a) - multiset{a[0]};
  }

  lemma SumTakeOut(x: real, p: seq<real>, q: seq<real>)
    ensures Sum(p + ([x] + q)) == x + Sum(p + q)
  {
    SumConcat(p, [x] + q);
    SumConcat([x], q);
    SumConcat(p, q);
  }

  /** A map is read in any order: the aggregate depends on the values only. */
  lemma {:induction false} SumOrder(a: seq<real>, b: seq<real>)
    requires multiset(a) == multiset(b)
    ensures Sum(a) == Sum(b) && |a| == |b|
    ensures a != [] ==> Least(a) == Least(b) && Greatest(a) == Greatest(b)
  {
    assert |multiset(a)| == |a| && |multiset(b)| == |b|;
    if a != [] {
      var i := TakeOut(a, b);
      var p, q := b[..i], b[i + 1..];
      SumOrder(a[1..], p + q);
      SumTakeOut(a[0], p, q);
      if p + q != [] {
        MovedFront(a[0], p, q);
      }
    }
  }

  lemma MovedFront(x: real, p: seq<real>, q: seq<real>)
    requires p + q != []
    ensures Least(p + ([x] + q)) == MinReal(x, Least(p + q)) && Greatest(p + ([x] + q)) == MaxReal(x, Greatest(p + q))
  {
    if p == [] {
      assert p + ([x] + q) == [x] + q && p + q == q;
      LeastConcat([x], q);
    } else {
      LeastConcat(p, [x] + q);
      if q != [] {
        LeastConcat([x], q);
        LeastConcat(p, q);
      } else {
        assert [x] + q == [x] && p + q == p;
      }
    }
  }

  lemma AggregateOrder(a: seq<real>, b: seq<real>, how: Across)
    requires multiset(a) == multiset(b)
    ensures SeriesAggregate(a, how) == SeriesAggregate(b, how)
  {
    SumOrder(a, b);
  }
}
