/** What the aggregations mean, stated on the points themselves. */
module WindowLaws {
  import opened Base
  import opened Windows

  lemma {:induction false} LeastIsLeast(ps: seq<real>)
    requires ps != []
    ensures Least(ps) in ps && forall i :: 0 <= i < |ps| ==> Least(ps) <= ps[i]
  {
    if |ps| > 1 {
      LeastIsLeast(ps[1..]);
      assert forall i :: 0 < i < |ps| ==> ps[i] == ps[1..][i - 1];
    }
  }

  lemma {:induction false} GreatestIsGreatest(ps: seq<real>)
    requires ps != []
    ensures Greatest(ps) in ps && forall i :: 0 <= i < |ps| ==> ps[i] <= Greatest(ps)
  {
    if |ps| > 1 {
      GreatestIsGreatest(ps[1..]);
      assert forall i :: 0 < i < |ps| ==> ps[i] == ps[1..][i - 1];
    }
  }

  /** The least and the greatest value of a list. */
  predicate IsLeast(x: real, ps: seq<real>) {
    x in ps && forall i :: 0 <= i < |ps| ==> x <= ps[i]
  }

  predicate IsGreatest(x: real, ps: seq<real>) {
    x in ps && forall i :: 0 <= i < |ps| ==> ps[i] <= x
  }

  /** Every aggregation of a window, on its points in time order. */
  lemma AggregationsMean(ps: seq<real>, delta: bool, windowSec: real)
    requires ps != []
    ensures DirectValue(ps, delta, MinAgg, windowSec).Num? && IsLeast(DirectValue(ps, delta, MinAgg, windowSec).x, ps)
    ensures DirectValue(ps, delta, MaxAgg, windowSec).Num?
        && IsGreatest(DirectValue(ps, delta, MaxAgg, windowSec).x, ps)
    ensures DirectValue(ps, delta, Count, windowSec) == Num(|ps| as real)
    ensures DirectValue(ps, delta, Last, windowSec) == Num(ps[|ps| - 1])
    ensures DirectValue(ps, delta, SumAgg, windowSec) == Num(Sum(ps))
    ensures DirectValue(ps, delta, Avg, windowSec) == Num(Sum(ps) / |ps| as real)
    ensures windowSec > 0.0 ==>
              DirectValue(ps, delta, Rate, windowSec) == Num((if delta then Sum(ps) else Increase(ps)) / windowSec)
    ensures windowSec <= 0.0 ==> DirectValue(ps, delta, Rate, windowSec) == NaN
  {
    LeastIsLeast(ps);
    GreatestIsGreatest(ps);
    hide Least, Greatest, Sum, Increase;
  }

  /** And across the series of a group. */
  lemma GroupAggregationsMean(vs: seq<real>)
    requires vs != []
    ensures SeriesAggregate(vs, AcrossMin).Num? && IsLeast(SeriesAggregate(vs, AcrossMin).x, vs)
    ensures SeriesAggregate(vs, AcrossMax).Num? && IsGreatest(SeriesAggregate(vs, AcrossMax).x, vs)
    ensures SeriesAggregate(vs, AcrossSum) == Num(Sum(vs))
    ensures SeriesAggregate(vs, AcrossAvg) == Num(Sum(vs) / |vs| as real)
  {
    LeastIsLeast(vs);
    GreatestIsGreatest(vs);
    hide Least, Greatest, Sum;
  }

  /** Only a window, or group, without values has no value. */
  lemma NoValueExactly(ps: seq<real>, delta: bool, agg: Aggregation, windowSec: real, how: Across)
    requires !agg.Unsupported? && windowSec > 0.0
    ensures DirectValue(ps, delta, agg, windowSec).NaN? <==> ps == []
    ensures SeriesAggregate(ps, how).NaN? <==> ps == []
  {
  }

  // ----- sums and increases -----

  /** A sum is its points added one by one. */
  lemma SumOfParts(ps: seq<real>, x: real)
    ensures Sum([]) == 0.0 && Sum([x]) == x && Sum(ps + [x]) == Sum(ps) + x
  {
    SumConcat(ps, [x]);
    assert [x][1..] == [];
  }

  /** A counter's increase counts every step up from the point before, and a step down, its reset, as nothing. */
  lemma {:induction false} IncreaseOfParts(ps: seq<real>, x: real)
    ensures Increase([]) == 0.0 && Increase([x]) == 0.0
    ensures ps != [] ==>
              Increase(ps + [x]) == Increase(ps) + if x > ps[|ps| - 1] then x - ps[|ps| - 1] else 0.0
  {
    if |ps| == 1 {
      assert (ps + [x])[1..] == [x];
    } else if |ps| > 1 {
      assert (ps + [x])[1..] == ps[1..] + [x];
      IncreaseOfParts(ps[1..], x);
    }
  }

  /** Without a reset it is the last point less the first. */
  lemma {:induction false} IncreaseWithoutReset(ps: seq<real>)
    requires ps != [] && forall i :: 0 < i < |ps| ==> ps[i - 1] <= ps[i]
    ensures Increase(ps) == ps[|ps| - 1] - ps[0]
  {
    if |ps| > 1 {
      assert forall i :: 0 < i < |ps[1..]| ==> ps[1..][i - 1] == ps[i] && ps[1..][i] == ps[i + 1];
      IncreaseWithoutReset(ps[1..]);
    }
  }
}
