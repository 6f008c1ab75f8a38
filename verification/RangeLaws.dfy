/** What windows, ages and discovery events mean on the data itself. */
module RangeLaws {
  import opened Base
  import opened Windows
  import opened Ranges

  /** A window holds exactly the points from its start up to, but not at, its end. */
  lemma {:induction false} WithinIsExact(ps: seq<Point>, lo: Time, hi: Time, p: Point)
    ensures multiset(Within(ps, lo, hi))[p] == if lo <= p.t < hi then multiset(ps)[p] else 0
  {
    if ps != [] {
      WithinIsExact(ps[1..], lo, hi, p);
      assert ps == [ps[0]] + ps[1..];
      assert Within(ps, lo, hi) == (if lo <= ps[0].t < hi then [ps[0]] else []) + Within(ps[1..], lo, hi);
    }
  }

  /** And in their order. */
  lemma {:induction false} WithinKeepsOrder(ps: seq<Point>, qs: seq<Point>, lo: Time, hi: Time)
    ensures Within(ps + qs, lo, hi) == Within(ps, lo, hi) + Within(qs, lo, hi)
  {
    if ps == [] {
      assert ps + qs == qs;
    } else {
      assert (ps + qs)[1..] == ps[1..] + qs;
      WithinKeepsOrder(ps[1..], qs, lo, hi);
    }
  }

  /** A group's value aggregates, over its series, the window values that exist. */
  lemma {:induction false} GroupValues(ss: seq<Series>, w: Window, agg: Aggregation, x: real)
    ensures x in SeriesValues(ss, w, agg) <==> exists s :: s in ss && SeriesValue(s, w, agg) == Num(x)
  {
    hide SeriesValue;
    if ss != [] {
      GroupValues(ss[1..], w, agg, x);
      assert ss == [ss[0]] + ss[1..];
      if SeriesValue(ss[0], w, agg) == Num(x) {
        assert ss[0] in ss;
      }
      if s :| s in ss[1..] && SeriesValue(s, w, agg) == Num(x) {
        assert s in ss;
      }
    }
  }

  // ----- no data -----

  /** `last` is the last of the data points of [lo, hi) in whole milliseconds. */
  predicate IsLast(ts: seq<Time>, lo: Time, hi: Time, last: int) {
    && (exists i :: 0 <= i < |ts| && lo <= ts[i] < hi && ts[i] / MILLISECOND == last)
    && forall i :: 0 <= i < |ts| && lo <= ts[i] < hi ==> ts[i] / MILLISECOND <= last
  }

  lemma {:induction false} LastIsLast(ts: seq<Time>, lo: Time, hi: Time)
    requires MILLISECOND <= lo
    ensures LastIn(ts, lo, hi) >= 0
    ensures if LastIn(ts, lo, hi) > 0 then IsLast(ts, lo, hi, LastIn(ts, lo, hi))
            else forall i :: 0 <= i < |ts| ==> !(lo <= ts[i] < hi)
  {
    if ts != [] {
      LastIsLast(ts[1..], lo, hi);
      var rest := LastIn(ts[1..], lo, hi);
      var here := if lo <= ts[0] < hi then ts[0] / MILLISECOND else 0;
      assert here > 0 <==> lo <= ts[0] < hi;
      assert forall i :: 0 < i < |ts| ==> ts[i] == ts[1..][i - 1];
      if rest > 0 {
        var i :| 0 <= i < |ts[1..]| && lo <= ts[1..][i] < hi && ts[1..][i] / MILLISECOND == rest;
        assert ts[i + 1] == ts[1..][i];
      }
      if here > 0 {
        assert ts[0] / MILLISECOND == here;
      }
    }
  }

  /** The age is the time from the last data point within the lookback to the end, in seconds and whole milliseconds,
      and there is none without such a point. Instants are after the first millisecond of 1970. */
  lemma AgeIsExact(ts: seq<Time>, end: Time, lookback: int, last: int)
    requires MILLISECOND <= end - lookback
    ensures Age(ts, end, lookback).NaN? <==> forall i :: 0 <= i < |ts| ==> !(end - lookback <= ts[i] < end)
    ensures IsLast(ts, end - lookback, end, last) ==>
              Age(ts, end, lookback) == Num((end / MILLISECOND - last) as real / 1000.0)
  {
    LastIsLast(ts, end - lookback, end);
    if IsLast(ts, end - lookback, end, last) {
      var i :| 0 <= i < |ts| && end - lookback <= ts[i] < end && ts[i] / MILLISECOND == last;
      assert last <= end / MILLISECOND;
    }
  }

  // ----- discovery -----

  /** An item that was seen in neither period has no value. A port was opened when the item is seen in the recent period
      and not before, on a host that reported before; a process is gone when it was seen before and not in the recent
      period, on a host that reports now. */
  lemma DiscoveryIsExact(item: seq<Time>, host: seq<Time>, end: Time, lookback: int, window: int)
    ensures var before, now := SeenIn(item, end - lookback, end - window), SeenIn(item, end - window, end);
            var hostBefore, hostNow := SeenIn(host, end - lookback, end - window), SeenIn(host, end - window, end);
            var port, gone := DiscoveryValue(PortOpened, item, host, end, lookback, window),
                                DiscoveryValue(ProcessGone, item, host, end, lookback, window);
            && (port.NaN? <==> !before && !now) && (gone.NaN? <==> !before && !now)
            && (port == Num(1.0) <==> now && !before && hostBefore)
            && (gone == Num(1.0) <==> before && !now && hostNow)
            && (port.Num? ==> port.x == 0.0 || port.x == 1.0) && (gone.Num? ==> gone.x == 0.0 || gone.x == 1.0)
  {
    hide SeenIn;
  }

  // ----- minutes before an anchor -----
}
