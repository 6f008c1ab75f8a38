/** The anomaly score from its definition: the middle of the samples, the middle of their distances from it, and the
    deviation over the band they give. */
module AnomalyLaws {
  import opened Base
  import opened AnomalyScore

  // ----- the middle of a list -----

  /** The middle value of a sorted list, or the mean of its two middle values. */
  function Middle(p: seq<real>): real
    requires p != []
  {
    if |p| % 2 == 1 then p[|p| / 2] else (p[|p| / 2 - 1] + p[|p| / 2]) / 2.0
  }

  /** `m` is the middle of the values in order. */
  ghost predicate IsMedian(vs: seq<real>, m: real) {
    exists p :: p != [] && multiset(p) == multiset(vs) && IsSorted(p) && m == Middle(p)
  }

  lemma {:induction false} InsertMembers(x: real, s: seq<real>)
    requires IsSorted(s)
    ensures multiset(Insert(x, s)) == multiset{x} + multiset(s)
  {
    if s != [] && x > s[0] {
      InsertMembers(x, s[1..]);
      assert s == [s[0]] + s[1..];
      assert Insert(x, s) == [s[0]] + Insert(x, s[1..]);
    }
  }

  lemma {:induction false} SortedMembers(s: seq<real>)
    ensures multiset(Sorted(s)) == multiset(s)
  {
    if s != [] {
      SortedMembers(s[1..]);
      InsertMembers(s[0], Sorted(s[1..]));
      assert s == [s[0]] + s[1..];
    }
  }

  /** There is one way to put values in order. */
  lemma {:induction false} OrderIsUnique(p: seq<real>, q: seq<real>)
    requires IsSorted(p) && IsSorted(q) && multiset(p) == multiset(q)
    ensures p == q
  {
    assert |p| == |multiset(p)| == |multiset(q)| == |q|;
    if p != [] {
      SameHead(p, q);
      RestIsSorted(p);
      RestIsSorted(q);
      hide IsSorted;
      OrderIsUnique(p[1..], q[1..]);
      assert p == [p[0]] + p[1..] && q == [q[0]] + q[1..];
    }
  }

  lemma SameHead(p: seq<real>, q: seq<real>)
    requires IsSorted(p) && IsSorted(q) && multiset(p) == multiset(q) && p != [] && q != []
    ensures p[0] == q[0]
  {
    hide IsSorted;
    assert p[0] in multiset(p) && q[0] in multiset(q);
    LeastFirst(p, q[0]);
    LeastFirst(q, p[0]);
  }

  lemma RestIsSorted(p: seq<real>)
    requires IsSorted(p) && p != []
    ensures IsSorted(p[1..]) && multiset(p[1..]) == multiset(p) - multiset{p[0]}
  {
    assert p == [p[0]] + p[1..];
  }

  lemma LeastFirst(p: seq<real>, x: real)
    requires IsSorted(p) && x in multiset(p)
    ensures p != [] && p[0] <= x
  {
    var i :| 0 <= i < |p| && p[i] == x;
  }

  /** The computed median is the middle, and nothing else is. */
  lemma MedianIsMiddle(vs: seq<real>, m: real)
    requires vs != []
    ensures IsMedian(vs, m) <==> Median(vs) == Num(m)
  {
    SortedMembers(vs);
    var s := Sorted(vs);
    assert |s| == |vs|;
    if IsMedian(vs, m) {
      var p :| p != [] && multiset(p) == multiset(vs) && IsSorted(p) && m == Middle(p);
      OrderIsUnique(p, s);
    }
    if Median(vs) == Num(m) {
      assert m == Middle(s);
    }
  }

  // ----- the score -----

  /** How far each sample is from `m`. */
  function Distances(vs: seq<real>, m: real): seq<real> {
    seq(|vs|, i requires 0 <= i < |vs| => if vs[i] >= m then vs[i] - m else m - vs[i])
  }

  lemma {:induction false} DeviationsAreDistances(vs: seq<real>, m: real)
    ensures Deviations(vs, m) == Distances(vs, m)
  {
    if vs != [] {
      DeviationsAreDistances(vs[1..], m);
      assert Distances(vs, m)[1..] == Distances(vs[1..], m);
    }
  }

  /** The band around the middle `med`, when the distances have the middle `mad`. */
  function BandOf(c: Baseline, med: real, mad: real): real {
    c.sensitivity * MaxReal(1.4826 * mad, 0.01 * if med >= 0.0 then med else -med)
  }

  function DeviationOf(d: Direction, current: real, med: real): real {
    if d.Upper? then current - med
    else if d.Lower? then med - current
    else MaxReal(current - med, med - current)
  }

  /** With enough samples the score is the deviation in the watched direction over the band, at most a million; it is 0
      on the safe side and below the minimum deviation, and a million when there is no band. */
  lemma ScoreIsExact(c: Baseline, current: real, samples: seq<real>, med: real, mad: real)
    requires 0 < c.minSamples <= |samples|
    requires IsMedian(samples, med) && IsMedian(Distances(samples, med), mad)
    ensures var s := ScoreOf(c, Num(current), samples);
            var dev, band := DeviationOf(c.direction, current, med), BandOf(c, med, mad);
            && s.baseline == Num(med) && (s.above <==> current >= med)
            && s.ratio == Num(if dev <= 0.0 || dev < c.minDeviation then 0.0
                              else if band <= 0.0 || dev / band > 1000000.0 then 1000000.0
                              else dev / band)
  {
    ScaleIsExact(samples, med, mad);
    BandIsExact(c, samples, med, mad);
    DeviationIsExact(c.direction, current, med);
    hide Median, Mad, IsMedian, Distances, Band, BandOf, Deviation, DeviationOf;
    RatioIsExact(DeviationOf(c.direction, current, med), c.minDeviation, BandOf(c, med, mad));
    hide Ratio;
  }

  lemma RatioIsExact(dev: real, minDeviation: real, band: real)
    ensures Ratio(dev, minDeviation, band) ==
            if dev <= 0.0 || dev < minDeviation then 0.0
            else if band <= 0.0 || dev / band > 1000000.0 then 1000000.0
            else dev / band
  {
  }

  lemma BandIsExact(c: Baseline, samples: seq<real>, med: real, mad: real)
    requires samples != [] && Median(samples) == Num(med) && Mad(samples) == Num(mad)
    ensures Band(c, samples) == BandOf(c, med, mad)
  {
    hide Median, Mad;
    assert Sigma(samples) == MaxReal(1.4826 * mad, 0.01 * if med >= 0.0 then med else -med);
  }

  lemma DeviationIsExact(d: Direction, current: real, med: real)
    ensures Deviation(d, current - med) == DeviationOf(d, current, med)
  {
  }

  lemma ScaleIsExact(samples: seq<real>, med: real, mad: real)
    requires samples != [] && IsMedian(samples, med) && IsMedian(Distances(samples, med), mad)
    ensures Median(samples) == Num(med) && Mad(samples) == Num(mad)
  {
    MedianIsMiddle(samples, med);
    DeviationsAreDistances(samples, med);
    MedianIsMiddle(Distances(samples, med), mad);
    hide Median, IsMedian;
  }

  /** It stays below 1 exactly when the deviation is not positive, below the minimum or inside the band: the median
      absolute deviation of the samples decides. */
  lemma StaysBelowOne(c: Baseline, current: real, samples: seq<real>, med: real, mad: real)
    requires 0 < c.minSamples <= |samples|
    requires IsMedian(samples, med) && IsMedian(Distances(samples, med), mad)
    ensures var dev := DeviationOf(c.direction, current, med);
            ScoreOf(c, Num(current), samples).ratio.x < 1.0 <==>
            dev <= 0.0 || dev < c.minDeviation || dev < BandOf(c, med, mad)
  {
    ScaleIsExact(samples, med, mad);
    BandIsExact(c, samples, med, mad);
    DeviationIsExact(c.direction, current, med);
    BreachIsExact(c, Num(current), samples);
    hide Median, Mad, IsMedian, Distances, ScoreOf, Band, BandOf, Deviation, DeviationOf;
  }

  /** Too few samples, or no current value, give no score. */
  lemma NoScoreExactly(c: Baseline, current: Value, samples: seq<real>)
    requires c.minSamples > 0
    ensures ScoreOf(c, current, samples).ratio.NaN? <==> current.NaN? || |samples| < c.minSamples
  {
    hide Median, Sigma;
  }
}
