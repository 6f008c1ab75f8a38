/** How far a value is from its baseline: median and scaled median absolute deviation
    (internal/alert/cond_anomaly.go). */
module AnomalyScore {
  import opened Base

  datatype Direction = Upper | Lower | Both

  datatype Baseline = Baseline(direction: Direction, sensitivity: real, minDeviation: real, minSamples: nat)

  /** `ratio` is the deviation over the allowed band; `NaN` when there is no score. */
  datatype Score = Score(ratio: Value, baseline: Value, above: bool)

  const NO_SCORE := Score(NaN, NaN, false)

  const MAD_SCALE: real := 1.4826
  const SIGMA_FLOOR: real := 0.01
  const MAX_RATIO: real := 1000000.0

  function Abs(x: real): real {
    if x < 0.0 then -x else x
  }

  function MaxReal(x: real, y: real): real {
    if x < y then y else x
  }

  // ----- sorting and counting -----

  predicate IsSorted(s: seq<real>) {
    forall i, j :: 0 <= i < j < |s| ==> s[i] <= s[j]
  }

  function Insert(x: real, s: seq<real>): (r: seq<real>)
    requires IsSorted(s)
    ensures IsSorted(r) && |r| == |s| + 1
    ensures forall y :: y in r <==> y == x || y in s
  {
    if s == [] then [x]
    else
      HeadIsLeast(s);
      if x <= s[0] then PrependSorted(x, s); [x] + s
      else
        var rest := Insert(x, s[1..]);
        PrependSorted(s[0], rest);
        [s[0]] + rest
  }

  lemma HeadIsLeast(s: seq<real>)
    requires IsSorted(s) && s != []
    ensures IsSorted(s[1..]) && (forall y :: y in s ==> s[0] <= y) && forall y :: y in s <==> y == s[0] || y in s[1..]
  {
    forall y | y in s ensures s[0] <= y {
      var i :| 0 <= i < |s| && s[i] == y;
    }
    assert s == [s[0]] + s[1..];
  }

  lemma PrependSorted(x: real, s: seq<real>)
    requires IsSorted(s) && forall y :: y in s ==> x <= y
    ensures IsSorted([x] + s)
  {
    assert forall i :: 0 <= i < |s| ==> s[i] in s;
  }

  function Sorted(s: seq<real>): (r: seq<real>)
    ensures IsSorted(r) && |r| == |s|
  {
    if s == [] then [] else Insert(s[0], Sorted(s[1..]))
  }

  /** How many values lie in [a, b]. */
  function CountIn(s: seq<real>, a: real, b: real): (n: nat)
    ensures n <= |s|
  {
    if s == [] then 0 else (if a <= s[0] <= b then 1 else 0) + CountIn(s[1..], a, b)
  }

  lemma {:induction false} CountInsert(x: real, s: seq<real>, a: real, b: real)
    requires IsSorted(s)
    ensures CountIn(Insert(x, s), a, b) == CountIn([x] + s, a, b)
  {
    if s != [] && x > s[0] {
      CountInsert(x, s[1..], a, b);
      assert ([x] + s)[1..] == s && ([x] + s[1..])[1..] == s[1..];
      assert Insert(x, s)[1..] == Insert(x, s[1..]);
    }
  }

  lemma {:induction false} CountSorted(s: seq<real>, a: real, b: real)
    ensures CountIn(Sorted(s), a, b) == CountIn(s, a, b)
  {
    if s != [] {
      CountSorted(s[1..], a, b);
      CountInsert(s[0], Sorted(s[1..]), a, b);
      assert ([s[0]] + Sorted(s[1..]))[1..] == Sorted(s[1..]);
    }
  }

  lemma {:induction false} CountSplit(s: seq<real>, t: seq<real>, a: real, b: real)
    ensures CountIn(s + t, a, b) == CountIn(s, a, b) + CountIn(t, a, b)
  {
    if s == [] {
      assert s + t == t;
    } else {
      assert (s + t)[1..] == s[1..] + t;
      CountSplit(s[1..], t, a, b);
    }
  }

  lemma {:induction false} CountNone(s: seq<real>, a: real, b: real)
    requires forall i :: 0 <= i < |s| ==> !(a <= s[i] <= b)
    ensures CountIn(s, a, b) == 0
  {
    if s != [] {
      CountNone(s[1..], a, b);
    }
  }

  /** In a sorted sequence a value outside [a, b] bounds the count on one side. */
  lemma CountAround(s: seq<real>, i: nat, a: real, b: real)
    requires IsSorted(s) && i < |s|
    ensures s[i] > b ==> CountIn(s, a, b) <= i
    ensures s[i] < a ==> CountIn(s, a, b) <= |s| - i - 1
  {
    hide CountIn;
    if s[i] > b {
      NoneAbove(s, i, a, b);
      assert s == s[..i] + s[i..];
      hide IsSorted;
      CountSplit(s[..i], s[i..], a, b);
    }
    if s[i] < a {
      NoneBelow(s, i, a, b);
      assert s == s[..i + 1] + s[i + 1..];
      hide IsSorted;
      CountSplit(s[..i + 1], s[i + 1..], a, b);
    }
  }

  lemma NoneAbove(s: seq<real>, i: nat, a: real, b: real)
    requires IsSorted(s) && i < |s| && s[i] > b
    ensures CountIn(s[i..], a, b) == 0
  {
    var t := s[i..];
    forall j | 0 <= j < |t| ensures !(a <= t[j] <= b) {
      assert t[j] == s[i + j];
      assert j > 0 ==> s[i] <= s[i + j];
    }
    CountNone(t, a, b);
  }

  lemma NoneBelow(s: seq<real>, i: nat, a: real, b: real)
    requires IsSorted(s) && i < |s| && s[i] < a
    ensures CountIn(s[..i + 1], a, b) == 0
  {
    var t := s[..i + 1];
    forall j | 0 <= j < |t| ensures !(a <= t[j] <= b) {
      assert t[j] == s[j];
      assert j < i ==> s[j] <= s[i];
    }
    CountNone(t, a, b);
  }

  // ----- the median -----

  function Median(vs: seq<real>): (m: Value)
    ensures m.Num? <==> vs != []
  {
    var s := Sorted(vs);
    if vs == [] then NaN
    else if |s| % 2 == 1 then Num(s[|s| / 2])
    else Num((s[|s| / 2 - 1] + s[|s| / 2]) / 2.0)
  }

  /** A strict majority inside an interval pulls the median into it, whatever the rest is. */
  lemma MedianInMajority(vs: seq<real>, a: real, b: real)
    requires 2 * CountIn(vs, a, b) > |vs|
    ensures Median(vs).Num? && a <= Median(vs).x <= b
  {
    var s := Sorted(vs);
    CountSorted(vs, a, b);
    CountAround(s, |s| / 2, a, b);
    if |s| % 2 == 0 {
      CountAround(s, |s| / 2 - 1, a, b);
    }
  }

  function Deviations(vs: seq<real>, m: real): (ds: seq<real>)
    ensures |ds| == |vs|
  {
    if vs == [] then [] else [Abs(vs[0] - m)] + Deviations(vs[1..], m)
  }

  lemma {:induction false} DeviationsNear(vs: seq<real>, m: real, a: real, b: real)
    requires a <= m <= b
    ensures CountIn(Deviations(vs, m), 0.0, b - a) >= CountIn(vs, a, b)
  {
    if vs != [] {
      DeviationsNear(vs[1..], m, a, b);
      assert Deviations(vs, m)[1..] == Deviations(vs[1..], m);
    }
  }

  /** The median absolute deviation. */
  function Mad(vs: seq<real>): Value {
    if vs == [] then NaN else Median(Deviations(vs, Median(vs).x))
  }

  /** The same majority bounds the median absolute deviation by the interval's width. */
  lemma MadInMajority(vs: seq<real>, a: real, b: real)
    requires 2 * CountIn(vs, a, b) > |vs|
    ensures Mad(vs).Num? && 0.0 <= Mad(vs).x <= b - a
  {
    hide Median;
    MedianInMajority(vs, a, b);
    DeviationsNear(vs, Median(vs).x, a, b);
    MedianInMajority(Deviations(vs, Median(vs).x), 0.0, b - a);
  }

  // ----- the score -----

  /** The scale of the band, never below one percent of the level. */
  function Sigma(vs: seq<real>): real
    requires vs != []
  {
    MaxReal(MAD_SCALE * Mad(vs).x, SIGMA_FLOOR * Abs(Median(vs).x))
  }

  function Deviation(d: Direction, diff: real): real {
    match d
    case Upper => diff
    case Lower => -diff
    case Both => Abs(diff)
  }

  /** The deviation over the band, capped; 0 on the safe side or below the noise floor. */
  function Ratio(dev: real, minDeviation: real, band: real): real {
    if dev <= 0.0 || dev < minDeviation then 0.0
    else if band <= 0.0 then MAX_RATIO
    else if dev / band < MAX_RATIO then dev / band
    else MAX_RATIO
  }

  function Band(c: Baseline, samples: seq<real>): real
    requires samples != []
  {
    c.sensitivity * Sigma(samples)
  }

  predicate Scorable(c: Baseline, current: Value, samples: seq<real>) {
    current.Num? && |samples| >= c.minSamples
  }

  function ScoreOf(c: Baseline, current: Value, samples: seq<real>): Score
    requires c.minSamples > 0
  {
    if !Scorable(c, current, samples) then NO_SCORE
    else
      var diff := current.x - Median(samples).x;
      Score(Num(Ratio(Deviation(c.direction, diff), c.minDeviation, Band(c, samples))), Median(samples), diff >= 0.0)
  }

  method MedianOf(vs: seq<real>) returns (m: Value)
    ensures m == Median(vs)
    ensures forall a, b :: 2 * CountIn(vs, a, b) > |vs| ==> m.Num? && a <= m.x <= b
  {
    forall a, b | 2 * CountIn(vs, a, b) > |vs| ensures Median(vs).Num? && a <= Median(vs).x <= b {
      MedianInMajority(vs, a, b);
    }
    if |vs| == 0 {
      return NaN;
    }
    var s := Sorted(vs);
    var n := |s|;
    if n % 2 == 1 {
      return Num(s[n / 2]);
    }
    return Num((s[n / 2 - 1] + s[n / 2]) / 2.0);
  }

  lemma {:induction false} DeviationsAppend(vs: seq<real>, v: real, m: real)
    ensures Deviations(vs + [v], m) == Deviations(vs, m) + [Abs(v - m)]
  {
    if vs == [] {
      assert vs + [v] == [v];
    } else {
      assert (vs + [v])[1..] == vs[1..] + [v];
      DeviationsAppend(vs[1..], v, m);
    }
  }

  method BandRatio(dev: real, minDeviation: real, band: real) returns (ratio: real)
    ensures ratio == Ratio(dev, minDeviation, band)
  {
    if dev <= 0.0 || dev < minDeviation {
      ratio := 0.0;
    } else if band <= 0.0 {
      ratio := MAX_RATIO;
    } else {
      ratio := dev / band;
      if ratio >= MAX_RATIO {
        ratio := MAX_RATIO;
      }
    }
  }

  method DeviationsFrom(samples: seq<real>, m: real) returns (devs: seq<real>)
    ensures devs == Deviations(samples, m)
  {
    devs := [];
    for i := 0 to |samples|
      invariant devs == Deviations(samples[..i], m)
    {
      assert samples[..i + 1] == samples[..i] + [samples[i]];
      DeviationsAppend(samples[..i], samples[i], m);
      devs := devs + [Abs(samples[i] - m)];
    }
    assert samples[..|samples|] == samples;
  }

  method ScaleOf(samples: seq<real>) returns (med: Value, sigma: real)
    requires samples != []
    ensures med == Median(samples) && sigma == Sigma(samples)
  {
    hide CountIn, Median, Deviations;
    med := MedianOf(samples);
    var devs := DeviationsFrom(samples, med.x);
    var mad := MedianOf(devs);
    sigma := MAD_SCALE * mad.x;
    var floor := SIGMA_FLOOR * Abs(med.x);
    if sigma < floor {
      sigma := floor;
    }
  }

  method ComputeScore(c: Baseline, current: Value, samples: seq<real>) returns (out: Score)
    requires c.minSamples > 0
    ensures out == ScoreOf(c, current, samples)
  {
    hide Ratio;
    hide Sigma;
    if current.NaN? || |samples| < c.minSamples {
      return NO_SCORE;
    }
    var med, sigma := ScaleOf(samples);
    assert med.Num?;
    hide Median;
    var diff := current.x - med.x;
    var dev := diff;
    match c.direction {
      case Lower => dev := -diff;
      case Both => dev := Abs(diff);
      case Upper =>
    }
    var band := c.sensitivity * sigma;
    assert band == Band(c, samples);
    assert dev == Deviation(c.direction, current.x - Median(samples).x);
    hide Band;
    var ratio := BandRatio(dev, c.minDeviation, band);
    out := Score(Num(ratio), med, diff >= 0.0);
  }

  lemma QuotientAtLeastOne(x: real, y: real)
    requires y > 0.0
    ensures x / y >= 1.0 <==> x >= y
  {
    var q := x / y;
    assert q * y == x;
    if q >= 1.0 {
      assert (q - 1.0) * y >= 0.0;
    } else {
      assert (1.0 - q) * y > 0.0;
    }
  }

  /** The rule compares the ratio with 1; that happens exactly when the deviation is positive, above the noise floor
      and at least the allowed band. */
  lemma BreachIsExact(c: Baseline, current: Value, samples: seq<real>)
    requires c.minSamples > 0 && Scorable(c, current, samples)
    ensures var dev := Deviation(c.direction, current.x - Median(samples).x);
            var ratio := ScoreOf(c, current, samples).ratio;
            ratio.Num? && (ratio.x >= 1.0 <==> dev > 0.0 && dev >= c.minDeviation && dev >= Band(c, samples))
  {
    hide Sigma;
    hide Median;
    RatioAtLeastOne(Deviation(c.direction, current.x - Median(samples).x), c.minDeviation, Band(c, samples));
  }

  lemma RatioAtLeastOne(dev: real, minDeviation: real, band: real)
    ensures Ratio(dev, minDeviation, band) >= 1.0 <==> dev > 0.0 && dev >= minDeviation && dev >= band
  {
    if band > 0.0 {
      QuotientAtLeastOne(dev, band);
    }
  }

  lemma AbsBetween(a: real, m: real, b: real)
    requires a <= m <= b
    ensures Abs(m) <= MaxReal(Abs(a), Abs(b))
  {
  }

  lemma Scaled(s: real, x: real, y: real)
    requires s >= 0.0 && x <= y
    ensures s * x <= s * y
  {
  }

  /** The widest band a majority inside [a, b] allows. */
  function WidestBand(c: Baseline, a: real, b: real): real {
    c.sensitivity * MaxReal(MAD_SCALE * (b - a), SIGMA_FLOOR * MaxReal(Abs(a), Abs(b)))
  }

  /** The least deviation a value can have in the watched direction when the median is somewhere in [a, b]. */
  function LeastDeviation(d: Direction, current: real, a: real, b: real): real {
    match d
    case Upper => current - b
    case Lower => a - current
    case Both => MaxReal(current - b, a - current)
  }

  /** The largest. */
  function LargestDeviation(d: Direction, current: real, a: real, b: real): real {
    match d
    case Upper => current - a
    case Lower => b - current
    case Both => MaxReal(current - a, b - current)
  }

  lemma DeviationBetween(d: Direction, current: real, m: real, a: real, b: real)
    requires a <= m <= b
    ensures LeastDeviation(d, current, a, b) <= Deviation(d, current - m) <= LargestDeviation(d, current, a, b)
  {
  }

  /** Past incidents cannot hide a new one, and cannot make one up: with a majority of samples in [a, b], a value far
      enough outside in the watched direction is reported, and one that is on the safe side of all of it, or nearer than
      the minimum deviation, has score 0, whatever the other samples are. */
  lemma OutliersCannotHide(c: Baseline, current: real, samples: seq<real>, a: real, b: real)
    requires c.minSamples > 0 && |samples| >= c.minSamples && c.sensitivity >= 0.0
    requires 2 * CountIn(samples, a, b) > |samples|
    ensures var least := LeastDeviation(c.direction, current, a, b);
            least > 0.0 && least >= c.minDeviation && least >= WidestBand(c, a, b) ==>
              ScoreOf(c, Num(current), samples).ratio.x >= 1.0
    ensures var largest := LargestDeviation(c.direction, current, a, b);
            largest <= 0.0 || largest < c.minDeviation ==> ScoreOf(c, Num(current), samples).ratio == Num(0.0)
  {
    hide ScoreOf, Median, Mad, CountIn, Sigma, WidestBand, Band, Deviation, LeastDeviation, LargestDeviation;
    MedianInMajority(samples, a, b);
    BreachIsExact(c, Num(current), samples);
    BandBound(c, samples, a, b);
    DeviationBetween(c.direction, current, Median(samples).x, a, b);
    SmallDeviationScoresZero(c, current, samples);
  }

  lemma BandBound(c: Baseline, samples: seq<real>, a: real, b: real)
    requires c.sensitivity >= 0.0 && 2 * CountIn(samples, a, b) > |samples|
    ensures Band(c, samples) <= WidestBand(c, a, b)
  {
    hide Median;
    hide Mad;
    hide Sigma;
    hide CountIn;
    MedianInMajority(samples, a, b);
    MadInMajority(samples, a, b);
    AbsBetween(a, Median(samples).x, b);
    SigmaBound(samples, a, b);
    Scaled(c.sensitivity, Sigma(samples), MaxReal(MAD_SCALE * (b - a), SIGMA_FLOOR * MaxReal(Abs(a), Abs(b))));
  }

  lemma SigmaBound(samples: seq<real>, a: real, b: real)
    requires samples != [] && Mad(samples).Num? && Mad(samples).x <= b - a
        && Abs(Median(samples).x) <= MaxReal(Abs(a), Abs(b))
    ensures Sigma(samples) <= MaxReal(MAD_SCALE * (b - a), SIGMA_FLOOR * MaxReal(Abs(a), Abs(b)))
  {
    hide Median;
    hide Mad;
  }

  lemma SmallDeviationScoresZero(c: Baseline, current: real, samples: seq<real>)
    requires c.minSamples > 0 && |samples| >= c.minSamples
    ensures var dev := Deviation(c.direction, current - Median(samples).x);
            dev <= 0.0 || dev < c.minDeviation ==> ScoreOf(c, Num(current), samples).ratio == Num(0.0)
  {
    hide Median, Sigma;
  }
}
