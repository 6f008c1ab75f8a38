/** Which minutes an anomaly baseline compares, in absolute time (internal/alert/cond_anomaly.go). */
module GridLaws {
  import opened Base
  import opened AnomalyScore
  import opened AnomalyGrid
  import opened Windows

  /** A bucket holds the seconds of its minute, counted backwards from the anchor. */
  lemma BucketIsExact(anchor: int, timestamp: int, bk: nat)
    requires timestamp < anchor
    ensures BucketOf(anchor, timestamp) == bk <==> anchor - 60 * (bk + 1) <= timestamp < anchor - 60 * bk
  {
  }

  /** The window that ends `lag` whole periods before minute `end`, in time order. */
  function WindowBack<T>(signal: int -> T, end: int, window: nat, period: int, lag: nat): seq<T> {
    seq(window, i => signal(end - lag * period - window + i))
  }

  /** The values of the windows one to `n` periods back, one for each. */
  function ValuesBack<T>(signal: int -> T, value: seq<T> -> Value, end: int, window: nat, period: int, n: nat)
    : seq<Value>
  {
    seq(n, i requires 0 <= i < n => value(WindowBack(signal, end, window, period, i + 1)))
  }

  lemma MinutesAreBack<T>(g: Grid, signal: int -> T, anchor: int, j: int, m: nat)
    requires g.Valid()
    ensures Minutes(BackFrom(signal, anchor), g.Offset(j, m), g.window)
         == WindowBack(signal, anchor - j * g.step, g.window, g.period, m)
  {
  }

  /** The score of an end compares the window before it with the windows that end whole periods earlier, one for each
      lag, leaving out those without a value. */
  lemma BaselineIsExact<T>(g: Grid, c: Baseline, signal: int -> T, value: seq<T> -> Value, anchor: int, j: int)
    requires g.Valid() && c.minSamples > 0
    ensures var end := anchor - j * g.step;
            var current := value(WindowBack(signal, end, g.window, g.period, 0));
            PlainScore(g, c, BackFrom(signal, anchor), value, j) ==
            if current.NaN? then NO_SCORE
            else ScoreOf(c, current, Numbers(ValuesBack(signal, value, end, g.window, g.period, g.lags)))
  {
    hide ScoreOf, Minutes, WindowBack, Numbers;
    MinutesAreBack(g, signal, anchor, j, 0);
    SamplesAreBack(g, signal, value, anchor, j, g.lags);
  }

  lemma {:induction false} SamplesAreBack<T>(g: Grid, signal: int -> T, value: seq<T> -> Value, anchor: int, j: int,
      n: nat)
    requires g.Valid()
    ensures PlainSamples(g, BackFrom(signal, anchor), value, j, n)
         == Numbers(ValuesBack(signal, value, anchor - j * g.step, g.window, g.period, n))
  {
    hide Minutes, WindowBack;
    if n > 0 {
      var end := anchor - j * g.step;
      var vs := ValuesBack(signal, value, end, g.window, g.period, n);
      SamplesAreBack(g, signal, value, anchor, j, n - 1);
      MinutesAreBack(g, signal, anchor, j, n);
      assert vs[..n - 1] == ValuesBack(signal, value, end, g.window, g.period, n - 1);
    }
  }
}
