/** The compact minute grid an anomaly baseline reads into (internal/alert/cond_anomaly.go), against a plain array that
    holds every minute. Bucket `bk` counts whole minutes backwards from the anchor. */
module AnomalyGrid {
  import opened Base
  import opened AnomalyScore
  import opened Arithmetic

  // ----- the grid -----

  datatype Grid = Grid(window: int, step: int, ends: int, period: int, lags: int) {
    predicate Valid() {
      0 < window && 0 < step && 0 < ends && 0 < period && 0 <= lags
    }

    function RunLen(): int {
      (ends - 1) * step + window
    }

    /** Overlapping runs are read as one contiguous range. */
    predicate IsDense() {
      period <= RunLen()
    }

    function SpanMinutes(): int {
      lags * period + RunLen()
    }

    function Size(): int {
      if IsDense() then SpanMinutes() else (lags + 1) * RunLen()
    }

    /** The compact position of a minute bucket, or -1 when no window needs it. */
    function Index(bk: int): int
      requires Valid()
    {
      if bk < 0 || bk > SpanMinutes() then -1
      else if IsDense() then (if bk >= Size() then -1 else Size() - 1 - bk)
      else
        var m, q := bk / period, bk % period;
        if m > lags || q >= RunLen() then -1 else m * RunLen() + RunLen() - 1 - q
    }

    /** The compact range of the window of end `j` at lag `m`. */
    function Slice(j: int, m: int): (int, int) {
      if IsDense() then
        var hi := Size() - (j * step + m * period);
        (hi - window, hi)
      else
        var hi := m * RunLen() + RunLen() - j * step;
        (hi - window, hi)
    }

    predicate HasWindow(j: int, m: int) {
      0 <= j < ends && 0 <= m <= lags
    }

    /** The first minute bucket of a window. */
    function Offset(j: int, m: int): int {
      j * step + m * period
    }
  }

  lemma RunLenBounds(g: Grid, j: int)
    requires g.Valid() && 0 <= j < g.ends
    ensures 0 <= j * g.step && j * g.step + g.window <= g.RunLen()
  {
    MulLe(0, j, g.step);
    MulLe(j, g.ends - 1, g.step);
  }

  /** Positions lie inside the compact array. */
  lemma IndexInside(g: Grid, bk: int)
    requires g.Valid() && g.Index(bk) >= 0
    ensures g.Index(bk) < g.Size()
  {
    RunLenBounds(g, 0);
    if !g.IsDense() {
      MulLe(bk / g.period, g.lags, g.RunLen());
      assert (g.lags + 1) * g.RunLen() == g.lags * g.RunLen() + g.RunLen();
    }
  }

  /** Two buckets never share a position. */
  lemma IndexInjective(g: Grid, a: int, b: int)
    requires g.Valid() && g.Index(a) >= 0 && g.Index(a) == g.Index(b)
    ensures a == b
  {
    RunLenBounds(g, 0);
    if !g.IsDense() {
      var r := g.RunLen();
      var ma, qa, mb, qb := a / g.period, a % g.period, b / g.period, b % g.period;
      var p := g.Index(a);
      DivUnique(p, r, ma, r - 1 - qa);
      DivUnique(p, r, mb, r - 1 - qb);
    }
  }

  /** Bucket `off + r` of the run at lag `m` sits where the sparse layout says. */
  lemma SparseIndex(g: Grid, m: int, q: int)
    requires g.Valid() && !g.IsDense() && 0 <= m <= g.lags && 0 <= q < g.RunLen()
    ensures g.Index(m * g.period + q) == m * g.RunLen() + g.RunLen() - 1 - q
  {
    var bk := m * g.period + q;
    DivUnique(bk, g.period, m, q);
    MulLe(m, g.lags, g.period);
    MulLe(0, m, g.period);
  }

  lemma DenseWindow(g: Grid, j: int, m: int, bk: int)
    requires g.Valid() && g.HasWindow(j, m) && g.IsDense()
    ensures var (lo, hi) := g.Slice(j, m); 0 <= lo && hi == lo + g.window && hi <= g.Size()
    ensures g.Offset(j, m) <= bk < g.Offset(j, m) + g.window ==>
        g.Index(bk) == g.Slice(j, m).1 - 1 - (bk - g.Offset(j, m))
  {
    RunLenBounds(g, j);
    MulLe(m, g.lags, g.period);
    MulLe(0, m, g.period);
  }

  lemma SparseWindow(g: Grid, j: int, m: int, bk: int)
    requires g.Valid() && g.HasWindow(j, m) && !g.IsDense()
    ensures var (lo, hi) := g.Slice(j, m); 0 <= lo && hi == lo + g.window && hi <= g.Size()
    ensures g.Offset(j, m) <= bk < g.Offset(j, m) + g.window ==>
        g.Index(bk) == g.Slice(j, m).1 - 1 - (bk - g.Offset(j, m))
  {
    RunLenBounds(g, j);
    var r := g.RunLen();
    MulLe(m, g.lags, r);
    MulLe(0, m, r);
    assert (g.lags + 1) * r == g.lags * r + r;
    if g.Offset(j, m) <= bk < g.Offset(j, m) + g.window {
      var q := bk - m * g.period;
      SparseIndex(g, m, q);
      assert m * g.period + q == bk;
    }
  }

  lemma WindowIndex(g: Grid, j: int, m: int, bk: int)
    requires g.Valid() && g.HasWindow(j, m)
    ensures var (lo, hi) := g.Slice(j, m); 0 <= lo && hi == lo + g.window && hi <= g.Size()
    ensures g.Offset(j, m) <= bk < g.Offset(j, m) + g.window ==>
        g.Index(bk) == g.Slice(j, m).1 - 1 - (bk - g.Offset(j, m))
  {
    hide Grid.Slice, Grid.Index, Grid.Offset, Grid.Size;
    if g.IsDense() {
      DenseWindow(g, j, m, bk);
    } else {
      SparseWindow(g, j, m, bk);
    }
  }

  /** A window is a range of the compact array, as long as the window, and holds its minutes in time order: the
      first minute bucket (the latest minute) last. */
  lemma SliceHoldsWindow(g: Grid, j: int, m: int)
    requires g.Valid() && g.HasWindow(j, m)
    ensures var (lo, hi) := g.Slice(j, m);
            && 0 <= lo && hi == lo + g.window && hi <= g.Size()
            && forall bk :: g.Offset(j, m) <= bk < g.Offset(j, m) + g.window ==>
                 g.Index(bk) == hi - 1 - (bk - g.Offset(j, m))
  {
    hide Grid.Slice, Grid.Index, Grid.Offset, Grid.Size;
    WindowIndex(g, j, m, 0);
    forall bk
      ensures g.Offset(j, m) <= bk < g.Offset(j, m) + g.window ==>
          g.Index(bk) == g.Slice(j, m).1 - 1 - (bk - g.Offset(j, m))
    {
      WindowIndex(g, j, m, bk);
    }
  }

  /** Conversely no other bucket lies in that range. */
  lemma SliceHoldsNothingElse(g: Grid, j: int, m: int, bk: int)
    requires g.Valid() && g.HasWindow(j, m) && g.Index(bk) >= 0
    ensures var (lo, hi) := g.Slice(j, m);
            lo <= g.Index(bk) < hi <==> g.Offset(j, m) <= bk < g.Offset(j, m) + g.window
  {
    SliceHoldsWindow(g, j, m);
    var (lo, hi) := g.Slice(j, m);
    if lo <= g.Index(bk) < hi {
      IndexInjective(g, bk, g.Offset(j, m) + hi - 1 - g.Index(bk));
    }
  }

  // ----- the query restriction -----

  /** Integer division as the database does it, towards zero. */
  function IntDiv(a: int, b: int): int
    requires b > 0
  {
    if a >= 0 then a / b else -((-a) / b)
  }

  function BucketOf(anchor: int, timestamp: int): int {
    IntDiv(anchor - timestamp - 1, 60)
  }

  predicate Restricted(g: Grid, anchor: int, timestamp: int)
    requires g.Valid()
  {
    && anchor - g.SpanMinutes() * 60 <= timestamp < anchor
    && (g.IsDense() || BucketOf(anchor, timestamp) % g.period < g.RunLen())
  }

  /** The query reads exactly the rows before the anchor whose minute has a place in the grid. */
  lemma RestrictionIsExact(g: Grid, anchor: int, timestamp: int)
    requires g.Valid()
    ensures Restricted(g, anchor, timestamp) <==> timestamp < anchor && g.Index(BucketOf(anchor, timestamp)) >= 0
  {
    RunLenBounds(g, 0);
    MulLe(0, g.lags, g.period);
    if timestamp < anchor {
      var bk := BucketOf(anchor, timestamp);
      if !g.IsDense() {
        SparseBuckets(g, bk);
      }
    }
  }

  lemma SparseBuckets(g: Grid, bk: int)
    requires g.Valid() && !g.IsDense() && bk >= 0
    ensures g.Index(bk) >= 0 <==> bk < g.SpanMinutes() && bk % g.period < g.RunLen()
  {
    RunLenBounds(g, 0);
    var m, q := bk / g.period, bk % g.period;
    assert bk == m * g.period + q;
    MulLe(0, m, g.RunLen());
    if m <= g.lags {
      MulLe(m, g.lags, g.period);
    } else {
      MulLe(g.lags + 1, m, g.period);
      assert (g.lags + 1) * g.period == g.lags * g.period + g.period;
    }
  }

  // ----- reading into the grid -----

  /** The compact array `c` stores the plain minutes. */
  ghost predicate Stores<T(!new)>(g: Grid, c: seq<T>, plain: int -> T)
    requires g.Valid()
  {
    |c| == g.Size() && forall bk :: 0 <= g.Index(bk) < |c| ==> c[g.Index(bk)] == plain(bk)
  }

  /** The minutes `[off, off + window)` of a plain array, oldest first. */
  function Minutes<T>(plain: int -> T, off: int, window: int): seq<T>
    requires 0 <= window
  {
    seq(window, i => plain(off + window - 1 - i))
  }

  /** The value of a minute bucket in the rows read: the last one for it, or the empty bucket. */
  function PlainValue<T>(rows: seq<(int, T)>, empty: T, bk: int): T {
    if rows == [] then empty
    else if rows[|rows| - 1].0 == bk then rows[|rows| - 1].1
    else PlainValue(rows[..|rows| - 1], empty, bk)
  }

  lemma SizePositive(g: Grid)
    requires g.Valid()
    ensures g.Size() > 0
  {
    RunLenBounds(g, 0);
    MulLe(0, g.lags, g.period);
    MulLe(1, g.lags + 1, g.RunLen());
  }

  method Fill<T(!new)>(g: Grid, rows: seq<(int, T)>, empty: T) returns (bs: array<T>)
    requires g.Valid()
    ensures fresh(bs) && Stores(g, bs[..], bk => PlainValue(rows, empty, bk))
  {
    SizePositive(g);
    bs := new T[g.Size()](_ => empty);
    for k := 0 to |rows|
      invariant Stores(g, bs[..], bk => PlainValue(rows[..k], empty, bk))
    {
      var (bk, v) := rows[k];
      var i := g.Index(bk);
      assert rows[..k + 1][..k] == rows[..k];
      if i >= 0 {
        IndexInside(g, bk);
        bs[i] := v;
      }
      forall b | 0 <= g.Index(b) < |bs[..]| ensures bs[..][g.Index(b)] == PlainValue(rows[..k + 1], empty, b) {
        if i >= 0 && g.Index(b) == i {
          IndexInjective(g, b, bk);
        }
      }
    }
    assert rows[..|rows|] == rows;
  }

  /** Reading a slice of the compact array is reading the window of the plain one. */
  lemma SliceIsWindow<T(!new)>(g: Grid, c: seq<T>, plain: int -> T, j: int, m: int)
    requires g.Valid() && g.HasWindow(j, m) && Stores(g, c, plain)
    ensures var (lo, hi) := g.Slice(j, m);
            0 <= lo <= hi <= |c| && c[lo..hi] == Minutes(plain, g.Offset(j, m), g.window)
  {
    SliceHoldsWindow(g, j, m);
    var (lo, hi) := g.Slice(j, m);
    forall i | 0 <= i < g.window ensures c[lo..hi][i] == Minutes(plain, g.Offset(j, m), g.window)[i] {
      var bk := g.Offset(j, m) + g.window - 1 - i;
      assert g.Index(bk) == lo + i;
    }
  }

  // ----- scores -----

  /** The baseline samples of the lags 1..n that have a value, over plain minutes. */
  function PlainSamples<T>(g: Grid, plain: int -> T, value: seq<T> -> Value, j: int, n: nat): seq<real>
    requires g.Valid()
  {
    if n == 0 then []
    else
      var v := value(Minutes(plain, g.Offset(j, n), g.window));
      PlainSamples(g, plain, value, j, n - 1) + if v.Num? then [v.x] else []
  }

  /** The score of end `j` against its `n` latest lags, had every minute been kept. */
  function ScoreAgainst<T>(g: Grid, c: Baseline, plain: int -> T, value: seq<T> -> Value, j: int, n: nat): Score
    requires g.Valid() && c.minSamples > 0
  {
    var current := value(Minutes(plain, g.Offset(j, 0), g.window));
    if current.NaN? then NO_SCORE else ScoreOf(c, current, PlainSamples(g, plain, value, j, n))
  }

  function PlainScore<T>(g: Grid, c: Baseline, plain: int -> T, value: seq<T> -> Value, j: int): Score
    requires g.Valid() && c.minSamples > 0
  {
    ScoreAgainst(g, c, plain, value, j, g.lags)
  }

  /** Scores one end from the compact array; it is the score over the plain minutes. */
  method ScoreAt<T(!new)>(g: Grid, c: Baseline, bs: seq<T>, ghost plain: int -> T, value: seq<T> -> Value, j: int)
      returns (score: Score)
    requires g.Valid() && c.minSamples > 0 && 0 <= j < g.ends && Stores(g, bs, plain)
    ensures score == PlainScore(g, c, plain, value, j)
  {
    hide Stores;
    SliceIsWindow(g, bs, plain, j, 0);
    var (lo, hi) := g.Slice(j, 0);
    var current := value(bs[lo..hi]);
    if current.NaN? {
      return NO_SCORE;
    }
    var samples := [];
    for m := 1 to g.lags + 1
      invariant samples == PlainSamples(g, plain, value, j, m - 1)
    {
      SliceIsWindow(g, bs, plain, j, m);
      var (lo, hi) := g.Slice(j, m);
      var v := value(bs[lo..hi]);
      if v.Num? {
        samples := samples + [v.x];
      }
    }
    score := ComputeScore(c, current, samples);
  }

  // ----- a preview against single evaluations -----

  /** Minutes of a signal before an anchor; `signal` is indexed by absolute minute. */
  function BackFrom<T>(signal: int -> T, anchor: int): int -> T {
    bk => signal(anchor - 1 - bk)
  }

  /** A preview grid and the grid of one evaluation differ only in how many ends they serve and, when lags were trimmed,
      in the number of those. */
  predicate SameBaseline(a: Grid, b: Grid) {
    a.window == b.window && a.period == b.period && a.lags <= b.lags
  }

  lemma SameMinutes<T>(g: Grid, e: Grid, signal: int -> T, anchor: int, j: int, m: int)
    requires g.Valid() && e.Valid() && SameBaseline(g, e)
    ensures Minutes(BackFrom(signal, anchor), g.Offset(j, m), g.window)
         == Minutes(BackFrom(signal, anchor - j * g.step), e.Offset(0, m), e.window)
  {
  }

  lemma {:induction false} SameSamples<T>(g: Grid, e: Grid, signal: int -> T, value: seq<T> -> Value, anchor: int,
      j: int, n: nat)
    requires g.Valid() && e.Valid() && SameBaseline(g, e)
    ensures PlainSamples(g, BackFrom(signal, anchor), value, j, n) ==
        PlainSamples(e, BackFrom(signal, anchor - j * g.step), value, 0, n)
  {
    hide Minutes;
    if n > 0 {
      SameSamples(g, e, signal, value, anchor, j, n - 1);
      SameMinutes(g, e, signal, anchor, j, n);
    }
  }

  /** The preview at every end says what an evaluation at that end says against as many of its latest lags as the
      preview kept: all of them when none were trimmed. */
  lemma PreviewScoresLikeEvaluation<T>(g: Grid, e: Grid, c: Baseline, signal: int -> T, value: seq<T> -> Value,
                                       anchor: int, j: int)
    requires g.Valid() && e.Valid() && SameBaseline(g, e) && c.minSamples > 0
    ensures var there := BackFrom(signal, anchor - j * g.step);
            && PlainScore(g, c, BackFrom(signal, anchor), value, j) == ScoreAgainst(e, c, there, value, 0, g.lags)
            && (g.lags == e.lags ==>
                  PlainScore(g, c, BackFrom(signal, anchor), value, j) == PlainScore(e, c, there, value, 0))
    ensures var there := BackFrom(signal, anchor - j * g.step);
            PlainSamples(e, there, value, 0, g.lags) <= PlainSamples(e, there, value, 0, e.lags)
  {
    hide ScoreOf;
    SameMinutes(g, e, signal, anchor, j, 0);
    SameSamples(g, e, signal, value, anchor, j, g.lags);
    LatestLagsFirst(e, BackFrom(signal, anchor - j * g.step), value, g.lags, e.lags);
  }

  lemma {:induction false} LatestLagsFirst<T>(g: Grid, plain: int -> T, value: seq<T> -> Value, n: nat, m: nat)
    requires g.Valid() && n <= m
    ensures PlainSamples(g, plain, value, 0, n) <= PlainSamples(g, plain, value, 0, m)
  {
    hide Minutes;
    if n < m {
      LatestLagsFirst(g, plain, value, n, m - 1);
    }
  }

  // ----- trimming -----

  const MAX_BUCKETS := 8000

  /** Keeps as many baseline samples as fit the bucket limit, but not fewer than required. */
  method TrimLags(g0: Grid, minSamples: nat) returns (g: Grid, approximate: bool)
    requires g0.Valid()
    ensures g == g0.(lags := g.lags) && g.Valid() && g.lags <= g0.lags
    ensures approximate <==> g.lags < g0.lags
    ensures g.lags >= Min(minSamples, g0.lags)
    ensures g.Size() <= MAX_BUCKETS || g.lags <= minSamples
    ensures forall n :: g.lags < n <= g0.lags ==> g0.(lags := n).Size() > MAX_BUCKETS
  {
    g, approximate := g0, false;
    while g.Size() > MAX_BUCKETS && g.lags > minSamples
      invariant g == g0.(lags := g.lags) && g.Valid() && Min(minSamples, g0.lags) <= g.lags <= g0.lags
      invariant approximate <==> g.lags < g0.lags
      invariant forall n :: g.lags < n <= g0.lags ==> g0.(lags := n).Size() > MAX_BUCKETS
      decreases g.lags
    {
      g := g.(lags := g.lags - 1);
      approximate := true;
    }
  }
}
