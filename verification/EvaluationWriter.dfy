/** The buffered writer of evaluation summaries (internal/alert/evalhistory.go): a bounded queue whose failed batch is
    retried under the same deduplication token. */
module EvaluationWriter {
  import opened Base

  datatype EvaluationRow = EvaluationRow(ruleId: string, seriesKey: string, at: Time, value: Value)

  /** A row with its arrival number, which the model uses to speak about order and loss. */
  datatype Entry = Entry(id: nat, row: EvaluationRow)

  datatype Batch = Batch(token: string, rows: seq<Entry>)

  datatype Options = Options(maxBatch: nat, maxBuffered: nat)

  /** The constructor's defaults: the buffer can always hold a batch. */
  function Configure(maxBatch: int, maxBuffered: int): (o: Options)
    ensures 0 < o.maxBatch <= o.maxBuffered
    ensures maxBatch > 0 ==> o.maxBatch == maxBatch
    ensures maxBatch <= 0 ==> o.maxBatch == 10000
    ensures maxBuffered >= o.maxBatch ==> o.maxBuffered == maxBuffered
    ensures maxBuffered < o.maxBatch ==> o.maxBuffered == Max(o.maxBatch, 100000)
  {
    var batch := if maxBatch <= 0 then 10000 else maxBatch;
    Options(batch, if maxBuffered < batch then Max(batch, 100000) else maxBuffered)
  }

  /** The writer, the sink behind it and the history of both. `inFlight` says that an insert of the retry batch is
      running outside the lock. */
  datatype State = State(
    o: Options,
    buf: seq<Entry>,
    retry: Option<Batch>,
    inFlight: bool,
    added: nat,
    written: seq<Entry>,
    dropped: seq<Entry>,
    tokens: set<string>,
    sink: map<string, seq<Entry>>
  )

  function InRetry(s: State): seq<Entry> {
    if s.retry.Some? then s.retry.value.rows else []
  }

  function Tag(rows: seq<EvaluationRow>, from: nat): (es: seq<Entry>)
    ensures |es| == |rows| && forall i :: 0 <= i < |rows| ==> es[i] == Entry(from + i, rows[i])
  {
    seq(|rows|, i requires 0 <= i < |rows| => Entry(from + i, rows[i]))
  }

  /** How many of the oldest buffered rows do not fit. */
  function Overflow(buffered: nat, inRetry: nat, limit: nat): nat {
    var over := buffered + inRetry - limit;
    if over > 0 then Min(over, buffered) else 0
  }

  function Add(s: State, rows: seq<EvaluationRow>): State {
    var all := s.buf + Tag(rows, s.added);
    var cut := if rows == [] then 0 else Overflow(|all|, |InRetry(s)|, s.o.maxBuffered);
    s.(buf := all[cut..], dropped := s.dropped + all[..cut], added := s.added + |rows|)
  }

  /** The first critical section of a flush: the failed batch again, else the next rows under a new token. */
  function Take(s: State, token: string): State {
    if s.retry.Some? then s.(inFlight := true)
    else if s.buf == [] then s
    else
      var n := Min(|s.buf|, s.o.maxBatch);
      s.(buf := s.buf[n..], retry := Some(Batch(token, s.buf[..n])), inFlight := true, tokens := s.tokens + {token})
  }

  /** The sink ignores a token it has already stored. */
  function Stored(sink: map<string, seq<Entry>>, b: Batch): map<string, seq<Entry>> {
    if b.token in sink then sink else sink[b.token := b.rows]
  }

  function InsertOk(s: State): State
    requires s.inFlight && s.retry.Some?
  {
    s.(retry := None, inFlight := false, written := s.written + s.retry.value.rows,
        sink := Stored(s.sink, s.retry.value))
  }

  /** A failed insert may have taken effect all the same. */
  function InsertFailed(s: State, applied: bool): State
    requires s.inFlight && s.retry.Some?
  {
    s.(inFlight := false, sink := if applied then Stored(s.sink, s.retry.value) else s.sink)
  }

  datatype Event = Added(rows: seq<EvaluationRow>) | Taken(token: string) | Succeeded | Failed(applied: bool)

  ghost predicate Enabled(s: State, ev: Event) {
    match ev
    case Added(_) => true
    case Taken(token) => !s.inFlight && token !in s.tokens
    case Succeeded => s.inFlight && s.retry.Some?
    case Failed(_) => s.inFlight && s.retry.Some?
  }

  ghost function Apply(s: State, ev: Event): State
    requires Enabled(s, ev)
  {
    match ev
    case Added(rows) => Add(s, rows)
    case Taken(token) => Take(s, token)
    case Succeeded => InsertOk(s)
    case Failed(applied) => InsertFailed(s, applied)
  }

  // ----- invariants -----

  /** Everything that was not dropped, in the order it is or will be written. */
  function Line(s: State): seq<Entry> {
    s.written + InRetry(s) + s.buf
  }

  predicate Increasing(es: seq<Entry>) {
    forall i, j :: 0 <= i < j < |es| ==> es[i].id < es[j].id
  }

  predicate Unique(es: seq<Entry>) {
    forall i, j :: 0 <= i < j < |es| ==> es[i].id != es[j].id
  }

  predicate Below(es: seq<Entry>, n: nat) {
    forall i :: 0 <= i < |es| ==> es[i].id < n
  }

  predicate Apart(a: seq<Entry>, b: seq<Entry>) {
    forall i, j :: 0 <= i < |a| && 0 <= j < |b| ==> a[i].id != b[j].id
  }

  predicate Bounded(s: State) {
    && 0 < s.o.maxBatch <= s.o.maxBuffered
    && |InRetry(s)| <= s.o.maxBatch && |s.buf| + |InRetry(s)| <= s.o.maxBuffered
  }

  predicate Accounted(s: State) {
    && Increasing(Line(s)) && Below(Line(s), s.added)
    && Unique(s.dropped) && Below(s.dropped, s.added) && Apart(s.dropped, Line(s))
    && s.added == |s.written| + |s.dropped| + |s.buf| + |InRetry(s)|
  }

  predicate Blocks(s: State) {
    && (forall t :: t in s.sink ==> t in s.tokens)
    && (s.retry.Some? ==>
          && s.retry.value.token in s.tokens
          && (s.retry.value.token in s.sink ==> s.sink[s.retry.value.token] == s.retry.value.rows))
    && (forall t :: t in s.sink && !(s.retry.Some? && s.retry.value.token == t) ==>
          forall e :: e in s.sink[t] ==> e in s.written)
    && (forall t :: t in s.sink ==> Increasing(s.sink[t]))
    && (forall t, u :: t in s.sink && u in s.sink && t != u ==> Apart(s.sink[t], s.sink[u]))
    && (forall e :: e in s.written ==> exists t :: t in s.sink && e in s.sink[t])
  }

  predicate Inv(s: State) {
    Bounded(s) && Accounted(s) && Blocks(s)
  }

  // ----- order under cutting -----

  lemma IncreasingJoin(a: seq<Entry>, b: seq<Entry>)
    requires Increasing(a) && Increasing(b)
    requires a != [] && b != [] ==> a[|a| - 1].id < b[0].id
    ensures Increasing(a + b)
  {
    assert forall i :: 0 <= i < |a| - 1 ==> a[i].id < a[|a| - 1].id;
    assert forall j :: 0 < j < |b| ==> b[0].id < b[j].id;
  }

  /** Dropping a middle part of an increasing line keeps it increasing and the part apart from the rest. */
  lemma CutMiddle(a: seq<Entry>, m: seq<Entry>, b: seq<Entry>)
    requires Increasing(a + m + b)
    ensures Increasing(a + b) && Increasing(m) && Apart(m, a + b)
  {
    var all, rest := a + m + b, a + b;
    forall i, j | 0 <= i < j < |rest| ensures rest[i].id < rest[j].id {
      var x, y := if i < |a| then i else i + |m|, if j < |a| then j else j + |m|;
      assert rest[i] == all[x] && rest[j] == all[y];
    }
    forall i, j | 0 <= i < |m| && 0 <= j < |rest| ensures m[i].id != rest[j].id {
      var y := if j < |a| then j else j + |m|;
      assert m[i] == all[|a| + i] && rest[j] == all[y];
    }
    assert forall i :: 0 <= i < |m| ==> all[|a| + i] == m[i];
  }

  lemma ApartParts(d: seq<Entry>, a: seq<Entry>, m: seq<Entry>, b: seq<Entry>)
    requires Apart(d, a + m + b)
    ensures Apart(d, m) && Apart(d, a + b)
  {
    var all := a + m + b;
    assert forall i :: 0 <= i < |a| ==> all[i] == a[i];
    assert forall i :: 0 <= i < |m| ==> all[|a| + i] == m[i];
    assert forall i :: 0 <= i < |b| ==> all[|a| + |m| + i] == b[i];
  }

  lemma BelowParts(a: seq<Entry>, m: seq<Entry>, b: seq<Entry>, n: nat)
    requires Below(a + m + b, n)
    ensures Below(m, n) && Below(a + b, n)
  {
    var all := a + m + b;
    assert forall i :: 0 <= i < |a| ==> all[i] == a[i];
    assert forall i :: 0 <= i < |m| ==> all[|a| + i] == m[i];
    assert forall i :: 0 <= i < |b| ==> all[|a| + |m| + i] == b[i];
  }

  // ----- every event -----

  /** New rows follow everything in the line and are none of the dropped ones. */
  lemma NewRows(s: State, rows: seq<EvaluationRow>)
    requires Accounted(s)
    ensures var news := Tag(rows, s.added);
            Increasing(Line(s) + news) && Below(Line(s) + news, s.added + |rows|) && Apart(s.dropped, Line(s) + news)
  {
    var news := Tag(rows, s.added);
    assert Increasing(news);
    IncreasingJoin(Line(s), news);
  }

  lemma AddKeepsAccounts(s: State, rows: seq<EvaluationRow>)
    requires Inv(s)
    ensures Accounted(Add(s, rows))
  {
    hide Increasing, Apart, Below, Unique, Blocks, Bounded, Line;
    var news := Tag(rows, s.added);
    NewRows(s, rows);
    var dropped, rest := AddShape(s, rows);
    hide Add;
    DropMiddle(s.dropped, s.written + InRetry(s), dropped, rest, s.added, s.added + |rows|);
  }

  /** Adding moves a front part of the buffer and the new rows from the line to the dropped rows. */
  lemma AddShape(s: State, rows: seq<EvaluationRow>) returns (dropped: seq<Entry>, rest: seq<Entry>)
    ensures var t, head := Add(s, rows), s.written + InRetry(s);
            && Line(s) + Tag(rows, s.added) == head + dropped + rest
            && Line(t) == head + rest && t.dropped == s.dropped + dropped && t.added == s.added + |rows|
            && t.written == s.written && InRetry(t) == InRetry(s) && t.buf == rest
            && |s.buf| + |rows| == |dropped| + |rest|
  {
    var all := s.buf + Tag(rows, s.added);
    var cut := |all| - |Add(s, rows).buf|;
    dropped, rest := all[..cut], all[cut..];
    assert all == dropped + rest;
  }

  /** Moving the middle of the line to the dropped rows. */
  lemma DropMiddle(dropped: seq<Entry>, a: seq<Entry>, m: seq<Entry>, b: seq<Entry>, n: nat, n2: nat)
    requires Increasing(a + m + b) && Below(a + m + b, n2) && Apart(dropped, a + m + b)
    requires Unique(dropped) && Below(dropped, n) && n <= n2
    ensures Increasing(a + b) && Below(a + b, n2) && Apart(dropped + m, a + b)
    ensures Unique(dropped + m) && Below(dropped + m, n2)
  {
    CutMiddle(a, m, b);
    ApartParts(dropped, a, m, b);
    BelowParts(a, m, b, n2);
  }

  lemma AddKeepsBound(s: State, rows: seq<EvaluationRow>)
    requires Bounded(s)
    ensures Bounded(Add(s, rows))
  {
  }

  lemma AddKeeps(s: State, rows: seq<EvaluationRow>)
    requires Inv(s)
    ensures Inv(Add(s, rows))
  {
    hide Accounted;
    AddKeepsAccounts(s, rows);
    AddKeepsBound(s, rows);
  }

  lemma TakeKeeps(s: State, token: string)
    requires Inv(s) && token !in s.tokens
    ensures Inv(Take(s, token))
  {
    var t := Take(s, token);
    if s.retry.None? && s.buf != [] {
      var n := Min(|s.buf|, s.o.maxBatch);
      assert s.buf == s.buf[..n] + s.buf[n..];
      assert Line(t) == Line(s);
    }
  }

  /** The retry batch holds none of the written rows. */
  lemma RetryIsNew(s: State)
    requires Accounted(s) && s.retry.Some?
    ensures Increasing(s.retry.value.rows)
    ensures forall e :: e in s.written ==> forall f :: f in s.retry.value.rows ==> e.id != f.id
  {
    var rows := s.retry.value.rows;
    CutMiddle(s.written, rows, s.buf);
    forall e, f | e in s.written && f in rows ensures e.id != f.id {
      var i :| 0 <= i < |rows| && rows[i] == f;
      var j :| 0 <= j < |s.written| && s.written[j] == e;
      assert (s.written + s.buf)[j] == e;
    }
  }

  lemma StoreKeeps(s: State)
    requires Accounted(s) && Blocks(s) && s.retry.Some?
    ensures Blocks(s.(sink := Stored(s.sink, s.retry.value)))
  {
    var b := s.retry.value;
    RetryIsNew(s);
    var sink := Stored(s.sink, b);
    if b.token !in s.sink {
      forall t, u | t in sink && u in sink && t != u ensures Apart(sink[t], sink[u]) {
        forall i, j | 0 <= i < |sink[t]| && 0 <= j < |sink[u]| ensures sink[t][i].id != sink[u][j].id {
          if t == b.token {
            assert sink[u][j] in s.sink[u];
            assert sink[t][i] in b.rows;
          } else if u == b.token {
            assert sink[t][i] in s.sink[t];
            assert sink[u][j] in b.rows;
          } else {
            assert Apart(s.sink[t], s.sink[u]);
          }
        }
      }
      forall e | e in s.written ensures exists t :: t in sink && e in sink[t] {
        var t :| t in s.sink && e in s.sink[t];
        assert t in sink && e in sink[t];
      }
    }
  }

  lemma WriteKeepsBlocks(s: State)
    requires Blocks(s) && s.retry.Some? && s.retry.value.token in s.sink
    ensures Blocks(s.(retry := None, inFlight := false, written := s.written + s.retry.value.rows))
  {
    var b := s.retry.value;
    var t := s.(retry := None, inFlight := false, written := s.written + b.rows);
    forall e | e in t.written ensures exists k :: k in t.sink && e in t.sink[k] {
      if e in b.rows {
        assert e in t.sink[b.token];
      } else {
        assert e in s.written;
      }
    }
  }

  lemma OkKeeps(s: State)
    requires Inv(s) && s.inFlight && s.retry.Some?
    ensures Inv(InsertOk(s))
  {
    hide Blocks;
    StoreKeeps(s);
    var mid := s.(sink := Stored(s.sink, s.retry.value));
    WriteKeepsBlocks(mid);
    assert Line(InsertOk(s)) == Line(s);
  }

  lemma FailKeeps(s: State, applied: bool)
    requires Inv(s) && s.inFlight && s.retry.Some?
    ensures Inv(InsertFailed(s, applied))
  {
    hide Blocks;
    StoreKeeps(s);
    SameBlocks(s, InsertFailed(s, applied));
    SameBlocks(s.(sink := Stored(s.sink, s.retry.value)), InsertFailed(s, applied));
  }

  lemma SameBlocks(s: State, t: State)
    ensures Blocks(s) && t == s.(inFlight := t.inFlight) ==> Blocks(t)
  {
  }

  lemma EventKeeps(s: State, ev: Event)
    requires Inv(s) && Enabled(s, ev)
    ensures Inv(Apply(s, ev))
  {
    hide Inv;
    match ev
    case Added(rows) => AddKeeps(s, rows);
    case Taken(token) => TakeKeeps(s, token);
    case Succeeded => OkKeeps(s);
    case Failed(applied) => FailKeeps(s, applied);
  }

  datatype Run = Run(states: seq<State>, events: seq<Event>) {
    ghost predicate Valid() {
      && |states| == |events| + 1
      && 0 < states[0].o.maxBatch <= states[0].o.maxBuffered
      && states[0] == State(states[0].o, [], None, false, 0, [], [], {}, map[])
      && forall n :: 0 <= n < |events| ==> StepAt(n)
    }

    ghost predicate StepAt(n: nat)
      requires n < |events| && |states| == |events| + 1
    {
      Enabled(states[n], events[n]) && states[n + 1] == Apply(states[n], events[n])
    }
  }

  lemma {:induction false} RunKeepsInv(run: Run, n: nat)
    requires run.Valid() && n < |run.states|
    ensures Inv(run.states[n])
  {
    hide Apply;
    hide Enabled;
    if n > 0 {
      RunKeepsInv(run, n - 1);
      assert run.StepAt(n - 1);
      EventKeeps(run.states[n - 1], run.events[n - 1]);
    }
  }

  // ----- what the writer promises -----

  /** Every row is written, dropped, buffered or in retry, no row is two of these, and the buffer stays within its
      limit. */
  lemma NoRowIsLostUnseen(run: Run, n: nat)
    requires run.Valid() && n < |run.states|
    ensures var s := run.states[n];
            && s.added == |s.written| + |s.dropped| + |s.buf| + |InRetry(s)|
            && Unique(s.dropped) && Apart(s.dropped, Line(s))
            && |s.buf| + |InRetry(s)| <= s.o.maxBuffered
  {
    RunKeepsInv(run, n);
  }

  /** Rows are written in the order they arrived, and before everything that still waits. */
  lemma WrittenInArrivalOrder(run: Run, n: nat)
    requires run.Valid() && n < |run.states|
    ensures Increasing(run.states[n].written + InRetry(run.states[n]) + run.states[n].buf)
  {
    RunKeepsInv(run, n);
  }

  /** The sink holds every written row and no row twice, even when an insert that was reported as failed had taken
      effect; a dropped row is never stored. */
  lemma StoredOnce(run: Run, n: nat)
    requires run.Valid() && n < |run.states|
    ensures var s := run.states[n];
            && (forall e :: e in s.written ==> exists t :: t in s.sink && e in s.sink[t])
            && (forall t :: t in s.sink ==> Increasing(s.sink[t]))
            && (forall t, u :: t in s.sink && u in s.sink && t != u ==> Apart(s.sink[t], s.sink[u]))
            && (forall t, e, d :: t in s.sink && e in s.sink[t] && d in s.dropped ==> e.id != d.id)
  {
    RunKeepsInv(run, n);
    var s := run.states[n];
    forall t, e, d | t in s.sink && e in s.sink[t] && d in s.dropped ensures e.id != d.id {
      assert e in Line(s);
      var i :| 0 <= i < |Line(s)| && Line(s)[i] == e;
      var j :| 0 <= j < |s.dropped| && s.dropped[j] == d;
    }
  }

  // ----- single steps -----

  /** Adding appends the new rows. Nothing is dropped while they fit beside the retry batch; what does not fit is
      dropped from the front, the oldest rows first, and no more of it than needed. */
  lemma AddIsExact(s: State, rows: seq<EvaluationRow>)
    requires Bounded(s)
    ensures var t := Add(s, rows);
            var over := |s.buf| + |rows| + |InRetry(s)| - s.o.maxBuffered;
            var cut := if rows == [] || over <= 0 then 0 else over;
            && 0 <= cut <= |s.buf| + |rows|
            && t.dropped + t.buf == s.dropped + s.buf + Tag(rows, s.added)
            && |t.dropped| == |s.dropped| + cut
            && t == s.(buf := t.buf, dropped := t.dropped, added := s.added + |rows|)
  {
    var all := s.buf + Tag(rows, s.added);
    var cut := |Add(s, rows).dropped| - |s.dropped|;
    assert s.dropped + all[..cut] + all[cut..] == s.dropped + all;
  }

  /** A flush takes the batch that failed before, whole and under its token, else the oldest rows up to a batch under
      the new token. */
  lemma TakeIsExact(s: State, token: string)
    ensures var t := Take(s, token);
            if s.retry.Some? then t == s.(inFlight := true)
            else if s.buf == [] then t == s
            else
              && t.retry.Some? && t.retry.value.token == token && t.inFlight
              && t.retry.value.rows + t.buf == s.buf && |t.retry.value.rows| == Min(|s.buf|, s.o.maxBatch)
              && t == s.(buf := t.buf, retry := t.retry, inFlight := true, tokens := s.tokens + {token})
  {
  }

  /** A batch is written when its insert succeeds and kept for the next flush when it fails, whether or not the sink
      took it. The sink takes a token once. */
  lemma OutcomesAreExact(s: State, applied: bool)
    requires s.inFlight && s.retry.Some?
    ensures var b, t := s.retry.value, InsertOk(s);
            && t.retry.None? && !t.inFlight && t.written == s.written + b.rows && b.token in t.sink
            && t.sink[b.token] == (if b.token in s.sink then s.sink[b.token] else b.rows)
            && t.buf == s.buf && t.dropped == s.dropped && t.added == s.added
    ensures var b, t := s.retry.value, InsertFailed(s, applied);
            && t.retry == s.retry && !t.inFlight && t.written == s.written && t.buf == s.buf
            && t.dropped == s.dropped && t.added == s.added
            && (!applied ==> t.sink == s.sink) && (applied && b.token !in s.sink ==>
                 t.sink == s.sink[b.token := b.rows])
  {
  }

  // ----- the writer itself -----

  class Writer {
    const o: Options
    var buf: seq<Entry>
    var retry: Option<Batch>
    var added: nat
    ghost var s: State

    ghost predicate Valid()
      reads this
    {
      Inv(s) && s.o == o && s.buf == buf && s.retry == retry && s.added == added && !s.inFlight
    }

    constructor (maxBatch: int, maxBuffered: int)
      ensures Valid() && s == State(Configure(maxBatch, maxBuffered), [], None, false, 0, [], [], {}, map[])
    {
      o := Configure(maxBatch, maxBuffered);
      buf, retry, added := [], None, 0;
      s := State(Configure(maxBatch, maxBuffered), [], None, false, 0, [], [], {}, map[]);
    }

    method AddRows(rows: seq<EvaluationRow>) returns (full: bool)
      requires Valid()
      modifies this
      ensures Valid() && s == Add(old(s), rows)
      ensures rows != [] ==> (full <==> |buf| >= o.maxBatch)
    {
      AddKeeps(s, rows);
      s := Add(s, rows);
      hide Inv;
      if |rows| == 0 {
        return false;
      }
      buf := buf + Tag(rows, added);
      added := added + |rows|;
      var inRetry := if retry.Some? then |retry.value.rows| else 0;
      var over := |buf| + inRetry - o.maxBuffered;
      if over > 0 {
        over := Min(over, |buf|);
        buf := buf[over..];
      }
      full := |buf| >= o.maxBatch;
    }

    /** One flush: at most one batch, reported as written only when the insert succeeded. */
    method Flush(token: string, ok: bool, ghost applied: bool) returns (n: nat)
      requires Valid() && token !in s.tokens
      modifies this
      ensures Valid()
      ensures var taken := Take(old(s), token);
              && (taken.retry.None? ==> n == 0 && s == taken)
              && (taken.retry.Some? && ok ==> n == |taken.retry.value.rows| && s == InsertOk(taken))
              && (taken.retry.Some? && !ok ==> n == 0 && s == InsertFailed(taken, applied))
    {
      TakeKeeps(s, token);
      ghost var taken := Take(s, token);
      if retry.None? {
        if |buf| == 0 {
          s := taken;
          return 0;
        }
        var k := Min(|buf|, o.maxBatch);
        retry := Some(Batch(token, buf[..k]));
        buf := buf[k..];
      }
      hide Inv;
      if !ok {
        FailKeeps(taken, applied);
        s := InsertFailed(taken, applied);
        return 0;
      }
      OkKeeps(taken);
      n := |retry.value.rows|;
      s := InsertOk(taken);
      retry := None;
    }
  }
}
