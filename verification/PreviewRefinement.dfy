/** The evaluator's sparse rows refine the preview's dense states, exactly when missing data cannot breach. */
module PreviewRefinement {
  import opened Base
  import opened Series
  import opened Plan
  import opened Preview

  // ----- the evaluator over the same ends -----

  /** The rule settings that do not change during a run, and what each evaluation brings. */
  datatype Rule = Rule(cfg: StepConfig, renotifyInterval: int, channels: seq<ChannelRef>)

  datatype Evaluation = Evaluation(end: Time, samples: map<string, Value>, targets: string -> seq<string>,
      newIds: string -> nat)

  function Ends(evals: seq<Evaluation>): (ends: seq<Time>)
    ensures |ends| == |evals|
  {
    seq(|evals|, i requires 0 <= i < |evals| => evals[i].end)
  }

  /** The values of one series: its sample at every end, or none. */
  function ValuesOf(evals: seq<Evaluation>, key: string): (vals: seq<Value>)
    ensures |vals| == |evals|
  {
    seq(|evals|, i requires 0 <= i < |evals| => if key in evals[i].samples then evals[i].samples[key] else NaN)
  }

  function StoreRow(row: Option<SeriesState>, e: Effect): Option<SeriesState> {
    if e.write.Some? then e.write else if e.remove then None else row
  }

  function RowOf(rows: map<string, SeriesState>, key: string): Option<SeriesState> {
    if key in rows then Some(rows[key]) else None
  }

  /** Rows after committing a change set: removals, then upserts. */
  function Stored(rows: map<string, SeriesState>, p: Plan): (r: map<string, SeriesState>)
    ensures forall k :: RowOf(r, k) == if k in p then StoreRow(RowOf(rows, k), p[k]) else RowOf(rows, k)
  {
    map k | k in rows.Keys + p.Keys && (if k in p then StoreRow(RowOf(rows, k), p[k]) else RowOf(rows, k)).Some? ::
      (if k in p then StoreRow(RowOf(rows, k), p[k]) else RowOf(rows, k)).value
  }

  function InputAt(rule: Rule, evals: seq<Evaluation>, i: nat, rows: map<string, SeriesState>): PlanInput
    requires i < |evals|
  {
    PlanInput(rule.cfg, rule.renotifyInterval, rule.channels, rows, evals[i].samples, PrevEnd(Ends(evals), i),
              evals[i].end, evals[i].targets, evals[i].newIds)
  }

  function RowsAt(rule: Rule, evals: seq<Evaluation>, i: nat): map<string, SeriesState>
    requires i <= |evals|
  {
    if i == 0 then map[]
    else
      var rows := RowsAt(rule, evals, i - 1);
      Stored(rows, PlanOf(InputAt(rule, evals, i - 1, rows)))
  }

  function SparseEvent(rule: Rule, evals: seq<Evaluation>, key: string, i: nat): Event
    requires i < |evals|
  {
    var inp := InputAt(rule, evals, i, RowsAt(rule, evals, i));
    if key in inp.Keys() then EventOf(Outcome(inp, key)) else NOTHING
  }

  function SparseEvents(rule: Rule, evals: seq<Evaluation>, key: string): (evs: seq<Event>)
    ensures |evs| == |evals| && forall i :: 0 <= i < |evals| ==> evs[i] == SparseEvent(rule, evals, key, i)
  {
    seq(|evals|, i requires 0 <= i < |evals| => SparseEvent(rule, evals, key, i))
  }

  /** Ends increase and samples are numbers, as conditions report them. */
  ghost predicate IsRun(evals: seq<Evaluation>) {
    && (forall i, j :: 0 <= i < j < |evals| ==> evals[i].end < evals[j].end)
    && (forall i, k :: 0 <= i < |evals| && k in evals[i].samples ==> evals[i].samples[k].Num?)
  }

  // ----- the simulation relation -----

  /** States that every later step (at or after `end`) treats alike. */
  predicate Alike(a: SeriesState, b: SeriesState, end: Time, f: Flapping) {
    && Current(a.phase) == Current(b.phase)
    && a.pendingSince == b.pendingSince
    && a.recoveringSince == b.recoveringSince
    && (!Current(a.phase).Ok? ==> a.lastSeenAt == b.lastSeenAt)
    && Prune(a.transitions, end, f) == Prune(b.transitions, end, f)
  }

  predicate Represents(row: Option<SeriesState>, d: Dense, end: Time, f: Flapping) {
    && Tidy(d.st)
    && match row
    case None =>
      && Alike(d.st, NewSeries(""), end, f) && d.st.transitions == []
    case Some(s) =>
      && d.seen && !s.phase.Blank? && Alike(d.st, s, end, f)
      && (s.incidentId.Some? ==> s.incident.Some? && !s.incident.value.state.Resolved?)
      && (s.phase.Firing? ==> s.incidentId.Some?)
  }

  predicate MissingNeverBreaches(cfg: StepConfig) {
    !cfg.missing.AsBreach? && (cfg.missing.AsZero? ==> !cfg.judge.Breach(Num(0.0)))
  }

  // ----- one step -----

  lemma PrepareAlike(a: SeriesState, b: SeriesState, inp: StepInput, cfg: StepConfig)
    requires Alike(a, b, inp.end, cfg.flapping)
    ensures var x, y := Prepared(a, inp, cfg), Prepared(b, inp, cfg);
            && x.phase == y.phase && x.pendingSince == y.pendingSince && x.recoveringSince == y.recoveringSince
            && x.transitions == y.transitions && (!x.phase.Ok? ==> x.lastSeenAt == y.lastSeenAt)
            && Read(x, inp, cfg) == Read(y, inp, cfg)
  {
  }

  lemma MoveAlike(x: SeriesState, y: SeriesState, end: Time, r: Reading, cfg: StepConfig)
    requires r.Judged?
    requires x.phase == y.phase && x.pendingSince == y.pendingSince && x.recoveringSince == y.recoveringSince
    requires x.transitions == y.transitions && !x.phase.Blank?
    ensures var m, n := Moved(x, end, r, cfg), Moved(y, end, r, cfg);
            && m.transition == n.transition && m.resolve == n.resolve && m.extended == n.extended
            && m.next.phase == n.next.phase && m.next.pendingSince == n.next.pendingSince
            && m.next.recoveringSince == n.next.recoveringSince && m.next.transitions == n.next.transitions
            && m.next.lastSeenAt == x.lastSeenAt && n.next.lastSeenAt == y.lastSeenAt
            && (x.phase.Ok? && !m.next.phase.Ok? ==> r.breach) && !m.next.phase.Blank?
  {
  }

  /** A step reads nothing but what `Alike` compares. */
  lemma StepAlike(a: SeriesState, b: SeriesState, inp: StepInput, cfg: StepConfig)
    requires Alike(a, b, inp.end, cfg.flapping) && MissingNeverBreaches(cfg)
    ensures var x, y := Step(a, inp, cfg), Step(b, inp, cfg);
            && EventOf(x) == EventOf(y) && x.persist == y.persist
            && Alike(x.next, y.next, inp.end, cfg.flapping) && x.next.transitions == y.next.transitions
            && !x.next.phase.Blank? && !y.next.phase.Blank?
  {
    hide Moved;
    hide Prepared;
    PrepareAlike(a, b, inp, cfg);
    var x, y := Prepared(a, inp, cfg), Prepared(b, inp, cfg);
    var r := Read(x, inp, cfg);
    PreparedPhase(a, inp, cfg);
    PreparedPhase(b, inp, cfg);
    if r.Judged? {
      MoveAlike(Seen(x, inp, cfg), Seen(y, inp, cfg), inp.end, r, cfg);
    }
  }

  lemma PreparedPhase(a: SeriesState, inp: StepInput, cfg: StepConfig)
    ensures Prepared(a, inp, cfg).phase == Current(a.phase)
  {
  }

  /** An absent ok series without history does not change. */
  lemma QuietStep(s: SeriesState, inp: StepInput, cfg: StepConfig)
    requires Current(s.phase).Ok? && s.transitions == [] && !inp.present && MissingNeverBreaches(cfg)
    ensures var o := Step(s, inp, cfg);
            && EventOf(o) == NOTHING
            && o.next.phase.Ok? && o.next.transitions == []
            && o.next.pendingSince == s.pendingSince && o.next.recoveringSince == s.recoveringSince
  {
  }

  /** Rows that are not written are ok and have no history, unless keep mode left them alone. */
  lemma UnwrittenStep(s: SeriesState, inp: StepInput, cfg: StepConfig)
    requires !Step(s, inp, cfg).persist
    ensures var o := Step(s, inp, cfg);
            && o.next.phase.Ok?
            && (o.delete ==> o.next.transitions == [])
            && (!o.delete && !s.phase.Blank? ==>
                  && Current(s.phase).Ok? && o.next.transitions == Prune(s.transitions, inp.end, cfg.flapping)
                  && o.next.pendingSince == s.pendingSince && o.next.recoveringSince == s.recoveringSince)
            && (!o.delete && s.phase.Blank? && s.transitions == [] ==> o.next.transitions == [])
  {
  }

  predicate SameTimers(a: SeriesState, b: SeriesState) {
    && a.phase == b.phase && a.pendingSince == b.pendingSince && a.recoveringSince == b.recoveringSince
    && a.lastSeenAt == b.lastSeenAt && a.transitions == b.transitions
  }

  lemma NextRowKeepsTimers(inp: PlanInput, key: string)
    ensures SameTimers(NextRow(inp, key), Outcome(inp, key).next)
    ensures var o, r := Outcome(inp, key), NextRow(inp, key);
            && (o.open ==> r.incidentId.Some? && r.incident.Some? && r.incident.value.state.Open?)
            && (!o.open ==> r.incidentId == o.next.incidentId && r.incident.Some? == o.next.incident.Some?
                            && (r.incident.Some? ==> r.incident.value.state == o.next.incident.value.state))
  {
    hide Step;
  }

  // ----- the refinement -----

  function ValueOf(inp: PlanInput, key: string): Value {
    if key in inp.samples then inp.samples[key] else NaN
  }

  function RowAfter(inp: PlanInput, key: string): Option<SeriesState> {
    if key in inp.Keys() then StoreRow(RowOf(inp.states, key), EffectOf(inp, key)) else RowOf(inp.states, key)
  }

  function DenseReport(inp: PlanInput, d: Dense, v: Value): Event {
    if Skipped(d, v) then NOTHING else EventOf(DenseOutcome(inp.cfg, d, inp.end, inp.prevEvalEnd, v))
  }

  function SparseReport(inp: PlanInput, key: string): Event {
    if key in inp.Keys() then EventOf(Outcome(inp, key)) else NOTHING
  }

  lemma PreviousIsAlike(inp: PlanInput, key: string, d: Dense)
    requires Represents(RowOf(inp.states, key), d, inp.end, inp.cfg.flapping)
    ensures Alike(d.st, Previous(inp, key), inp.end, inp.cfg.flapping)
    ensures key in inp.states ==> Previous(inp, key) == inp.states[key].(key := key)
  {
  }

  lemma PruneAgain(ts: seq<Time>, end: Time, f: Flapping)
    ensures Prune(Prune(ts, end, f), end, f) == Prune(ts, end, f)
  {
    PruneTwice(ts, end, end, f);
  }

  /** A series the evaluator steps: same report, and the stored row again stands for the dense state. */
  lemma SteppedAgrees(inp: PlanInput, key: string, d: Dense)
    requires Represents(RowOf(inp.states, key), d, inp.end, inp.cfg.flapping) && MissingNeverBreaches(inp.cfg)
    requires key in inp.Keys() && (key in inp.samples ==> inp.samples[key].Num?)
    ensures DenseReport(inp, d, ValueOf(inp, key)) == SparseReport(inp, key)
    ensures Represents(RowAfter(inp, key), DenseStep(inp.cfg, d, inp.end, inp.prevEvalEnd, ValueOf(inp, key)), inp.end,
        inp.cfg.flapping)
  {
    hide Step;
    hide NextRow;
    var prev, si := Previous(inp, key), InputFor(inp, key);
    PreviousIsAlike(inp, key, d);
    StepAlike(d.st, prev, si, inp.cfg);
    IncidentStep(prev, si, inp.cfg);
    IncidentStep(d.st, si, inp.cfg);
    NextRowKeepsTimers(inp, key);
    var o := Outcome(inp, key);
    if !o.persist {
      UnwrittenStep(prev, si, inp.cfg);
      PruneAgain(prev.transitions, inp.end, inp.cfg.flapping);
    }
  }

  /** A series the evaluator does not step: the preview sees nothing happen either. */
  lemma SkippedAgrees(inp: PlanInput, key: string, d: Dense)
    requires Represents(None, d, inp.end, inp.cfg.flapping) && MissingNeverBreaches(inp.cfg)
    requires key !in inp.Keys()
    ensures DenseReport(inp, d, NaN) == NOTHING
    ensures Represents(None, DenseStep(inp.cfg, d, inp.end, inp.prevEvalEnd, NaN), inp.end, inp.cfg.flapping)
  {
    hide Step;
    QuietStep(d.st, StepInput(inp.end, inp.prevEvalEnd, false, NaN), inp.cfg);
  }

  lemma RepresentsLater(row: Option<SeriesState>, d: Dense, e1: Time, e2: Time, f: Flapping)
    requires Represents(row, d, e1, f) && e1 <= e2
    ensures Represents(row, d, e2, f)
  {
    if row.Some? {
      PruneTwice(d.st.transitions, e1, e2, f);
      PruneTwice(row.value.transitions, e1, e2, f);
    }
  }

  lemma NoRowRepresentsNewSeries(end: Time, f: Flapping)
    ensures Represents(None, Dense(NewSeries(""), false), end, f)
  {
  }

  lemma {:induction false} RowsRepresentDense(rule: Rule, evals: seq<Evaluation>, key: string, i: nat)
    requires IsRun(evals) && i < |evals| && MissingNeverBreaches(rule.cfg)
    ensures Represents(RowOf(RowsAt(rule, evals, i), key), DenseAt(rule.cfg, Ends(evals), ValuesOf(evals, key), i),
                       evals[i].end, rule.cfg.flapping)
  {
    hide Represents;
    hide DenseStep;
    hide PlanOf;
    if i == 0 {
      NoRowRepresentsNewSeries(evals[0].end, rule.cfg.flapping);
    } else {
      RowsRepresentDense(rule, evals, key, i - 1);
      AgreesAt(rule, evals, key, i - 1);
      RepresentsLater(RowOf(RowsAt(rule, evals, i), key), DenseAt(rule.cfg, Ends(evals), ValuesOf(evals, key), i),
                      evals[i - 1].end, evals[i].end, rule.cfg.flapping);
    }
  }

  lemma AgreesAt(rule: Rule, evals: seq<Evaluation>, key: string, i: nat)
    requires IsRun(evals) && i < |evals| && MissingNeverBreaches(rule.cfg)
    requires Represents(RowOf(RowsAt(rule, evals, i), key), DenseAt(rule.cfg, Ends(evals), ValuesOf(evals, key), i),
                        evals[i].end, rule.cfg.flapping)
    ensures DenseEvent(rule.cfg, Ends(evals), ValuesOf(evals, key), i) == SparseEvent(rule, evals, key, i)
    ensures Represents(RowOf(RowsAt(rule, evals, i + 1), key),
        DenseAt(rule.cfg, Ends(evals), ValuesOf(evals, key), i + 1),
                       evals[i].end, rule.cfg.flapping)
  {
    hide DenseStep;
    hide DenseOutcome;
    hide Outcome;
    hide EffectOf;
    hide Represents;
    var rows := RowsAt(rule, evals, i);
    var inp := InputAt(rule, evals, i, rows);
    var d := DenseAt(rule.cfg, Ends(evals), ValuesOf(evals, key), i);
    assert ValuesOf(evals, key)[i] == ValueOf(inp, key);
    if key in inp.Keys() {
      SteppedAgrees(inp, key, d);
    } else {
      SkippedAgrees(inp, key, d);
    }
    assert RowOf(RowsAt(rule, evals, i + 1), key) == RowAfter(inp, key);
  }

  /** For every rule whose missing data never breaches, every run and every series: the evaluator, which drops ok
      rows, reports the same transitions, opens and resolves at every end as the preview, which keeps them all. */
  lemma PreviewAgrees(rule: Rule, evals: seq<Evaluation>, key: string)
    requires IsRun(evals) && MissingNeverBreaches(rule.cfg)
    ensures DenseEvents(rule.cfg, Ends(evals), ValuesOf(evals, key)) == SparseEvents(rule, evals, key)
  {
    forall i | 0 <= i < |evals|
      ensures DenseEvent(rule.cfg, Ends(evals), ValuesOf(evals, key), i) == SparseEvent(rule, evals, key, i)
    {
      RowsRepresentDense(rule, evals, key, i);
      AgreesAt(rule, evals, key, i);
    }
  }

  // ----- and only then -----

  ghost predicate AlwaysAgrees(rule: Rule) {
    forall evals, key :: IsRun(evals) ==>
        DenseEvents(rule.cfg, Ends(evals), ValuesOf(evals, key)) == SparseEvents(rule, evals, key)
  }

  /** One quiet sample, then silence: an ok series with no row. */
  function QuietThenSilent(cfg: StepConfig): seq<Evaluation> {
    var quiet := if cfg.judge.Breach(Num(cfg.judge.threshold)) then
                   (if cfg.judge.op.Gte? then cfg.judge.threshold - 1.0 else cfg.judge.threshold + 1.0)
                 else cfg.judge.threshold;
    [Evaluation(0, map["s" := Num(quiet)], (k: string) => [], (k: string) => 0),
     Evaluation(1, map[], (k: string) => [], (k: string) => 0)]
  }

  /** When missing data does breach, the preview turns an absent ok series pending or firing and the evaluator,
      which has no row for it, never steps it. */
  lemma MissingBreachDiffers(rule: Rule)
    requires !MissingNeverBreaches(rule.cfg)
    ensures IsRun(QuietThenSilent(rule.cfg))
    ensures var evals := QuietThenSilent(rule.cfg);
            DenseEvent(rule.cfg, Ends(evals), ValuesOf(evals, "s"), 1) != SparseEvent(rule, evals, "s", 1)
  {
    var evals := QuietThenSilent(rule.cfg);
    var quiet := evals[0].samples["s"];
    var ends, vals := Ends(evals), ValuesOf(evals, "s");
    var first := StepInput(0, None, true, quiet);
    QuietFirst(NewSeries(""), first, rule.cfg);
    QuietFirst(NewSeries("s"), first, rule.cfg);
    var inp := InputAt(rule, evals, 0, map[]);
    assert inp.Keys() == {"s"};
    assert Outcome(inp, "s") == Step(NewSeries("s"), first, rule.cfg);
    assert RowOf(RowsAt(rule, evals, 1), "s") == RowAfter(inp, "s") == None by {
      hide Step;
      assert RowsAt(rule, evals, 0) == map[];
    }
    assert SparseEvent(rule, evals, "s", 1) == NOTHING;
    var d := DenseAt(rule.cfg, ends, vals, 1);
    assert d == DenseStep(rule.cfg, Dense(NewSeries(""), false), 0, None, quiet) by {
      assert DenseAt(rule.cfg, ends, vals, 0) == Dense(NewSeries(""), false);
    }
    assert d.seen && Current(d.st.phase).Ok?;
    SilentBreach(d.st, StepInput(1, Some(0), false, NaN), rule.cfg);
  }

  lemma QuietFirst(s: SeriesState, inp: StepInput, cfg: StepConfig)
    requires s == NewSeries(s.key) && inp.present && !cfg.judge.Breach(inp.value)
    ensures var o := Step(s, inp, cfg); !o.open && !o.persist && !o.delete && o.next.phase.Ok?
  {
  }

  lemma SilentBreach(s: SeriesState, inp: StepInput, cfg: StepConfig)
    requires Current(s.phase).Ok? && !inp.present && !MissingNeverBreaches(cfg)
    ensures !Step(s, inp, cfg).transition.Unchanged?
  {
  }

  /** The exact condition under which a preview can be trusted for every series and every run. */
  lemma PreviewAgreesExactly(rule: Rule)
    ensures AlwaysAgrees(rule) <==> MissingNeverBreaches(rule.cfg)
  {
    if MissingNeverBreaches(rule.cfg) {
      forall evals, key | IsRun(evals)
        ensures DenseEvents(rule.cfg, Ends(evals), ValuesOf(evals, key)) == SparseEvents(rule, evals, key)
      {
        PreviewAgrees(rule, evals, key);
      }
    } else {
      MissingBreachDiffers(rule);
      var evals := QuietThenSilent(rule.cfg);
      assert DenseEvents(rule.cfg, Ends(evals), ValuesOf(evals, "s"))[1] != SparseEvents(rule, evals, "s")[1];
    }
  }
}
