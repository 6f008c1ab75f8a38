/** The rule preview (internal/alert/preview.go) keeps every series and steps it at every end; the evaluator keeps
    rows only for series that are not ok or have flapping history. This module says when both tell the same story. */
module Preview {
  import opened Base
  import opened Series

  // ----- the dense run of the preview -----

  datatype Dense = Dense(st: SeriesState, seen: bool)

  /** What the preview and the evaluator report about a series at one end. */
  datatype Event = Event(transition: Transition, open: bool, resolve: Option<Reason>, flapping: bool)

  const NOTHING := Event(Unchanged, false, None, false)

  function EventOf(o: StepOutcome): Event {
    Event(o.transition, o.open, o.resolve, o.flapping)
  }

  function PrevEnd(ends: seq<Time>, i: nat): Option<Time>
    requires i < |ends|
  {
    if i == 0 then None else Some(ends[i - 1])
  }

  function DenseOutcome(cfg: StepConfig, d: Dense, end: Time, prev: Option<Time>, v: Value): StepOutcome {
    Step(d.st, StepInput(end, prev, v.Num?, v), cfg)
  }

  predicate Skipped(d: Dense, v: Value) {
    v.NaN? && !d.seen
  }

  function DenseStep(cfg: StepConfig, d: Dense, end: Time, prev: Option<Time>, v: Value): Dense {
    if Skipped(d, v) then d
    else
      var out := DenseOutcome(cfg, d, end, prev, v);
      var fired := out.next.(incidentId := Some(0), incident := Some(Incident(0, Open, [], false)));
      Dense(if out.open then fired else out.next, true)
  }

  function DenseAt(cfg: StepConfig, ends: seq<Time>, vals: seq<Value>, i: nat): Dense
    requires i <= |ends| == |vals|
  {
    if i == 0 then Dense(NewSeries(""), false)
    else DenseStep(cfg, DenseAt(cfg, ends, vals, i - 1), ends[i - 1], PrevEnd(ends, i - 1), vals[i - 1])
  }

  function DenseEvent(cfg: StepConfig, ends: seq<Time>, vals: seq<Value>, i: nat): Event
    requires i < |ends| == |vals|
  {
    var d := DenseAt(cfg, ends, vals, i);
    if Skipped(d, vals[i]) then NOTHING else EventOf(DenseOutcome(cfg, d, ends[i], PrevEnd(ends, i), vals[i]))
  }

  // ----- the lists a preview returns, from events alone -----

  datatype PreviewTransition = PreviewTransition(at: Time, phase: Phase, value: Value)

  datatype PreviewIncident = PreviewIncident(openedAt: Time, resolvedAt: Option<Time>, peak: Value)

  function PhaseAfter(t: Transition): Phase {
    match t
    case ToPending => Pending
    case ToFiring => Firing
    case _ => Ok
  }

  function TransitionsOf(evs: seq<Event>, ends: seq<Time>, vals: seq<Value>): seq<PreviewTransition>
    requires |evs| == |ends| == |vals|
  {
    if evs == [] then []
    else
      var n := |evs| - 1;
      var last := PreviewTransition(ends[n], PhaseAfter(evs[n].transition), vals[n]);
      TransitionsOf(evs[..n], ends[..n], vals[..n]) + if evs[n].transition.Unchanged? then [] else [last]
  }

  predicate Worse(op: Operator, v: real, cur: real) {
    if op.Lt? || op.Lte? then v < cur else v > cur
  }

  predicate HasOpen(incs: seq<PreviewIncident>) {
    incs != [] && incs[|incs| - 1].resolvedAt.None?
  }

  function Amend(incs: seq<PreviewIncident>, e: Event, end: Time, v: Value, op: Operator): seq<PreviewIncident> {
    var n := |incs| - 1;
    if e.open then incs + [PreviewIncident(end, None, v)]
    else if !HasOpen(incs) then incs
    else if e.resolve.Some? then incs[n := incs[n].(resolvedAt := Some(end))]
    else if v.Num? && (incs[n].peak.NaN? || Worse(op, v.x, incs[n].peak.x)) then incs[n := incs[n].(peak := v)]
    else incs
  }

  function IncidentsOf(evs: seq<Event>, ends: seq<Time>, vals: seq<Value>, op: Operator): seq<PreviewIncident>
    requires |evs| == |ends| == |vals|
  {
    if evs == [] then []
    else
      var n := |evs| - 1;
      Amend(IncidentsOf(evs[..n], ends[..n], vals[..n], op), evs[n], ends[n], vals[n], op)
  }

  function DenseEvents(cfg: StepConfig, ends: seq<Time>, vals: seq<Value>): (evs: seq<Event>)
    requires |ends| == |vals|
    ensures |evs| == |ends| && forall i :: 0 <= i < |ends| ==> evs[i] == DenseEvent(cfg, ends, vals, i)
  {
    seq(|ends|, i requires 0 <= i < |ends| => DenseEvent(cfg, ends, vals, i))
  }

  lemma PhaseChangeIsTransition(s: SeriesState, inp: StepInput, cfg: StepConfig)
    ensures var o := Step(s, inp, cfg);
            (Current(o.next.phase) != Current(s.phase) || o.resolve.Some?) <==> !o.transition.Unchanged?
    ensures var o := Step(s, inp, cfg);
            !o.transition.Unchanged? ==> Current(o.next.phase) == PhaseAfter(o.transition)
  {
  }

  lemma AmendNothing(incs: seq<PreviewIncident>, end: Time, op: Operator)
    ensures Amend(incs, NOTHING, end, NaN, op) == incs
  {
  }

  method AmendIncidents(incs: seq<PreviewIncident>, wasOpen: bool, out: StepOutcome, end: Time, v: Value, op: Operator)
    returns (incidents: seq<PreviewIncident>, open: bool)
    requires wasOpen == HasOpen(incs)
    ensures incidents == Amend(incs, EventOf(out), end, v, op) && open == HasOpen(incidents)
  {
    incidents, open := incs, wasOpen;
    if out.open {
      incidents := incidents + [PreviewIncident(end, None, v)];
      open := true;
    } else if out.resolve.Some? && open {
      incidents := incidents[|incidents| - 1 := incidents[|incidents| - 1].(resolvedAt := Some(end))];
      open := false;
    } else if open && v.Num? {
      var cur := incidents[|incidents| - 1];
      if cur.peak.NaN? || Worse(op, v.x, cur.peak.x) {
        incidents := incidents[|incidents| - 1 := cur.(peak := v)];
      }
    }
  }

  lemma EventsAppend(evs: seq<Event>, ends: seq<Time>, vals: seq<Value>, op: Operator, i: nat)
    requires |evs| == |ends| == |vals| && i < |evs|
    ensures TransitionsOf(evs[..i + 1], ends[..i + 1], vals[..i + 1]) ==
            TransitionsOf(evs[..i], ends[..i], vals[..i])
            + if evs[i].transition.Unchanged? then []
              else [PreviewTransition(ends[i], PhaseAfter(evs[i].transition), vals[i])]
    ensures IncidentsOf(evs[..i + 1], ends[..i + 1], vals[..i + 1], op) ==
            Amend(IncidentsOf(evs[..i], ends[..i], vals[..i], op), evs[i], ends[i], vals[i], op)
  {
    hide Amend;
    assert evs[..i + 1][..i] == evs[..i] && ends[..i + 1][..i] == ends[..i] && vals[..i + 1][..i] == vals[..i];
  }

  method Simulate(cfg: StepConfig, ends: seq<Time>, vals: seq<Value>)
    returns (transitions: seq<PreviewTransition>, incidents: seq<PreviewIncident>)
    requires |ends| == |vals|
    ensures transitions == TransitionsOf(DenseEvents(cfg, ends, vals), ends, vals)
    ensures incidents == IncidentsOf(DenseEvents(cfg, ends, vals), ends, vals, cfg.judge.op)
  {
    transitions, incidents := [], [];
    var st, prevEnd, open, seen := NewSeries(""), None, false, false;
    ghost var evs := DenseEvents(cfg, ends, vals);
    assert TransitionsOf([], [], []) == [] && IncidentsOf([], [], [], cfg.judge.op) == [];
    hide Step, Amend, TransitionsOf, IncidentsOf;
    for i := 0 to |ends|
      invariant Dense(st, seen) == DenseAt(cfg, ends, vals, i)
      invariant prevEnd == if i == 0 then None else Some(ends[i - 1])
      invariant open == HasOpen(incidents)
      invariant transitions == TransitionsOf(evs[..i], ends[..i], vals[..i])
      invariant incidents == IncidentsOf(evs[..i], ends[..i], vals[..i], cfg.judge.op)
    {
      var e, v := ends[i], vals[i];
      EventsAppend(evs, ends, vals, cfg.judge.op, i);
      if v.NaN? && !seen {
        AmendNothing(incidents, e, cfg.judge.op);
        prevEnd := Some(e);
        continue;
      }
      seen := seen || v.Num?;
      var before := Current(st.phase);
      var inp := StepInput(e, prevEnd, v.Num?, v);
      var out := RunStep(st, inp, cfg);
      PhaseChangeIsTransition(st, inp, cfg);
      assert evs[i] == EventOf(out);
      st := out.next;
      prevEnd := Some(e);
      if out.open {
        st := st.(incidentId := Some(0), incident := Some(Incident(0, Open, [], false)));
      }
      var after := Current(st.phase);
      if after != before || out.resolve.Some? {
        transitions := transitions + [PreviewTransition(e, after, v)];
      }
      incidents, open := AmendIncidents(incidents, open, out, e, v, cfg.judge.op);
    }
    assert evs[..|ends|] == evs && ends[..|ends|] == ends && vals[..|ends|] == vals;
  }
}
