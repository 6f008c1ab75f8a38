/** The state machine of one alert series: ok, pending, firing, with for-timers, hysteresis,
    flapping holds and missing-data modes (internal/alert/state.go, internal/alert/ruletype.go). */
module Series {
  import opened Base

  datatype Operator = Gt | Gte | Lt | Lte | Unknown

  function Compare(op: Operator, v: real, t: real): bool {
    match op
    case Gt => v > t
    case Gte => v >= t
    case Lt => v < t
    case Lte => v <= t
    case Unknown => false
  }

  predicate Upward(op: Operator) {
    op.Gt? || op.Gte?
  }

  datatype Judge = Judge(op: Operator, threshold: real, recovery: real) {
    predicate Breach(v: Value) {
      v.Num? && Compare(op, v.x, threshold)
    }

    predicate Recovered(v: Value) {
      v.Num? && !Compare(op, v.x, recovery)
    }
  }

  /** Accepts a threshold and an optional recovery threshold. Accepted judges never call one value both
      breaching and recovered, and without a recovery threshold there is no hysteresis band. */
  function ValidateThreshold(op: Operator, threshold: Option<real>, recovery: Option<real>): (r: Option<Judge>)
    ensures r.Some? ==> forall v: Value :: !(r.value.Breach(v) && r.value.Recovered(v))
    ensures r.Some? && recovery.None? ==> forall v: Value :: v.Num? ==> r.value.Breach(v) || r.value.Recovered(v)
    ensures r.None? <==>
            || op.Unknown? || threshold.None?
            || (recovery.Some? && Upward(op) && recovery.value > threshold.value)
            || (recovery.Some? && !Upward(op) && recovery.value < threshold.value)
    ensures r.Some? ==> forall x: real ::
              r.value.Breach(Num(x)) <==>
              ((x == threshold.value && (op.Gte? || op.Lte?))
               || (x != threshold.value && Upward(op) == (x > threshold.value)))
    ensures r.Some? ==> forall x: real ::
              var back := if recovery.Some? then recovery.value else threshold.value;
              r.value.Recovered(Num(x)) <==>
              ((x == back && (op.Gt? || op.Lt?)) || (x != back && Upward(op) == (x < back)))
    ensures r.Some? && recovery.Some? && Some(recovery.value) != threshold ==>
              exists v: Value :: v.Num? && !r.value.Breach(v) && !r.value.Recovered(v)
  {
    if op.Unknown? || threshold.None? then None
    else
      var j := Judge(op, threshold.value, if recovery.Some? then recovery.value else threshold.value);
      if recovery.Some? && (op.Gt? || op.Gte?) && recovery.value > threshold.value then None
      else if recovery.Some? && (op.Lt? || op.Lte?) && recovery.value < threshold.value then None
      else
        var mid := Num((j.threshold + j.recovery) / 2.0);
        assert recovery.Some? && recovery.value != threshold.value ==> !j.Breach(mid) && !j.Recovered(mid);
        Some(j)
  }

  /** `Blank` is the zero value of a series without a row; it counts as ok. */
  datatype Phase = Blank | Ok | Pending | Firing

  datatype Missing = Keep | AsOk | AsBreach | AsZero | Expire

  datatype Reason = Recovered | NoData | Expired | RuleChanged | RuleDisabled | RuleDeleted | Manual

  datatype Flapping = Flapping(enabled: bool, transitions: int, windowSeconds: int, holdSeconds: int)

  const DEFAULT_WINDOW_SECONDS := 3600
  const MAX_TRANSITIONS := 10

  datatype IncidentState = Open | Acknowledged | Resolved

  /** The part of an incident the evaluator reads back with a series row. */
  datatype Incident = Incident(id: nat, state: IncidentState, channels: seq<string>, flapping: bool)

  datatype SeriesState = SeriesState(
    key: string,
    phase: Phase,
    pendingSince: Option<Time>,
    firingSince: Option<Time>,
    recoveringSince: Option<Time>,
    lastValue: Value,
    lastSeenAt: Option<Time>,
    incidentId: Option<nat>,
    transitions: seq<Time>,
    lastNotifiedAt: Option<Time>,
    renotifyCount: nat,
    incident: Option<Incident>
  )

  function NewSeries(key: string): SeriesState {
    SeriesState(key, Blank, None, None, None, NaN, None, None, [], None, 0, None)
  }

  function Current(p: Phase): Phase {
    if p.Blank? then Ok else p
  }

  datatype StepConfig = StepConfig(
    judge: Judge,
    pendingFor: int,
    recoveryFor: int,
    interval: int,
    delay: int,
    flapping: Flapping,
    missing: Missing,
    expireAfter: int
  )

  datatype StepInput = StepInput(end: Time, prevEvalEnd: Option<Time>, present: bool, value: Value)

  datatype Transition = Unchanged | ToPending | ToFiring | ToOk | ToResolved

  datatype StepOutcome = StepOutcome(
    next: SeriesState,
    transition: Transition,
    open: bool,
    resolve: Option<Reason>,
    flapping: bool,
    persist: bool,
    delete: bool
  )

  // ----- flapping history -----

  function FlappingWindow(f: Flapping): int {
    if f.windowSeconds * SECOND <= 0 then DEFAULT_WINDOW_SECONDS * SECOND else f.windowSeconds * SECOND
  }

  /** The entries of `ts` that are at most a window old at `end`, in order. */
  function Prune(ts: seq<Time>, end: Time, f: Flapping): seq<Time> {
    if ts == [] then []
    else if end - ts[0] <= FlappingWindow(f) then [ts[0]] + Prune(ts[1..], end, f)
    else Prune(ts[1..], end, f)
  }

  function Capped(ts: seq<Time>): seq<Time> {
    if |ts| > MAX_TRANSITIONS then ts[|ts| - MAX_TRANSITIONS..] else ts
  }

  predicate IsFlapping(ts: seq<Time>, end: Time, f: Flapping) {
    f.enabled && f.transitions > 0 && |Prune(ts, end, f)| >= f.transitions
  }

  lemma {:induction false} PruneConcat(a: seq<Time>, b: seq<Time>, end: Time, f: Flapping)
    ensures Prune(a + b, end, f) == Prune(a, end, f) + Prune(b, end, f)
  {
    if a == [] {
      assert a + b == b;
    } else {
      assert (a + b)[1..] == a[1..] + b;
      PruneConcat(a[1..], b, end, f);
    }
  }

  /** Pruning earlier does not change what a later prune keeps. */
  lemma {:induction false} PruneTwice(ts: seq<Time>, e1: Time, e2: Time, f: Flapping)
    requires e1 <= e2
    ensures Prune(Prune(ts, e1, f), e2, f) == Prune(ts, e2, f)
  {
    if ts != [] {
      PruneTwice(ts[1..], e1, e2, f);
    }
  }

  method PruneTransitions(ts: seq<Time>, end: Time, f: Flapping) returns (out: seq<Time>)
    ensures out == Prune(ts, end, f)
    ensures forall t :: t in out <==> t in ts && end - t <= FlappingWindow(f)
  {
    var window := f.windowSeconds * SECOND;
    if window <= 0 {
      window := DEFAULT_WINDOW_SECONDS * SECOND;
    }
    out := [];
    for i := 0 to |ts|
      invariant out == Prune(ts[..i], end, f)
      invariant forall t :: t in out <==> t in ts[..i] && end - t <= window
    {
      assert ts[..i + 1] == ts[..i] + [ts[i]];
      PruneConcat(ts[..i], [ts[i]], end, f);
      if end - ts[i] <= window {
        out := out + [ts[i]];
      }
    }
    assert ts[..|ts|] == ts;
  }

  // ----- one step -----

  function ResetToOk(s: SeriesState): SeriesState {
    s.(phase := Ok, pendingSince := None, firingSince := None, recoveringSince := None,
    incidentId := None, incident := None, lastNotifiedAt := None, renotifyCount := 0)
  }

  predicate Gap(prev: Option<Time>, end: Time, cfg: StepConfig) {
    prev.Some? && end - prev.value > 2 * cfg.interval + cfg.delay
  }

  /** The state an evaluation starts from: history pruned, and a pending timer restarted after a gap. */
  function Prepared(prev: SeriesState, inp: StepInput, cfg: StepConfig): SeriesState {
    var s := prev.(phase := Current(prev.phase), transitions := Prune(prev.transitions, inp.end, cfg.flapping));
    if s.phase.Pending? && Gap(inp.prevEvalEnd, inp.end, cfg) then s.(pendingSince := Some(inp.end)) else s
  }

  /** What one evaluation says about the series. */
  datatype Reading = Kept | Judged(breach: bool, recovered: bool, missing: Option<Reason>)

  predicate HasExpired(s: SeriesState, end: Time, cfg: StepConfig) {
    !s.phase.Ok? && s.lastSeenAt.Some? && cfg.expireAfter > 0 && end - s.lastSeenAt.value > cfg.expireAfter
  }

  function Read(s: SeriesState, inp: StepInput, cfg: StepConfig): Reading {
    if inp.present then Judged(cfg.judge.Breach(inp.value), cfg.judge.Recovered(inp.value), None)
    else match cfg.missing
      case AsBreach => Judged(true, false, None)
      case AsZero => Judged(cfg.judge.Breach(Num(0.0)), cfg.judge.Recovered(Num(0.0)), None)
      case AsOk => Judged(false, true, Some(NoData))
      case Expire => Judged(false, true, Some(Expired))
      case Keep => if HasExpired(s, inp.end, cfg) then Judged(false, true, Some(Expired)) else Kept
  }

  function Seen(s: SeriesState, inp: StepInput, cfg: StepConfig): SeriesState {
    if inp.present then s.(lastValue := inp.value, lastSeenAt := Some(inp.end))
    else if cfg.missing.AsZero? then s.(lastValue := Num(0.0), lastSeenAt := Some(inp.end))
    else s
  }

  function Fired(s: SeriesState, end: Time): SeriesState {
    s.(phase := Firing, firingSince := Some(end), pendingSince := None, recoveringSince := None,
    transitions := Capped(s.transitions + [end]), lastNotifiedAt := Some(end), renotifyCount := 0)
  }

  /** The recovery hold: extended while flapping, none when the data is missing. */
  function Hold(s: SeriesState, end: Time, missing: Option<Reason>, cfg: StepConfig): int {
    if missing.Some? then 0
    else if HoldExtended(s, end, missing, cfg) then cfg.flapping.holdSeconds * SECOND
    else cfg.recoveryFor
  }

  predicate HoldExtended(s: SeriesState, end: Time, missing: Option<Reason>, cfg: StepConfig) {
    missing.None? && IsFlapping(s.transitions, end, cfg.flapping) && cfg.flapping.holdSeconds * SECOND > cfg.recoveryFor
  }

  /** The phase change of a judged evaluation. */
  datatype Movement = Movement(next: SeriesState, transition: Transition, resolve: Option<Reason>, extended: bool)

  function Moved(s: SeriesState, end: Time, r: Reading, cfg: StepConfig): Movement
    requires r.Judged?
  {
    match s.phase
    case Pending => MovedPending(s, end, r, cfg)
    case Firing => MovedFiring(s, end, r, cfg)
    case Ok => MovedOk(s, end, r, cfg)
    case Blank => MovedOk(s, end, r, cfg)
  }

  function MovedOk(s: SeriesState, end: Time, r: Reading, cfg: StepConfig): Movement
    requires r.Judged?
  {
    if !r.breach then Movement(s, Unchanged, None, false)
    else if cfg.pendingFor <= 0 then Movement(Fired(s, end), ToFiring, None, false)
    else Movement(s.(phase := Pending, pendingSince := Some(end)), ToPending, None, false)
  }

  function MovedPending(s: SeriesState, end: Time, r: Reading, cfg: StepConfig): Movement
    requires r.Judged?
  {
    if !r.breach then Movement(s.(phase := Ok, pendingSince := None), ToOk, None, false)
    else if Elapsed(end, s.pendingSince) >= cfg.pendingFor then Movement(Fired(s, end), ToFiring, None, false)
    else Movement(s, Unchanged, None, false)
  }

  function MovedFiring(s: SeriesState, end: Time, r: Reading, cfg: StepConfig): Movement
    requires r.Judged?
  {
    if r.breach || !r.recovered then Movement(s.(recoveringSince := None), Unchanged, None, false)
    else
      var s' := if s.recoveringSince.None? then s.(recoveringSince := Some(end)) else s;
      var extended := HoldExtended(s, end, r.missing, cfg);
      if Elapsed(end, s'.recoveringSince) >= Hold(s, end, r.missing, cfg)
      then Movement(ResetToOk(s'), ToResolved, Some(if r.missing.Some? then r.missing.value else Recovered), extended)
      else Movement(s', Unchanged, None, extended)
  }

  function Step(prev: SeriesState, inp: StepInput, cfg: StepConfig): StepOutcome {
    var s := Seen(Prepared(prev, inp, cfg), inp, cfg);
    var r := Read(Prepared(prev, inp, cfg), inp, cfg);
    if r.Kept? then StepOutcome(s, Unchanged, false, None, false, !s.phase.Ok?, false)
    else
      var m := Moved(s, inp.end, r, cfg);
      var next := if cfg.flapping.enabled then m.next else m.next.(transitions := []);
      var persist := !next.phase.Ok? || next.transitions != [];
      StepOutcome(next, m.transition, m.transition.ToFiring?, m.resolve, m.extended, persist,
                  !persist && (!prev.phase.Blank? || prev.incidentId.Some?))
  }

  /** Reads one evaluation into the working copy, as the switch over missing-data modes does. */
  method Observe(s: SeriesState, inp: StepInput, cfg: StepConfig) returns (seen: SeriesState, r: Reading)
    ensures seen == Seen(s, inp, cfg) && r == Read(s, inp, cfg)
  {
    seen := s;
    var breach, recovered := false, false;
    var missing: Option<Reason> := None;
    if inp.present {
      seen := s.(lastValue := inp.value, lastSeenAt := Some(inp.end));
      breach, recovered := cfg.judge.Breach(inp.value), cfg.judge.Recovered(inp.value);
    } else {
      match cfg.missing
      case AsBreach =>
        breach := true;
      case AsZero =>
        seen := s.(lastValue := Num(0.0), lastSeenAt := Some(inp.end));
        breach, recovered := cfg.judge.Breach(Num(0.0)), cfg.judge.Recovered(Num(0.0));
      case AsOk =>
        recovered, missing := true, Some(NoData);
      case Expire =>
        recovered, missing := true, Some(Expired);
      case Keep =>
        if !s.phase.Ok? && s.lastSeenAt.Some? && cfg.expireAfter > 0 && inp.end - s.lastSeenAt.value > cfg.expireAfter {
          recovered, missing := true, Some(Expired);
        } else {
          return seen, Kept;
        }
    }
    r := Judged(breach, recovered, missing);
  }

  /** The recovery branch of a firing series. */
  method Recover(s0: SeriesState, end: Time, missing: Option<Reason>, cfg: StepConfig)
    returns (s: SeriesState, resolve: Option<Reason>, extended: bool)
    requires s0.phase.Firing?
    ensures Movement(s, if resolve.Some? then ToResolved else Unchanged, resolve, extended) ==
        MovedFiring(s0, end, Judged(false, true, missing), cfg)
  {
    s, resolve, extended := s0, None, false;
    var hold := cfg.recoveryFor;
    var recent := PruneTransitions(s.transitions, end, cfg.flapping);
    if missing.None? && cfg.flapping.enabled && cfg.flapping.transitions > 0
       && |recent| >= cfg.flapping.transitions && cfg.flapping.holdSeconds * SECOND > hold {
      hold := cfg.flapping.holdSeconds * SECOND;
      extended := true;
    }
    if missing.Some? {
      hold := 0;
    }
    if s.recoveringSince.None? {
      s := s.(recoveringSince := Some(end));
    }
    if Elapsed(end, s.recoveringSince) >= hold {
      s := ResetToOk(s);
      resolve := Some(if missing.Some? then missing.value else Recovered);
    }
  }

  method Fire(s0: SeriesState, end: Time) returns (s: SeriesState)
    ensures s == Fired(s0, end)
  {
    s := s0.(phase := Firing, firingSince := Some(end), pendingSince := None, recoveringSince := None,
    transitions := s0.transitions + [end]);
    if |s.transitions| > MAX_TRANSITIONS {
      s := s.(transitions := s.transitions[|s.transitions| - MAX_TRANSITIONS..]);
    }
    s := s.(lastNotifiedAt := Some(end), renotifyCount := 0);
  }

  /** The switch over the current phase. */
  method Move(s0: SeriesState, end: Time, r: Reading, cfg: StepConfig)
    returns (s: SeriesState, transition: Transition, resolve: Option<Reason>, extended: bool)
    requires r.Judged?
    ensures Movement(s, transition, resolve, extended) == Moved(s0, end, r, cfg)
  {
    s, transition, resolve, extended := s0, Unchanged, None, false;
    match s.phase {
      case Pending =>
        if r.breach && Elapsed(end, s.pendingSince) >= cfg.pendingFor {
          s := Fire(s, end);
          transition := ToFiring;
        } else if !r.breach {
          s := s.(phase := Ok, pendingSince := None);
          transition := ToOk;
        }
      case Firing =>
        if !r.breach && r.recovered {
          s, resolve, extended := Recover(s, end, r.missing, cfg);
          if resolve.Some? {
            transition := ToResolved;
          }
        } else {
          s := s.(recoveringSince := None);
        }
      case _ =>
        if r.breach {
          if cfg.pendingFor <= 0 {
            s := Fire(s, end);
            transition := ToFiring;
          } else {
            s := s.(phase := Pending, pendingSince := Some(end));
            transition := ToPending;
          }
        }
    }
  }

  /** The step as the evaluator runs it, editing a local copy branch by branch. */
  method RunStep(prev: SeriesState, inp: StepInput, cfg: StepConfig) returns (out: StepOutcome)
    ensures out == Step(prev, inp, cfg)
  {
    var end := inp.end;
    var kept := PruneTransitions(prev.transitions, end, cfg.flapping);
    var s := prev.(phase := Current(prev.phase), transitions := kept);
    if s.phase.Pending? && inp.prevEvalEnd.Some? && end - inp.prevEvalEnd.value > 2 * cfg.interval + cfg.delay {
      s := s.(pendingSince := Some(end));
    }
    assert s == Prepared(prev, inp, cfg);
    var r;
    s, r := Observe(s, inp, cfg);
    if r.Kept? {
      return StepOutcome(s, Unchanged, false, None, false, !s.phase.Ok?, false);
    }

    var transition, resolve, extended;
    s, transition, resolve, extended := Move(s, end, r, cfg);
    if !cfg.flapping.enabled {
      s := s.(transitions := []);
    }
    out := StepOutcome(s, transition, transition.ToFiring?, resolve, extended, false, false);
    if !s.phase.Ok? || |s.transitions| > 0 {
      out := out.(persist := true);
    } else {
      out := out.(delete := !prev.phase.Blank? || prev.incidentId.Some?);
    }
  }

  // ----- what a step does to timers and to the incident -----

  /** Timers run only in the phase they belong to. */
  predicate Tidy(s: SeriesState) {
    && (Current(s.phase).Ok? ==> s.pendingSince.None?)
    && (!s.phase.Firing? ==> s.recoveringSince.None?)
  }

  lemma MovedIncident(s: SeriesState, end: Time, r: Reading, cfg: StepConfig)
    requires r.Judged?
    ensures var m := Moved(s, end, r, cfg);
            && (m.resolve.None? ==> m.next.incidentId == s.incidentId && m.next.incident == s.incident)
            && (m.resolve.Some? ==> m.next.incidentId.None? && m.next.phase.Ok? && m.transition.ToResolved?)
            && (m.next.phase.Firing? && !m.transition.ToFiring? ==> s.phase.Firing?)
            && (m.transition.ToFiring? ==> m.next.phase.Firing? && m.resolve.None? && !s.phase.Firing?)
            && (s.phase.Firing? && m.resolve.None? ==> m.next.phase.Firing?)
            && (Tidy(s) ==> Tidy(m.next))
  {
  }

  /** A step leaves the incident of a series alone, or forgets it when the series resolves. */
  lemma IncidentStep(s: SeriesState, inp: StepInput, cfg: StepConfig)
    ensures var o := Step(s, inp, cfg);
            && (o.resolve.None? ==> o.next.incidentId == s.incidentId && o.next.incident == s.incident)
            && (o.resolve.Some? ==> o.next.incidentId.None? && o.next.phase.Ok?)
            && (o.next.phase.Firing? && !o.open ==> s.phase.Firing?)
            && (o.open ==> o.next.phase.Firing? && o.persist && o.resolve.None? && !s.phase.Firing?)
            && (s.phase.Firing? && o.resolve.None? ==> o.next.phase.Firing? && o.persist)
            && (Tidy(s) ==> Tidy(o.next))
  {
    hide Moved;
    var x := Seen(Prepared(s, inp, cfg), inp, cfg);
    var r := Read(Prepared(s, inp, cfg), inp, cfg);
    if r.Judged? {
      MovedIncident(x, inp.end, r, cfg);
    }
  }
}
