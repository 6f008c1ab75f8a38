/** One evaluation of a rule: the state machine run for every series and the atomic change set it yields
    (internal/alert/plan.go). The lists of the change set are kept per series: a series adds at most one row
    write or removal, one incident opened or resolved and its notifications. */
module Plan {
  import opened Base
  import opened Series

  datatype Kind = KindOpened | KindAcknowledged | KindRenotify | KindResolved | KindTest

  datatype Notification = Notification(incident: nat, kind: Kind, number: nat, channel: string)

  datatype ChannelRef = ChannelRef(id: string, enabled: bool)

  datatype Resolve = Resolve(id: nat, reason: Reason, at: Time)

  /** `targets` is the routing decision per series and `newIds` the incident id drawn for it. */
  datatype PlanInput = PlanInput(
    cfg: StepConfig,
    renotifyInterval: int,
    channels: seq<ChannelRef>,
    states: map<string, SeriesState>,
    samples: map<string, Value>,
    prevEvalEnd: Option<Time>,
    end: Time,
    targets: string -> seq<string>,
    newIds: string -> nat
  ) {
    function Keys(): set<string> {
      samples.Keys + states.Keys
    }
  }

  // ----- one series -----

  /** The row a series steps from: an incident resolved or removed elsewhere starts it over. */
  function Previous(inp: PlanInput, key: string): SeriesState {
    if key !in inp.states then NewSeries(key)
    else
      var s := inp.states[key];
      var lost := s.incidentId.Some? && (s.incident.None? || s.incident.value.state.Resolved?);
      (if lost then ResetToOk(s) else s).(key := key)
  }

  function InputFor(inp: PlanInput, key: string): StepInput {
    StepInput(inp.end, inp.prevEvalEnd, key in inp.samples, if key in inp.samples then inp.samples[key] else NaN)
  }

  function Outcome(inp: PlanInput, key: string): StepOutcome {
    Step(Previous(inp, key), InputFor(inp, key), inp.cfg)
  }

  function Opened(inp: PlanInput, key: string): Incident
  {
    Incident(inp.newIds(key), Open, inp.targets(key), false)
  }

  predicate Resolving(inp: PlanInput, key: string) {
    !Outcome(inp, key).open && Outcome(inp, key).resolve.Some? && Previous(inp, key).incidentId.Some?
  }

  /** A series that stays firing with a loaded incident. */
  predicate StaysFiring(inp: PlanInput, key: string) {
    && !Outcome(inp, key).open && !Resolving(inp, key)
    && Outcome(inp, key).next.phase.Firing? && Outcome(inp, key).next.incident.Some?
  }

  predicate NewlyFlapping(inp: PlanInput, key: string) {
    StaysFiring(inp, key) && Outcome(inp, key).flapping && !Outcome(inp, key).next.incident.value.flapping
  }

  predicate Renotifies(inp: PlanInput, key: string) {
    && StaysFiring(inp, key)
    && inp.renotifyInterval > 0
    && Outcome(inp, key).next.incident.value.state.Open?
    && Elapsed(inp.end, Outcome(inp, key).next.lastNotifiedAt) >= inp.renotifyInterval
  }

  /** The row to write when the series is persisted. */
  function NextRow(inp: PlanInput, key: string): SeriesState
  {
    var next := Outcome(inp, key).next;
    if Outcome(inp, key).open then next.(incidentId := Some(inp.newIds(key)), incident := Some(Opened(inp, key)))
    else
      var flapped :=
        if NewlyFlapping(inp, key) then next.(incident := Some(next.incident.value.(flapping := true))) else next;
      if Renotifies(inp, key) then flapped.(renotifyCount := next.renotifyCount + 1, lastNotifiedAt := Some(inp.end))
      else flapped
  }

  function Notices(id: nat, kind: Kind, number: nat, channels: seq<string>): seq<Notification> {
    if channels == [] then []
    else [Notification(id, kind, number, channels[0])] + Notices(id, kind, number, channels[1..])
  }

  predicate IsChannel(channels: seq<ChannelRef>, id: string) {
    id != "" && exists c :: c in channels && c.id == id
  }

  /** The incident's channels that are still channels of the rule. */
  function Known(channels: seq<ChannelRef>, ids: seq<string>): seq<string> {
    if ids == [] then []
    else (if IsChannel(channels, ids[0]) then [ids[0]] else []) + Known(channels, ids[1..])
  }

  function NoticesFor(inp: PlanInput, key: string): seq<Notification>
  {
    var out := Outcome(inp, key);
    if out.open then Notices(inp.newIds(key), KindOpened, 0, inp.targets(key))
    else if Resolving(inp, key) then
      var prev := Previous(inp, key);
      if prev.incident.Some? then Notices(prev.incidentId.value, KindResolved, 0, prev.incident.value.channels) else []
    else if Renotifies(inp, key) then
      Notices(out.next.incident.value.id, KindRenotify, out.next.renotifyCount + 1,
              Known(inp.channels, out.next.incident.value.channels))
    else []
  }

  /** Everything one series contributes to the change set. */
  datatype Effect = Effect(
    write: Option<SeriesState>,
    remove: bool,
    opens: Option<Incident>,
    resolves: Option<Resolve>,
    flapping: Option<nat>,
    notices: seq<Notification>
  )

  function EffectOf(inp: PlanInput, key: string): Effect
  {
    var prev, out := Previous(inp, key), Outcome(inp, key);
    Effect(
      if out.persist then Some(NextRow(inp, key)) else None,
      !out.persist && out.delete && key in inp.states,
      if out.open then Some(Opened(inp, key)) else None,
      if Resolving(inp, key) then Some(Resolve(prev.incidentId.value, out.resolve.value, inp.end)) else None,
      if NewlyFlapping(inp, key) then Some(out.next.incident.value.id) else None,
      NoticesFor(inp, key)
    )
  }

  /** The change set of one evaluation: what it does to each series it steps. */
  type Plan = map<string, Effect>

  function PlanOf(inp: PlanInput): Plan
  {
    map k | k in inp.Keys() :: EffectOf(inp, k)
  }

  method NoticesLoop(id: nat, kind: Kind, number: nat, channels: seq<string>) returns (ns: seq<Notification>)
    ensures ns == Notices(id, kind, number, channels)
    ensures |ns| == |channels| && forall i :: 0 <= i < |ns| ==> ns[i] == Notification(id, kind, number, channels[i])
  {
    ns := [];
    var i := |channels|;
    while i > 0
      invariant 0 <= i <= |channels|
      invariant ns == Notices(id, kind, number, channels[i..])
      invariant |ns| == |channels| - i && forall j :: 0 <= j < |ns| ==>
          ns[j] == Notification(id, kind, number, channels[i + j])
    {
      i := i - 1;
      assert channels[i..][1..] == channels[i + 1..];
      ns := [Notification(id, kind, number, channels[i])] + ns;
    }
    assert channels[0..] == channels;
  }

  method RenotifyLoop(id: nat, number: nat, channels: seq<ChannelRef>, ids: seq<string>) returns (ns: seq<Notification>)
    ensures ns == Notices(id, KindRenotify, number, Known(channels, ids))
  {
    ns := [];
    var i := |ids|;
    while i > 0
      invariant 0 <= i <= |ids|
      invariant ns == Notices(id, KindRenotify, number, Known(channels, ids[i..]))
    {
      i := i - 1;
      assert ids[i..][1..] == ids[i + 1..];
      ghost var rest := Known(channels, ids[i + 1..]);
      if IsChannel(channels, ids[i]) {
        ns := [Notification(id, KindRenotify, number, ids[i])] + ns;
        assert ([ids[i]] + rest)[1..] == rest;
      } else {
        assert [] + rest == rest;
      }
    }
    assert ids[0..] == ids;
  }

  /** One pass over the keys, stepping every series that is stored or has a sample, and no other. */
  method BuildPlan(inp: PlanInput) returns (p: Plan)
    ensures p == PlanOf(inp) && p.Keys == inp.samples.Keys + inp.states.Keys
  {
    hide EffectOf;
    p := map[];
    var rest := inp.Keys();
    while rest != {}
      invariant p.Keys + rest == inp.Keys() && p.Keys !! rest
      invariant forall k :: k in p ==> p[k] == EffectOf(inp, k)
      decreases rest
    {
      var key :| key in rest;
      var e := SeriesEffect(inp, key);
      p := p[key := e];
      rest := rest - {key};
    }
  }

  method SeriesEffect(inp: PlanInput, key: string) returns (e: Effect)
    requires key in inp.Keys()
    ensures e == EffectOf(inp, key)
  {
    var known := key in inp.states;
    var prev := if known then inp.states[key] else NewSeries(key);
    if known && prev.incidentId.Some? && (prev.incident.None? || prev.incident.value.state.Resolved?) {
      prev := ResetToOk(prev);
    }
    prev := prev.(key := key);
    var present := key in inp.samples;
    var value := if present then inp.samples[key] else NaN;
    var out := RunStep(prev, StepInput(inp.end, inp.prevEvalEnd, present, value), inp.cfg);
    assert prev == Previous(inp, key) && out == Outcome(inp, key);
    var next, opens, resolves, flapping, ns := Derive(inp, key, prev, out);
    var write := if out.persist then Some(next) else None;
    e := Effect(write, !out.persist && out.delete && known, opens, resolves, flapping, ns);
  }

  /** The switch that turns one outcome into incident changes and notifications. */
  method Derive(inp: PlanInput, key: string, prev: SeriesState, out: StepOutcome)
    returns (next: SeriesState, opens: Option<Incident>, resolves: Option<Resolve>, flapping: Option<nat>,
        ns: seq<Notification>)
    requires key in inp.Keys() && prev == Previous(inp, key) && out == Outcome(inp, key)
    ensures next == NextRow(inp, key) && ns == NoticesFor(inp, key)
    ensures opens == if out.open then Some(Opened(inp, key)) else None
    ensures resolves ==
            if Resolving(inp, key) then Some(Resolve(prev.incidentId.value, out.resolve.value, inp.end)) else None
    ensures flapping == if NewlyFlapping(inp, key) then Some(out.next.incident.value.id) else None
  {
    next, opens, resolves, flapping, ns := out.next, None, None, None, [];
    if out.open {
      var inc := Incident(inp.newIds(key), Open, inp.targets(key), false);
      opens := Some(inc);
      next := next.(incidentId := Some(inc.id), incident := Some(inc));
      ns := NoticesLoop(inc.id, KindOpened, 0, inp.targets(key));
    } else if out.resolve.Some? && prev.incidentId.Some? {
      resolves := Some(Resolve(prev.incidentId.value, out.resolve.value, inp.end));
      if prev.incident.Some? {
        ns := NoticesLoop(prev.incidentId.value, KindResolved, 0, prev.incident.value.channels);
      }
    } else if next.phase.Firing? && next.incident.Some? {
      var inc := next.incident.value;
      if out.flapping && !inc.flapping {
        flapping := Some(inc.id);
        next := next.(incident := Some(inc.(flapping := true)));
      }
      if inp.renotifyInterval > 0 && inc.state.Open? && Elapsed(inp.end, next.lastNotifiedAt) >= inp.renotifyInterval {
        next := next.(renotifyCount := next.renotifyCount + 1, lastNotifiedAt := Some(inp.end));
        ns := RenotifyLoop(inc.id, next.renotifyCount, inp.channels, inc.channels);
      }
    }
  }

  // ----- whom a re-notification reaches -----

  lemma {:induction false} KnownConcat(channels: seq<ChannelRef>, a: seq<string>, b: seq<string>)
    ensures Known(channels, a + b) == Known(channels, a) + Known(channels, b)
  {
    hide IsChannel;
    if a == [] {
      assert a + b == b;
    } else {
      assert (a + b)[1..] == a[1..] + b;
      KnownConcat(channels, a[1..], b);
    }
  }

  /** The channels of the rule, as often as the incident lists them (and, by `KnownConcat`, in that order). */
  lemma {:induction false} KnownIsFilter(channels: seq<ChannelRef>, ids: seq<string>, id: string)
    ensures multiset(Known(channels, ids))[id] == if IsChannel(channels, id) then multiset(ids)[id] else 0
  {
    hide IsChannel;
    if ids != [] {
      KnownIsFilter(channels, ids[1..], id);
      var first := if IsChannel(channels, ids[0]) then [ids[0]] else [];
      assert Known(channels, ids) == first + Known(channels, ids[1..]);
      assert ids == [ids[0]] + ids[1..];
    }
  }

  lemma {:induction false} AllKnownExactly(channels: seq<ChannelRef>, ids: seq<string>)
    ensures |Known(channels, ids)| <= |ids|
    ensures Known(channels, ids) == ids <==> forall id :: id in ids ==> IsChannel(channels, id)
  {
    hide IsChannel;
    if ids != [] {
      AllKnownExactly(channels, ids[1..]);
      var rest := Known(channels, ids[1..]);
      assert ids == [ids[0]] + ids[1..];
      if IsChannel(channels, ids[0]) {
        assert Known(channels, ids) == [ids[0]] + rest && ([ids[0]] + rest)[1..] == rest;
      } else {
        assert Known(channels, ids) == [] + rest == rest;
      }
      hide Known;
    }
  }

  lemma {:induction false} NoticesChannels(id: nat, kind: Kind, number: nat, channels: seq<string>)
    ensures |Notices(id, kind, number, channels)| == |channels|
    ensures forall i :: 0 <= i < |channels| ==>
              Notices(id, kind, number, channels)[i] == Notification(id, kind, number, channels[i])
  {
    if channels != [] {
      NoticesChannels(id, kind, number, channels[1..]);
    }
  }

  /** A re-notification reaches every channel of the incident exactly when each of them is a channel of the rule. */
  lemma RenotifiesAllExactly(inp: PlanInput, key: string)
    requires Renotifies(inp, key)
    ensures var inc := Outcome(inp, key).next.incident.value;
            var all := Notices(inc.id, KindRenotify, Outcome(inp, key).next.renotifyCount + 1, inc.channels);
            NoticesFor(inp, key) == all <==> forall id :: id in inc.channels ==> IsChannel(inp.channels, id)
  {
    hide Step, IsChannel, Known;
    var inc := Outcome(inp, key).next.incident.value;
    var number := Outcome(inp, key).next.renotifyCount + 1;
    var known := Known(inp.channels, inc.channels);
    AllKnownExactly(inp.channels, inc.channels);
    NoticesChannels(inc.id, KindRenotify, number, inc.channels);
    NoticesChannels(inc.id, KindRenotify, number, known);
    var all, some := Notices(inc.id, KindRenotify, number, inc.channels), Notices(inc.id, KindRenotify, number, known);
    hide Notices;
    assert NoticesFor(inp, key) == some;
    if all == some {
      forall i | 0 <= i < |known| ensures known[i] == inc.channels[i] {
        assert all[i] == some[i];
      }
      assert known == inc.channels;
    }
  }

  const ROUTED: Incident := Incident(7, Open, ["routed"], false)

  /** An incident that routing sent to a channel the rule does not have, at an evaluation that re-notifies. */
  const ROUTED_INPUT: PlanInput := PlanInput(
    StepConfig(Judge(Gt, 0.0, 0.0), 0, 0, 60 * SECOND, 0, Flapping(false, 0, 0, 0), Keep, HOUR),
    60 * SECOND, [ChannelRef("own", true)],
    map["s" := NewSeries("s").(phase := Firing, incidentId := Some(7), incident := Some(ROUTED))],
    map["s" := Num(1.0)], None, HOUR, (k: string) => ["routed"], (k: string) => 8)

  /** It counts as re-notified, and nobody is told. */
  lemma RoutedChannelIsForgotten()
    ensures Renotifies(ROUTED_INPUT, "s") && NoticesFor(ROUTED_INPUT, "s") == []
    ensures NextRow(ROUTED_INPUT, "s").renotifyCount == 1 && NextRow(ROUTED_INPUT, "s").lastNotifiedAt == Some(HOUR)
  {
    var out := Outcome(ROUTED_INPUT, "s");
    assert out.next.incident == Some(ROUTED) && out.next.phase.Firing? && !out.open && out.resolve.None?;
    hide Step;
    assert "own"[0] == 'o' && "routed"[0] == 'r';
    assert ["routed"][1..] == [];
    assert Known(ROUTED_INPUT.channels, []) == [];
  }
}
