/** Why the hypothesis on owners is needed: a concrete interleaving in which an evaluator loses its lease and gets it
    back, and its old change set is still accepted. */
module ProtocolWitness {
  import opened Base
  import opened Series
  import opened Plan
  import opened Tables
  import opened Protocol
  import opened ProtocolSafety

  const CFG := StepConfig(Judge(Gt, 0.0, 0.0), 10, 0, 100, 0, Flapping(false, 4, 3600, 600), Keep, HOUR)

  function Input(states: map<string, SeriesState>, value: real, prev: Option<Time>, end: Time, id: nat): PlanInput {
    PlanInput(CFG, 0, [], states, map["k" := Num(value)], prev, end, (k: string) => [], (k: string) => id)
  }

  const PENDING_ROW := NewSeries("k").(phase := Pending, pendingSince := Some(0), lastValue := Num(1.0),
      lastSeenAt := Some(0))

  /** First breach: the series turns pending. */
  lemma FirstEffect(id: nat)
    ensures EffectOf(Input(map[], 1.0, None, 0, id), "k") == Effect(Some(PENDING_ROW), false, None, None, None, [])
  {
  }

  /** The for-duration has passed: an incident opens. */
  lemma OpeningEffect(id: nat)
    ensures var e := EffectOf(Input(map["k" := PENDING_ROW], 1.0, Some(0), 10, id), "k");
            && e.opens == Some(Incident(id, Open, [], false)) && e.resolves.None? && e.flapping.None?
            && e.write.Some? && e.write.value.phase.Firing? && e.write.value.incidentId == Some(id)
  {
  }

  /** The other evaluator, still looking at the pending row, drops it. */
  lemma DroppingEffect(id: nat)
    ensures EffectOf(Input(map["k" := PENDING_ROW], 0.0, Some(0), 20, id), "k") ==
        Effect(None, true, None, None, None, [])
  {
  }

  function Rule(owner: string, until: Option<Time>, last: Option<Time>, epoch: nat,
      rows: map<string, SeriesState>): map<RuleId, RuleEntry> {
    map["r" := RuleEntry(1, true, Lease(owner, until, last, epoch), rows)]
  }

  const START := System(Db(0, map[], map[]), map[], map[], {}, [])

  // ----- event sequences -----

  ghost predicate Leads(s: System, evs: seq<Event>, t: System)
    decreases |evs|
  {
    if evs == [] then s == t else Enabled(s, evs[0]) && Leads(Apply(s, evs[0]), evs[1..], t)
  }

  lemma {:induction false} LeadsOn(s: System, evs: seq<Event>, t: System, more: seq<Event>, u: System)
    requires Leads(s, evs, t) && Leads(t, more, u)
    ensures Leads(s, evs + more, u)
    decreases |evs|
  {
    hide Apply;
    hide Enabled;
    if evs == [] {
      assert evs + more == more;
    } else {
      assert (evs + more)[1..] == evs[1..] + more;
      LeadsOn(Apply(s, evs[0]), evs[1..], t, more, u);
    }
  }

  lemma LeadsOne(s: System, ev: Event, t: System)
    requires Enabled(s, ev) && Apply(s, ev) == t
    ensures Leads(s, [ev], t)
  {
    hide Apply;
    hide Enabled;
    assert [ev][1..] == [];
  }

  lemma {:induction false} LeadsIsRun(s: System, evs: seq<Event>, t: System) returns (states: seq<System>)
    requires Leads(s, evs, t)
    ensures |states| == |evs| + 1 && states[0] == s && states[|evs|] == t
    ensures forall n :: 0 <= n < |evs| ==> Run(states, evs).StepAt(n)
    decreases |evs|
  {
    hide Apply;
    hide Enabled;
    if evs == [] {
      states := [s];
    } else {
      var rest := LeadsIsRun(Apply(s, evs[0]), evs[1..], t);
      states := [s] + rest;
      forall n | 0 <= n < |evs| ensures Run(states, evs).StepAt(n) {
        if n > 0 {
          assert Run(rest, evs[1..]).StepAt(n - 1);
        }
      }
    }
  }

  // ----- leases -----

  function WithRules(s: System, rules: map<RuleId, RuleEntry>): System {
    s.(db := s.db.(rules := rules))
  }

  lemma ClaimStep(s: System, inst: Instance, last: Option<Time>, epoch: nat, rows: map<string, SeriesState>)
    requires inst != "" && s.db.now == 0 && s.db.rules == Rule("", None, last, epoch, rows)
    ensures Leads(s, [Claimed(inst, {"r"}, 100)], WithRules(s, Rule(inst, Some(100), last, epoch + 1, rows)))
  {
    var rules := Claim(s.db, inst, {"r"}, 100).rules;
    assert rules.Keys == {"r"} && rules["r"] == Rule(inst, Some(100), last, epoch + 1, rows)["r"];
    assert rules == Rule(inst, Some(100), last, epoch + 1, rows);
    LeadsOne(s, Claimed(inst, {"r"}, 100), WithRules(s, Rule(inst, Some(100), last, epoch + 1, rows)));
  }

  lemma ReleaseStep(s: System, inst: Instance, last: Option<Time>, epoch: nat, rows: map<string, SeriesState>)
    requires inst != "" && s.db.rules == Rule(inst, Some(100), last, epoch, rows)
    ensures Leads(s, [Released(inst, {"r"})], WithRules(s, Rule("", None, last, epoch + 1, rows)))
  {
    var rules := Release(s.db, inst, {"r"}).rules;
    assert rules.Keys == {"r"} && rules["r"] == Rule("", None, last, epoch + 1, rows)["r"];
    assert rules == Rule("", None, last, epoch + 1, rows);
    LeadsOne(s, Released(inst, {"r"}), WithRules(s, Rule("", None, last, epoch + 1, rows)));
  }

  // ----- one evaluation up to its commit -----

  function InFlight(s: System, inst: Instance, f: Flight): System {
    s.(flights := s.flights[(inst, "r") := f])
  }

  function AfterPlan(s: System, inst: Instance, end: Time, epoch: nat, e: Effect, id: nat): System {
    InFlight(s, inst, Planned(1, end, epoch, map["k" := e])).(drawn := s.drawn[id := Draw(inst, "r", "k")])
  }

  lemma LoadRuleStep(s: System, inst: Instance, end: Time)
    requires inst != "" && "r" in s.db.rules && s.db.rules["r"].version == 1 && (inst, "r") !in s.flights
    ensures Leads(s, [LoadRule(inst, "r", end)], InFlight(s, inst, RuleLoaded(1, end)))
  {
    LeadsOne(s, LoadRule(inst, "r", end), InFlight(s, inst, RuleLoaded(1, end)));
  }

  lemma LoadRowsStep(s: System, inst: Instance, end: Time, epoch: nat, rows: map<string, SeriesState>)
    requires "r" in s.db.rules && s.db.rules["r"].lease.epoch == epoch && s.db.rules["r"].rows == rows
    requires (inst, "r") in s.flights && s.flights[(inst, "r")] == RuleLoaded(1, end)
    ensures Leads(s, [LoadRows(inst, "r")], InFlight(s, inst, RowsLoaded(1, end, epoch, rows)))
  {
    LeadsOne(s, LoadRows(inst, "r"), InFlight(s, inst, RowsLoaded(1, end, epoch, rows)));
  }

  lemma PlanOfOne(rows: map<string, SeriesState>, value: real, prev: Option<Time>, end: Time, id: nat)
    requires rows.Keys <= {"k"}
    ensures Input(rows, value, prev, end, id).Keys() == {"k"}
    ensures PlanOf(Input(rows, value, prev, end, id)) == map["k" := EffectOf(Input(rows, value, prev, end, id), "k")]
  {
    hide EffectOf;
    assert Input(rows, value, prev, end, id).Keys() == {"k"};
  }

  lemma MakePlanStep(s: System, inst: Instance, end: Time, epoch: nat, rows: map<string, SeriesState>, value: real,
      prev: Option<Time>, id: nat)
    requires (inst, "r") in s.flights && s.flights[(inst, "r")] == RowsLoaded(1, end, epoch, rows) && id !in s.drawn
    requires rows == map[] || rows == map["k" := PENDING_ROW]
    ensures var input := Input(rows, value, prev, end, id);
            Leads(s, [MakePlan(inst, "r", input, map[id := "k"])],
                AfterPlan(s, inst, end, epoch, EffectOf(input, "k"), id))
  {
    hide EffectOf;
    var input := Input(rows, value, prev, end, id);
    PlanOfOne(rows, value, prev, end, id);
    var ev := MakePlan(inst, "r", input, map[id := "k"]);
    assert Joined(s.db, rows) == rows;
    assert Enabled(s, ev);
    DrawOne(s.drawn, inst, id);
    var t := AfterPlan(s, inst, end, epoch, EffectOf(input, "k"), id);
    assert Apply(s, ev) == t by {
      hide PlanOf;
      hide Joined;
    }
    LeadsOne(s, ev, t);
  }

  lemma DrawOne(drawn: map<nat, Draw>, inst: Instance, id: nat)
    ensures var ids := map[id := "k"];
            drawn + (map i | i in ids :: Draw(inst, "r", ids[i])) == drawn[id := Draw(inst, "r", "k")]
  {
  }

  lemma EvaluateStep(s: System, inst: Instance, last: Option<Time>, epoch: nat, rows: map<string, SeriesState>,
      value: real, prev: Option<Time>, end: Time, id: nat)
    returns (evs: seq<Event>)
    requires inst != "" && s.db.rules == Rule(inst, Some(100), last, epoch, rows) && (inst, "r") !in s.flights
        && id !in s.drawn
    requires rows == map[] || rows == map["k" := PENDING_ROW]
    ensures Leads(s, evs, AfterPlan(s, inst, end, epoch, EffectOf(Input(rows, value, prev, end, id), "k"), id))
  {
    hide EffectOf;
    hide Leads;
    LoadRuleStep(s, inst, end);
    var s1 := InFlight(s, inst, RuleLoaded(1, end));
    LoadRowsStep(s1, inst, end, epoch, rows);
    var s2 := InFlight(s1, inst, RowsLoaded(1, end, epoch, rows));
    MakePlanStep(s2, inst, end, epoch, rows, value, prev, id);
    var input := Input(rows, value, prev, end, id);
    var e1, e2, e3 := LoadRule(inst, "r", end), LoadRows(inst, "r"), MakePlan(inst, "r", input, map[id := "k"]);
    var s3 := AfterPlan(s2, inst, end, epoch, EffectOf(input, "k"), id);
    LeadsOn(s, [e1], s1, [e2], s2);
    LeadsOn(s, [e1] + [e2], s2, [e3], s3);
    evs := [e1] + [e2] + [e3];
    assert s3 == AfterPlan(s, inst, end, epoch, EffectOf(input, "k"), id);
  }

  // ----- commits -----

  function AfterCommit(s: System, inst: Instance, end: Time, rules: map<RuleId, RuleEntry>,
      incidents: map<nat, IncidentRow>): System {
    s.(db := s.db.(rules := rules, incidents := incidents), flights := s.flights - {(inst, "r")},
        log := s.log + [LogEntry("r", end)])
  }

  predicate ReadyToCommit(s: System, inst: Instance, end: Time, e: Effect) {
    && (inst, "r") in s.flights && s.flights[(inst, "r")].Planned?
    && s.flights[(inst, "r")].version == 1 && s.flights[(inst, "r")].end == end
         && s.flights[(inst, "r")].plan == map["k" := e]
    && s.db.now == 0
  }

  lemma CommitLeads(s: System, inst: Instance, end: Time, e: Effect, rules: map<RuleId, RuleEntry>,
      incidents: map<nat, IncidentRow>)
    requires ReadyToCommit(s, inst, end, e) && VerdictOf(s, inst, "r").Committed?
    requires CommitDb(s.db, "r", end, map["k" := e]) == s.db.(rules := rules, incidents := incidents)
    ensures Leads(s, [Commit(inst, "r")], AfterCommit(s, inst, end, rules, incidents))
  {
    hide CommitDb;
    hide CommitVerdict;
    LeadsOne(s, Commit(inst, "r"), AfterCommit(s, inst, end, rules, incidents));
  }

  lemma CommitsTo(db: Db, inst: Instance, end: Time, last: Option<Time>, epoch: nat, rows: map<string, SeriesState>,
                  p: Plan, after: map<string, SeriesState>, incidents: map<nat, IncidentRow>)
    requires db.rules == Rule(inst, Some(100), last, epoch, rows) && DistinctIds(p)
    requires CommittedRows(rows, p) == after && CommittedIncidents(db.incidents, "r", p) == incidents
    ensures CommitDb(db, "r", end, p) ==
        db.(rules := Rule(inst, Some(100), Some(end), epoch, after), incidents := incidents)
  {
    hide CommittedRows;
    hide CommittedIncidents;
  }

  /** A change set without incidents, written or removed as it says, whatever happened to the lease before. */
  lemma PlainCommit(s: System, inst: Instance, end: Time, last: Option<Time>, epoch: nat,
      rows: map<string, SeriesState>, e: Effect)
    requires ReadyToCommit(s, inst, end, e) && s.db.rules == Rule(inst, Some(100), last, epoch, rows)
    requires last.Some? ==> last.value < end
    requires e.opens.None? && e.resolves.None? && e.flapping.None?
        && (e.write.Some? ==> e.write.value.incidentId.None? && e.write.value.incident.None?)
    requires rows.Keys <= {"k"}
    ensures var after := if e.write.Some? then map["k" := e.write.value] else if e.remove then map[] else rows;
            var rules := Rule(inst, Some(100), Some(end), epoch, after);
            Leads(s, [Commit(inst, "r")], AfterCommit(s, inst, end, rules, s.db.incidents))
  {
    hide Leads;
    var p := map["k" := e];
    var after := if e.write.Some? then map["k" := e.write.value] else if e.remove then map[] else rows;
    PlainTables(s.db.incidents, rows, e, after);
    CommitsTo(s.db, inst, end, last, epoch, rows, p, after, s.db.incidents);
    assert VerdictOf(s, inst, "r").Committed?;
    CommitLeads(s, inst, end, e, Rule(inst, Some(100), Some(end), epoch, after), s.db.incidents);
  }

  lemma PlainTables(incidents: map<nat, IncidentRow>, rows: map<string, SeriesState>, e: Effect,
      after: map<string, SeriesState>)
    requires e.opens.None? && e.resolves.None? && e.flapping.None? && (e.write.Some? ==> e.write.value.incident.None?)
    requires rows.Keys <= {"k"}
    requires after == if e.write.Some? then map["k" := e.write.value] else if e.remove then map[] else rows
    ensures CommittedRows(rows, map["k" := e]) == after
    ensures CommittedIncidents(incidents, "r", map["k" := e]) == incidents
  {
    var p := map["k" := e];
    assert OpenedIds(p) == {} && ResolvedIds(p) == {} && FlappingIds(p) == {};
  }

  lemma OpeningTables(rows: map<string, SeriesState>, e: Effect, id: nat)
    requires e.opens == Some(Incident(id, Open, [], false)) && e.resolves.None? && e.flapping.None? && e.write.Some?
    requires rows.Keys <= {"k"}
    ensures CommittedRows(rows, map["k" := e]) == map["k" := e.write.value.(incident := None)]
    ensures CommittedIncidents(map[], "r", map["k" := e]) == map[id := IncidentRow(Some("r"), "k", Open, [], false)]
  {
    var p := map["k" := e];
    assert OpenedIds(p) == {id} by {
      assert p["k"].opens.value.id == id;
    }
    assert ResolvedIds(p) == {} && FlappingIds(p) == {};
  }

  /** A change set that opens the first incident. */
  lemma OpeningCommit(s: System, inst: Instance, end: Time, last: Option<Time>, epoch: nat,
      rows: map<string, SeriesState>, e: Effect, id: nat)
    requires ReadyToCommit(s, inst, end, e) && s.db.rules == Rule(inst, Some(100), last, epoch, rows)
        && s.db.incidents == map[]
    requires last.Some? ==> last.value < end
    requires e.opens == Some(Incident(id, Open, [], false)) && e.resolves.None? && e.flapping.None? && e.write.Some?
    requires rows.Keys <= {"k"}
    ensures Leads(s, [Commit(inst, "r")],
                  AfterCommit(s, inst, end, Rule(inst, Some(100), Some(end), epoch,
                      map["k" := e.write.value.(incident := None)]),
                              map[id := IncidentRow(Some("r"), "k", Open, [], false)]))
  {
    hide Leads;
    var p := map["k" := e];
    OpeningTables(rows, e, id);
    var after := map["k" := e.write.value.(incident := None)];
    var incidents := map[id := IncidentRow(Some("r"), "k", Open, [], false)];
    CommitsTo(s.db, inst, end, last, epoch, rows, p, after, incidents);
    assert VerdictOf(s, inst, "r").Committed?;
    CommitLeads(s, inst, end, e, Rule(inst, Some(100), Some(end), epoch, after), incidents);
  }

  // ----- the interleaving -----

  const PENDING_ROWS: map<string, SeriesState> := map["k" := PENDING_ROW]

  /** Evaluator a turns the series pending, reads that row for its next evaluation and loses the lease. */
  lemma FirstHalf() returns (evs: seq<Event>, t: System)
    ensures Leads(START, evs, t)
    ensures t.db == Db(0, Rule("", None, Some(0), 2, PENDING_ROWS), map[]) && t.drawn.Keys == {0, 1}
    ensures t.flights == map[("a", "r") :=
        Planned(1, 20, 1, map["k" := EffectOf(Input(PENDING_ROWS, 0.0, Some(0), 20, 1), "k")])]
  {
    hide Leads;
    hide EffectOf;
    var s1 := WithRules(START, Rule("", None, None, 0, map[]));
    LeadsOne(START, CreateRule("r", true), s1);
    ClaimStep(s1, "a", None, 0, map[]);
    var s2 := WithRules(s1, Rule("a", Some(100), None, 1, map[]));
    var load := EvaluateStep(s2, "a", None, 1, map[], 1.0, None, 0, 0);
    FirstEffect(0);
    var e := EffectOf(Input(map[], 1.0, None, 0, 0), "k");
    var s3 := AfterPlan(s2, "a", 0, 1, e, 0);
    PlainCommit(s3, "a", 0, None, 1, map[], e);
    var s4 := AfterCommit(s3, "a", 0, Rule("a", Some(100), Some(0), 1, PENDING_ROWS), map[]);
    var again := EvaluateStep(s4, "a", Some(0), 1, PENDING_ROWS, 0.0, Some(0), 20, 1);
    var s5 := AfterPlan(s4, "a", 20, 1, EffectOf(Input(PENDING_ROWS, 0.0, Some(0), 20, 1), "k"), 1);
    ReleaseStep(s5, "a", Some(0), 1, PENDING_ROWS);
    t := WithRules(s5, Rule("", None, Some(0), 2, PENDING_ROWS));
    evs := [CreateRule("r", true)];
    LeadsOn(START, evs, s1, [Claimed("a", {"r"}, 100)], s2);
    evs := evs + [Claimed("a", {"r"}, 100)];
    LeadsOn(START, evs, s2, load, s3);
    evs := evs + load;
    LeadsOn(START, evs, s3, [Commit("a", "r")], s4);
    evs := evs + [Commit("a", "r")];
    LeadsOn(START, evs, s4, again, s5);
    evs := evs + again;
    LeadsOn(START, evs, s5, [Released("a", {"r"})], t);
    evs := evs + [Released("a", {"r"})];
    assert t.flights == map[("a", "r") :=
        Planned(1, 20, 1, map["k" := EffectOf(Input(PENDING_ROWS, 0.0, Some(0), 20, 1), "k")])];
  }

  const OPENED: map<nat, IncidentRow> := map[2 := IncidentRow(Some("r"), "k", Open, [], false)]

  function Firing(): map<string, SeriesState> {
    map["k" := EffectOf(Input(PENDING_ROWS, 1.0, Some(0), 10, 2), "k").write.value.(incident := None)]
  }

  ghost predicate Waiting(s: System) {
    ("a", "r") in s.flights && s.flights[("a", "r")] ==
    Planned(1, 20, 1, map["k" := EffectOf(Input(PENDING_ROWS, 0.0, Some(0), 20, 1), "k")])
  }

  /** Evaluator b opens an incident for the series while a's change set waits. */
  lemma OtherOpens(s: System) returns (evs: seq<Event>, t: System)
    requires s.db == Db(0, Rule("", None, Some(0), 2, PENDING_ROWS), map[]) && s.drawn.Keys == {0, 1}
    requires Waiting(s) && s.flights.Keys == {("a", "r")}
    ensures Leads(s, evs, t) && Waiting(t)
    ensures t.db == Db(0, Rule("b", Some(100), Some(10), 3, Firing()), OPENED)
  {
    hide Leads;
    hide EffectOf;
    ClaimStep(s, "b", Some(0), 2, PENDING_ROWS);
    var s1 := WithRules(s, Rule("b", Some(100), Some(0), 3, PENDING_ROWS));
    var load := EvaluateStep(s1, "b", Some(0), 3, PENDING_ROWS, 1.0, Some(0), 10, 2);
    OpeningEffect(2);
    var e := EffectOf(Input(PENDING_ROWS, 1.0, Some(0), 10, 2), "k");
    var s2 := AfterPlan(s1, "b", 10, 3, e, 2);
    OpeningCommit(s2, "b", 10, Some(0), 3, PENDING_ROWS, e, 2);
    t := AfterCommit(s2, "b", 10, Rule("b", Some(100), Some(10), 3, Firing()), OPENED);
    evs := [Claimed("b", {"r"}, 100)];
    LeadsOn(s, evs, s1, load, s2);
    evs := evs + load;
    LeadsOn(s, evs, s2, [Commit("b", "r")], t);
    evs := evs + [Commit("b", "r")];
  }

  /** Then b gives the lease up, and a gets it back and commits. */
  lemma OwnerReturns(s: System) returns (evs: seq<Event>, t: System)
    requires s.db == Db(0, Rule("b", Some(100), Some(10), 3, Firing()), OPENED) && Waiting(s)
    ensures Leads(s, evs, t)
    ensures UnresolvedAt(t.db, 2, "r", "k") && "r" in t.db.rules && t.db.rules["r"].rows == map[]
  {
    hide Leads;
    hide EffectOf;
    ReleaseStep(s, "b", Some(10), 3, Firing());
    var s4 := WithRules(s, Rule("", None, Some(10), 4, Firing()));
    ClaimStep(s4, "a", Some(10), 4, Firing());
    var s5 := WithRules(s4, Rule("a", Some(100), Some(10), 5, Firing()));
    DroppingEffect(1);
    var d := EffectOf(Input(PENDING_ROWS, 0.0, Some(0), 20, 1), "k");
    PlainCommit(s5, "a", 20, Some(10), 5, Firing(), d);
    t := AfterCommit(s5, "a", 20, Rule("a", Some(100), Some(20), 5, map[]), OPENED);
    evs := [Released("b", {"r"})];
    LeadsOn(s, evs, s4, [Claimed("a", {"r"}, 100)], s5);
    evs := evs + [Claimed("a", {"r"}, 100)];
    LeadsOn(s, evs, s5, [Commit("a", "r")], t);
    evs := evs + [Commit("a", "r")];
  }

  lemma SecondHalf(s: System) returns (evs: seq<Event>, t: System)
    requires s.db == Db(0, Rule("", None, Some(0), 2, PENDING_ROWS), map[]) && s.drawn.Keys == {0, 1}
    requires Waiting(s) && s.flights.Keys == {("a", "r")}
    ensures Leads(s, evs, t)
    ensures UnresolvedAt(t.db, 2, "r", "k") && "r" in t.db.rules && t.db.rules["r"].rows == map[]
  {
    hide Leads, Waiting, Firing;
    var first, mid := OtherOpens(s);
    var second, end := OwnerReturns(mid);
    LeadsOn(s, first, mid, second, end);
    evs, t := first + second, end;
  }

  /** Without the hypothesis there is a run that ends with an unresolved incident no row refers to. */
  lemma InterruptedOwnerLosesIncident() returns (run: Run)
    ensures run.Valid() && !run.OwnersUninterrupted()
    ensures var db := run.states[|run.events|].db;
            UnresolvedAt(db, 2, "r", "k") && "r" in db.rules && db.rules["r"].rows == map[]
  {
    hide Leads;
    var evs, mid := FirstHalf();
    var more, t := SecondHalf(mid);
    LeadsOn(START, evs, mid, more, t);
    var states := LeadsIsRun(START, evs + more, t);
    run := Run(states, evs + more);
    if run.OwnersUninterrupted() {
      OneIncidentPerSeries(run, |run.events|);
      assert false;
    }
  }
}
