/** Safety of every interleaving: one unresolved incident per series, held by exactly one firing row, and window
    ends that only move forward. */
module ProtocolSafety {
  import opened Base
  import opened Series
  import opened Plan
  import opened Tables
  import opened Protocol

  // ----- leases move, tables stay -----

  /** Only leases changed, and never back to an earlier epoch. */
  ghost predicate OnlyLeases(s: System, t: System) {
    && t.flights == s.flights && t.drawn == s.drawn && t.retired == s.retired && t.log == s.log
    && t.db.incidents == s.db.incidents && t.db.rules.Keys == s.db.rules.Keys
    && forall r :: r in s.db.rules ==> LeaseMoved(s.db.rules[r], t.db.rules[r])
  }

  predicate LeaseMoved(e: RuleEntry, e': RuleEntry) {
    && e'.version == e.version && e'.rows == e.rows && e'.lease.lastEnd == e.lease.lastEnd
    && e.lease.epoch <= e'.lease.epoch
    && (e.lease.epoch == e'.lease.epoch ==> e.lease.owner == e'.lease.owner)
  }

  lemma OnlyLeasesKeeps(s: System, t: System)
    requires Inv(s) && OnlyLeases(s, t)
    ensures Inv(t)
  {
    forall i | i in t.db.incidents ensures IncidentOk(t, i) {
      assert IncidentOk(s, i);
    }
    forall r | r in t.db.rules ensures RowsOk(t, r, t.db.rules[r].rows) {
      assert RowsOk(s, r, s.db.rules[r].rows);
    }
    forall i, r, k | UnresolvedAt(t.db, i, r, k) ensures r in t.db.rules && Holds(t.db.rules[r].rows, k, i) {
      assert UnresolvedAt(s.db, i, r, k);
    }
    assert Calmer(s, t) by {
      forall i, r, k | UnresolvedAt(t.db, i, r, k) ensures UnresolvedAt(s.db, i, r, k) {
      }
    }
    CalmerKeepsFlights(s, t);
  }

  lemma LeaseEvents(s: System, ev: Event)
    requires Inv(s) && Enabled(s, ev)
    requires ev.Advance? || ev.RenewDropped? || ev.RenewExtended? || ev.Claimed? || ev.Released? || ev.Left?
    ensures Inv(Apply(s, ev))
  {
    hide Inv;
    OnlyLeasesKeeps(s, Apply(s, ev));
  }

  // ----- rules and incidents change under running evaluations -----

  lemma CreateKeeps(s: System, ev: Event)
    requires Inv(s) && Enabled(s, ev) && ev.CreateRule?
    ensures Inv(Apply(s, ev))
  {
    var t := Apply(s, ev);
    assert forall i, r, k :: UnresolvedAt(t.db, i, r, k) <==> UnresolvedAt(s.db, i, r, k);
    forall i | i in t.db.incidents ensures IncidentOk(t, i) {
      assert IncidentOk(s, i);
    }
    forall r | r in t.db.rules ensures r !in t.retired && RowsOk(t, r, t.db.rules[r].rows) {
      if r != ev.rule {
        assert RowsOk(s, r, s.db.rules[r].rows);
      }
    }
    forall i, r, k | UnresolvedAt(t.db, i, r, k) ensures r in t.db.rules && Holds(t.db.rules[r].rows, k, i) {
      assert UnresolvedAt(s.db, i, r, k);
    }
    forall a | a in t.flights ensures FlightOk(t, a.0, a.1, t.flights[a]) {
      assert FlightOk(s, a.0, a.1, s.flights[a]);
      assert a.1 != ev.rule;
      CreateKeepsFlight(s, t, ev.rule, a.0, a.1, s.flights[a]);
    }
  }

  lemma CreateKeepsFlight(s: System, t: System, created: RuleId, inst: Instance, r: RuleId, f: Flight)
    requires FlightOk(s, inst, r, f) && r != created
    requires t.drawn == s.drawn && t.retired == s.retired && t.db.incidents == s.db.incidents
    requires created in t.db.rules && t.db.rules == s.db.rules[created := t.db.rules[created]]
    ensures FlightOk(t, inst, r, f)
  {
    assert forall i, k :: UnresolvedAt(t.db, i, r, k) <==> UnresolvedAt(s.db, i, r, k);
    match f
    case RuleLoaded(_, _) =>
    case RowsLoaded(_, _, _, rows) => assert RowsOk(t, r, rows);
    case Planned(_, _, _, p) =>
      forall k | k in p ensures EffectOk(t, inst, r, k, p[k]) {
        assert EffectOk(s, inst, r, k, p[k]);
      }
  }

  /** The general step of an API change: calmer tables whose remaining unresolved incidents are still held. */
  lemma CalmerKeeps(s: System, t: System)
    requires Inv(s) && Calmer(s, t) && LogOk(t)
    requires forall r :: r in t.db.rules ==> r !in t.retired && RowsOk(t, r, t.db.rules[r].rows)
    requires forall i :: i in t.db.incidents ==> IncidentOk(t, i)
    requires Covered(t.db)
    ensures Inv(t)
  {
    CalmerKeepsFlights(s, t);
  }

  /** Resolving a rule's incidents and clearing its rows, with any forward edit of the rule itself. */
  lemma ResolveRuleKeeps(s: System, t: System, r: RuleId)
    requires Inv(s) && r in s.db.rules && r in t.db.rules
    requires t == s.(db := s.db.(rules := s.db.rules[r := t.db.rules[r]], incidents := ResolveRule(s.db, r).incidents))
    requires t.db.rules[r].rows == map[] && t.db.rules[r].lease == s.db.rules[r].lease
    requires s.db.rules[r].version <= t.db.rules[r].version
    ensures Inv(t)
  {
    forall i | i in t.db.incidents ensures IncidentOk(t, i) {
      assert IncidentOk(s, i);
    }
    forall q | q in t.db.rules ensures RowsOk(t, q, t.db.rules[q].rows) {
      assert RowsOk(s, q, s.db.rules[q].rows);
    }
    forall i, q, k | UnresolvedAt(t.db, i, q, k)
      ensures UnresolvedAt(s.db, i, q, k) && q != r && q in t.db.rules && Holds(t.db.rules[q].rows, k, i)
    {
      assert UnresolvedAt(s.db, i, q, k);
    }
    CalmerKeeps(s, t);
  }

  lemma EditKeeps(s: System, t: System, r: RuleId)
    requires Inv(s) && r in s.db.rules && r in t.db.rules
    requires t == s.(db := s.db.(rules := s.db.rules[r := t.db.rules[r]]))
    requires t.db.rules[r].rows == s.db.rules[r].rows && t.db.rules[r].lease == s.db.rules[r].lease
    requires s.db.rules[r].version <= t.db.rules[r].version
    ensures Inv(t)
  {
    forall i | i in t.db.incidents ensures IncidentOk(t, i) {
      assert IncidentOk(s, i);
    }
    forall q | q in t.db.rules ensures RowsOk(t, q, t.db.rules[q].rows) {
      assert RowsOk(s, q, s.db.rules[q].rows);
    }
    forall i, q, k | UnresolvedAt(t.db, i, q, k)
      ensures UnresolvedAt(s.db, i, q, k) && q in t.db.rules && Holds(t.db.rules[q].rows, k, i)
    {
      assert UnresolvedAt(s.db, i, q, k);
    }
    CalmerKeeps(s, t);
  }

  lemma UpdateKeeps(s: System, r: RuleId, enabled: bool, changed: bool)
    requires Inv(s) && r in s.db.rules
    ensures Inv(s.(db := UpdateRule(s.db, r, enabled, changed)))
  {
    hide Inv;
    var t := s.(db := UpdateRule(s.db, r, enabled, changed));
    if changed || (!enabled && s.db.rules[r].enabled) {
      assert t.db.rules == s.db.rules[r := t.db.rules[r]];
      ResolveRuleKeeps(s, t, r);
    } else {
      EditKeeps(s, t, r);
    }
  }

  lemma DeleteKeeps(s: System, r: RuleId)
    requires Inv(s) && r in s.db.rules
    ensures Inv(s.(db := DeleteRule(s.db, r), retired := s.retired + {r}))
  {
    var t := s.(db := DeleteRule(s.db, r), retired := s.retired + {r});
    forall i | i in t.db.incidents ensures IncidentOk(t, i) {
      assert IncidentOk(s, i);
    }
    forall q | q in t.db.rules ensures q !in t.retired && RowsOk(t, q, t.db.rules[q].rows) {
      assert RowsOk(s, q, s.db.rules[q].rows);
    }
    forall i, q, k | UnresolvedAt(t.db, i, q, k)
      ensures UnresolvedAt(s.db, i, q, k) && q != r && q in t.db.rules && Holds(t.db.rules[q].rows, k, i)
    {
      assert UnresolvedAt(s.db, i, q, k);
    }
    CalmerKeeps(s, t);
  }

  lemma AckKeeps(s: System, i: nat)
    requires Inv(s) && i in s.db.incidents
    ensures Inv(s.(db := Acknowledge(s.db, i)))
  {
    var t := s.(db := Acknowledge(s.db, i));
    forall j | j in t.db.incidents ensures IncidentOk(t, j) {
      assert IncidentOk(s, j);
    }
    forall q | q in t.db.rules ensures RowsOk(t, q, t.db.rules[q].rows) {
      assert RowsOk(s, q, s.db.rules[q].rows);
    }
    forall j, q, k | UnresolvedAt(t.db, j, q, k)
      ensures UnresolvedAt(s.db, j, q, k) && q in t.db.rules && Holds(t.db.rules[q].rows, k, j)
    {
      assert UnresolvedAt(s.db, j, q, k);
    }
    CalmerKeeps(s, t);
  }

  lemma ManualResolveKeeps(s: System, i: nat)
    requires Inv(s) && i in s.db.incidents
    ensures Inv(s.(db := ResolveIncident(s.db, i)))
  {
    hide FlightsOk;
    var t := s.(db := ResolveIncident(s.db, i));
    forall j | j in t.db.incidents ensures IncidentOk(t, j) {
      assert IncidentOk(s, j);
    }
    forall q | q in t.db.rules ensures RowsOk(t, q, t.db.rules[q].rows) {
      assert RowsOk(s, q, s.db.rules[q].rows);
    }
    forall j, q, k | UnresolvedAt(t.db, j, q, k)
      ensures UnresolvedAt(s.db, j, q, k) && q in t.db.rules && Holds(t.db.rules[q].rows, k, j)
    {
      assert UnresolvedAt(s.db, j, q, k);
    }
    CalmerKeeps(s, t);
  }

  lemma PruneKeeps(s: System, gone: set<nat>)
    requires Inv(s)
    ensures Inv(s.(db := PruneIncidents(s.db, gone)))
  {
    var t := s.(db := PruneIncidents(s.db, gone));
    forall j | j in t.db.incidents ensures IncidentOk(t, j) {
      assert IncidentOk(s, j);
    }
    forall q | q in t.db.rules ensures RowsOk(t, q, t.db.rules[q].rows) {
      assert RowsOk(s, q, s.db.rules[q].rows);
    }
    forall j, q, k | UnresolvedAt(t.db, j, q, k)
      ensures UnresolvedAt(s.db, j, q, k) && q in t.db.rules && Holds(t.db.rules[q].rows, k, j)
    {
      assert UnresolvedAt(s.db, j, q, k);
    }
    CalmerKeeps(s, t);
  }

  // ----- evaluations load, plan and give up -----

  lemma SameTables(s: System, t: System)
    requires TablesOk(s) && LogOk(s) && t.db == s.db && t.retired == s.retired && t.log == s.log
    requires forall i :: i in s.drawn ==> i in t.drawn && t.drawn[i] == s.drawn[i]
    ensures TablesOk(t) && LogOk(t)
  {
    forall i | i in t.db.incidents ensures IncidentOk(t, i) {
      assert IncidentOk(s, i);
    }
    forall r | r in t.db.rules ensures r !in t.retired && RowsOk(t, r, t.db.rules[r].rows) {
      assert RowsOk(s, r, s.db.rules[r].rows);
    }
  }

  lemma SameFlight(s: System, t: System, inst: Instance, r: RuleId, f: Flight)
    requires FlightOk(s, inst, r, f) && t.db == s.db && t.retired == s.retired
    requires forall i :: i in s.drawn ==> i in t.drawn && t.drawn[i] == s.drawn[i]
    ensures FlightOk(t, inst, r, f)
  {
    match f
    case RuleLoaded(_, _) =>
    case RowsLoaded(_, _, _, rows) => assert RowsOk(t, r, rows);
    case Planned(_, _, _, p) =>
      forall k | k in p ensures EffectOk(t, inst, r, k, p[k]) {
        assert EffectOk(s, inst, r, k, p[k]);
      }
  }

  /** A step of one evaluation leaves the others alone. */
  lemma FlightStep(s: System, t: System, inst: Instance, r: RuleId)
    requires Inv(s) && t.db == s.db && t.retired == s.retired && t.log == s.log
    requires forall i :: i in s.drawn ==> i in t.drawn && t.drawn[i] == s.drawn[i]
    requires forall a :: a in t.flights && a != (inst, r) ==> a in s.flights && t.flights[a] == s.flights[a]
    requires (inst, r) in t.flights ==> FlightOk(t, inst, r, t.flights[(inst, r)])
    ensures Inv(t)
  {
    hide FlightOk;
    SameTables(s, t);
    forall a | a in t.flights ensures FlightOk(t, a.0, a.1, t.flights[a]) {
      if a != (inst, r) {
        assert FlightOk(s, a.0, a.1, s.flights[a]);
        SameFlight(s, t, a.0, a.1, s.flights[a]);
      }
    }
  }

  lemma LoadRowsKeeps(s: System, ev: Event)
    requires Inv(s) && Enabled(s, ev) && ev.LoadRows?
    ensures Inv(Apply(s, ev))
  {
    var t := Apply(s, ev);
    var f := t.flights[(ev.inst, ev.rule)];
    assert FlightOk(s, ev.inst, ev.rule, s.flights[(ev.inst, ev.rule)]);
    assert FlightOk(t, ev.inst, ev.rule, f) by {
      assert RowsOk(s, ev.rule, s.db.rules[ev.rule].rows);
      assert RowsOk(t, ev.rule, f.rows);
    }
    FlightStep(s, t, ev.inst, ev.rule);
  }

  /** The change set built from rows that see every unresolved incident of the rule sees them too. */
  lemma PlanFromRows(s: System, t: System, inst: Instance, r: RuleId, rows: map<string, SeriesState>, input: PlanInput,
      ids: map<nat, string>)
    requires RowsOk(s, r, rows) && input.states == Joined(s.db, rows) && t.db == s.db
    requires t.drawn == s.drawn + map i | i in ids :: Draw(inst, r, ids[i])
    requires ids.Keys !! s.drawn.Keys && (forall i :: i in s.db.incidents ==> i in s.drawn)
    requires forall k :: k in input.Keys() ==> input.newIds(k) in ids && ids[input.newIds(k)] == k
    ensures PlanOk(t, inst, r, PlanOf(input))
    ensures RowsSee(s.db, r, rows) ==> PlanSees(t.db, r, PlanOf(input))
  {
    hide EffectOf;
    forall k | k in input.Keys() ensures EffectOk(t, inst, r, k, EffectOf(input, k)) {
      EffectFacts(input, k);
    }
    if RowsSee(s.db, r, rows) {
      forall i, k | UnresolvedAt(t.db, i, r, k) && k in PlanOf(input)
        ensures var e := EffectOf(input, k);
                e.opens.None? && (Keeps(e, i) || (e.resolves.Some? && e.resolves.value.id == i))
      {
        assert UnresolvedAt(s.db, i, r, k);
        assert Holds(rows, k, i);
        LiveEffect(input, k, i);
      }
    }
  }

  lemma MakePlanKeeps(s: System, ev: Event)
    requires Inv(s) && Enabled(s, ev) && ev.MakePlan?
    ensures Inv(Apply(s, ev))
  {
    hide PlanOf;
    var t := Apply(s, ev);
    var f := s.flights[(ev.inst, ev.rule)];
    assert FlightOk(s, ev.inst, ev.rule, f);
    assert forall i :: i in s.db.incidents ==> IncidentOk(s, i);
    PlanFromRows(s, t, ev.inst, ev.rule, f.rows, ev.input, ev.ids);
    assert FlightOk(t, ev.inst, ev.rule, t.flights[(ev.inst, ev.rule)]) by {
      assert Live(t, ev.inst, ev.rule, t.flights[(ev.inst, ev.rule)]) ==> Live(s, ev.inst, ev.rule, f);
    }
    FlightStep(s, t, ev.inst, ev.rule);
  }

  lemma OtherFlightEvents(s: System, ev: Event)
    requires Inv(s) && Enabled(s, ev)
    requires ev.LoadRule? || ev.EvaluationFailed? || ev.Abandon?
    ensures Inv(Apply(s, ev))
  {
    var t := Apply(s, ev);
    if !ev.LoadRule? {
      assert FlightOk(s, ev.inst, ev.rule, s.flights[(ev.inst, ev.rule)]);
    }
    FlightStep(s, t, ev.inst, ev.rule);
  }

  // ----- commits -----

  /** An accepted commit of evaluation (`inst`, `r`), in flight with change set `p`. */
  ghost predicate Accepts(s: System, t: System, inst: Instance, r: RuleId, f: Flight) {
    && (inst, r) in s.flights && s.flights[(inst, r)] == f && f.Planned?
    && r in s.db.rules && s.db.rules[r].lease.owner == inst && DistinctIds(f.plan)
    && (s.db.rules[r].lease.lastEnd.Some? ==> s.db.rules[r].lease.lastEnd.value < f.end)
    && t == s.(flights := s.flights - {(inst, r)}, db := CommitDb(s.db, r, f.end, f.plan),
         log := s.log + [LogEntry(r, f.end)])
  }

  /** What is unresolved after the commit: opened by it, or unresolved before and not resolved by it. */
  lemma CommittedUnresolved(s: System, t: System, inst: Instance, r: RuleId, f: Flight, i: nat, q: RuleId, k: string)
    requires Accepts(s, t, inst, r, f) && PlanOk(s, inst, r, f.plan) && UnresolvedAt(t.db, i, q, k)
    ensures i in OpenedIds(f.plan) ==> q == r && k in f.plan && f.plan[k].opens.Some? && f.plan[k].opens.value.id == i
    ensures i !in OpenedIds(f.plan) ==> UnresolvedAt(s.db, i, q, k) && i !in ResolvedIds(f.plan)
  {
    if i in OpenedIds(f.plan) {
      var o := OpenerOf(f.plan, i);
    }
  }

  lemma CommitCovers(s: System, t: System, inst: Instance, r: RuleId, f: Flight)
    requires Inv(s) && Accepts(s, t, inst, r, f) && PlanOk(s, inst, r, f.plan) && PlanSees(s.db, r, f.plan)
    ensures Covered(t.db)
  {
    var p := f.plan;
    forall i, q, k | UnresolvedAt(t.db, i, q, k) ensures q in t.db.rules && Holds(t.db.rules[q].rows, k, i) {
      CommittedUnresolved(s, t, inst, r, f, i, q, k);
      if i in OpenedIds(p) {
        assert EffectOk(s, inst, r, k, p[k]);
      } else {
        assert Holds(s.db.rules[q].rows, k, i);
      }
    }
  }

  lemma CommitKeepsIncidents(s: System, t: System, inst: Instance, r: RuleId, f: Flight, i: nat)
    requires TablesOk(s) && Accepts(s, t, inst, r, f) && PlanOk(s, inst, r, f.plan) && i in t.db.incidents
    ensures IncidentOk(t, i)
  {
    CommittedIncident(s, t, inst, r, f, i);
    hide CommitDb, OpenedIds, RowsOk, Covered;
    if i in OpenedIds(f.plan) {
      var k := OpenerOf(f.plan, i);
      assert EffectOk(s, inst, r, k, f.plan[k]);
    } else {
      assert IncidentOk(s, i);
    }
  }

  /** An incident after the commit: inserted for the series that opened it, or what it was, possibly resolved. */
  lemma CommittedIncident(s: System, t: System, inst: Instance, r: RuleId, f: Flight, i: nat)
    requires Accepts(s, t, inst, r, f) && i in t.db.incidents
    ensures t.db.rules.Keys == s.db.rules.Keys && t.drawn == s.drawn
    ensures var after := t.db.incidents[i];
            if i in OpenedIds(f.plan) then after.rule == Some(r) && after.key == OpenerOf(f.plan, i)
            else
              && i in s.db.incidents && after.rule == s.db.incidents[i].rule && after.key == s.db.incidents[i].key
              && (s.db.incidents[i].state.Resolved? ==> after.state.Resolved?)
  {
    hide CommittedRows;
  }

  lemma CommitKeepsRows(s: System, t: System, inst: Instance, r: RuleId, f: Flight, q: RuleId)
    requires TablesOk(s) && Accepts(s, t, inst, r, f) && PlanOk(s, inst, r, f.plan) && q in t.db.rules
    ensures RowsOk(t, q, t.db.rules[q].rows)
  {
    assert RowsOk(s, q, s.db.rules[q].rows);
    assert forall k :: k in f.plan ==> EffectOk(s, inst, r, k, f.plan[k]);
  }

  lemma CommitKeepsTables(s: System, t: System, inst: Instance, r: RuleId, f: Flight)
    requires Inv(s) && Accepts(s, t, inst, r, f) && PlanOk(s, inst, r, f.plan) && PlanSees(s.db, r, f.plan)
    ensures TablesOk(t)
  {
    hide RowsOk;
    hide IncidentOk;
    hide Covered;
    CommitCovers(s, t, inst, r, f);
    forall i | i in t.db.incidents ensures IncidentOk(t, i) {
      CommitKeepsIncidents(s, t, inst, r, f, i);
    }
    forall q | q in t.db.rules ensures q !in t.retired && RowsOk(t, q, t.db.rules[q].rows) {
      CommitKeepsRows(s, t, inst, r, f, q);
    }
  }

  lemma CommitKeepsFlight(s: System, t: System, inst: Instance, r: RuleId, f: Flight, a: (Instance, RuleId))
    requires Accepts(s, t, inst, r, f) && PlanOk(s, inst, r, f.plan)
    requires a in s.flights && a != (inst, r) && FlightOk(s, a.0, a.1, s.flights[a])
    ensures FlightOk(t, a.0, a.1, s.flights[a])
  {
    var g := s.flights[a];
    assert forall o :: o in f.plan ==> EffectOk(s, inst, r, o, f.plan[o]);
    if a.1 != r {
      forall i, k | UnresolvedAt(t.db, i, a.1, k) ensures UnresolvedAt(s.db, i, a.1, k) {
        CommittedUnresolved(s, t, inst, r, f, i, a.1, k);
      }
    }
    match g
    case RuleLoaded(_, _) =>
    case RowsLoaded(_, _, _, rows) =>
      assert RowsOk(t, a.1, rows);
    case Planned(_, _, _, q) =>
      forall k | k in q ensures EffectOk(t, a.0, a.1, k, q[k]) {
        assert EffectOk(s, a.0, a.1, k, q[k]);
        assert q[k].opens.Some? ==> q[k].opens.value.id !in OpenedIds(f.plan);
      }
  }

  /** Windows advance under every event, whoever commits. */
  /** Steps that log nothing and keep, of every rule that stays, the end it committed last. */
  ghost predicate KeepsEnds(s: System, t: System) {
    && t.log == s.log && s.retired <= t.retired
    && (forall r :: r in s.db.rules ==> r in t.db.rules || r in t.retired)
    && (forall r :: r in t.db.rules ==> if r in s.db.rules
          then t.db.rules[r].lease.lastEnd == s.db.rules[r].lease.lastEnd
          else r !in s.retired)
  }

  lemma QuietLog(s: System, t: System)
    requires LogOk(s) && KeepsEnds(s, t)
    ensures LogOk(t)
  {
  }

  lemma QuietStep(s: System, ev: Event)
    requires Enabled(s, ev) && (ev.Commit? ==> !VerdictOf(s, ev.inst, ev.rule).Committed?)
    ensures KeepsEnds(s, Apply(s, ev))
  {
    hide CommitVerdict, PlanOf;
  }

  lemma CommitLog(s: System, inst: Instance, r: RuleId)
    requires LogOk(s) && FlightOf(s, inst, r).Some? && s.flights[(inst, r)].Planned?
    requires VerdictOf(s, inst, r).Committed?
    ensures LogOk(CommitStep(s, inst, r))
  {
    hide IndexRefuses, RefersToMissing, CommittedRows, CommittedIncidents;
  }

  lemma LogStep(s: System, ev: Event)
    requires LogOk(s) && Enabled(s, ev)
    ensures LogOk(Apply(s, ev))
  {
    if ev.Commit? && VerdictOf(s, ev.inst, ev.rule).Committed? {
      CommitLog(s, ev.inst, ev.rule);
    } else {
      QuietStep(s, ev);
      hide LogOk, KeepsEnds, Apply;
      QuietLog(s, Apply(s, ev));
    }
  }

  lemma CommitKeeps(s: System, ev: Event)
    requires Inv(s) && Enabled(s, ev) && ev.Commit? && Uninterrupted(s, ev)
    ensures Inv(Apply(s, ev))
  {
    var inst, r := ev.inst, ev.rule;
    var f := s.flights[(inst, r)];
    var t := CommitStep(s, inst, r);
    assert FlightOk(s, inst, r, f);
    if VerdictOf(s, inst, r).Committed? {
      assert Live(s, inst, r, f) || f.plan == map[];
      CommitKeepsTables(s, t, inst, r, f);
      LogStep(s, ev);
      forall a | a in t.flights ensures FlightOk(t, a.0, a.1, t.flights[a]) {
        assert FlightOk(s, a.0, a.1, s.flights[a]);
        CommitKeepsFlight(s, t, inst, r, f, a);
      }
    } else {
      FlightStep(s, t, inst, r);
    }
  }

  // ----- every run -----

  /** A run: states and the events between them, from empty tables. */
  datatype Run = Run(states: seq<System>, events: seq<Event>) {
    ghost predicate Valid() {
      && |states| == |events| + 1
      && states[0].db.rules == map[] && states[0].db.incidents == map[] && states[0].flights == map[]
           && states[0].log == []
      && forall n :: 0 <= n < |events| ==> StepAt(n)
    }

    ghost predicate StepAt(n: nat)
      requires n < |events| && |states| == |events| + 1
    {
      Enabled(states[n], events[n]) && states[n + 1] == Apply(states[n], events[n])
    }

    /** Every accepted change set was committed by an owner that held the lease since it read the rows. */
    ghost predicate OwnersUninterrupted()
      requires |states| == |events| + 1
    {
      forall n :: 0 <= n < |events| && StepAt(n) ==> Uninterrupted(states[n], events[n])
    }
  }

  lemma EventKeeps(s: System, ev: Event)
    requires Inv(s) && Enabled(s, ev) && Uninterrupted(s, ev)
    ensures Inv(Apply(s, ev))
  {
    hide Inv;
    match ev
    case CreateRule(_, _) => CreateKeeps(s, ev);
    case LoadRows(_, _) => LoadRowsKeeps(s, ev);
    case MakePlan(_, _, _, _) => MakePlanKeeps(s, ev);
    case LoadRule(_, _, _) => OtherFlightEvents(s, ev);
    case EvaluationFailed(_, _) => OtherFlightEvents(s, ev);
    case Abandon(_, _) => OtherFlightEvents(s, ev);
    case Commit(_, _) => CommitKeeps(s, ev);
    case Update(r, enabled, changed) => UpdateKeeps(s, r, enabled, changed);
    case SetEnabled(r, enabled) => UpdateKeeps(s, r, enabled, false);
    case Delete(r) => DeleteKeeps(s, r);
    case Ack(i) => AckKeeps(s, i);
    case ManualResolve(i) => ManualResolveKeeps(s, i);
    case Prune(gone) => PruneKeeps(s, gone);
    case _ => LeaseEvents(s, ev);
  }

  lemma {:induction false} RunKeepsInv(run: Run, n: nat)
    requires run.Valid() && run.OwnersUninterrupted() && n < |run.states|
    ensures Inv(run.states[n])
  {
    hide Apply;
    hide Enabled;
    if n > 0 {
      RunKeepsInv(run, n - 1);
      assert run.StepAt(n - 1);
      EventKeeps(run.states[n - 1], run.events[n - 1]);
    }
  }

  predicate RefersTo(rows: map<string, SeriesState>, k: string, i: nat) {
    k in rows && rows[k].incidentId == Some(i)
  }

  /** In every state of every such run an unresolved incident is held by exactly one row, the firing row of its own
      series, and a series has at most one unresolved incident. */
  lemma OneIncidentPerSeries(run: Run, n: nat)
    requires run.Valid() && run.OwnersUninterrupted() && n < |run.states|
    ensures var db := run.states[n].db;
            && (forall i :: Unresolved(db, i) ==> db.incidents[i].rule.Some?)
            && (forall i, r, k :: UnresolvedAt(db, i, r, k) ==> r in db.rules && Holds(db.rules[r].rows, k, i))
            && (forall i, r, k, q, l ::
                  UnresolvedAt(db, i, r, k) && q in db.rules && RefersTo(db.rules[q].rows, l, i) ==> q == r && l == k)
            && (forall i, j, r, k :: UnresolvedAt(db, i, r, k) && UnresolvedAt(db, j, r, k) ==> i == j)
  {
    RunKeepsInv(run, n);
    var s := run.states[n];
    forall i | i in s.db.incidents ensures IncidentOk(s, i) {
    }
    forall r | r in s.db.rules ensures RowsOk(s, r, s.db.rules[r].rows) {
    }
  }

  lemma {:induction false} RunKeepsLog(run: Run, n: nat)
    requires run.Valid() && n < |run.states|
    ensures LogOk(run.states[n])
  {
    hide Apply;
    hide Enabled;
    if n > 0 {
      RunKeepsLog(run, n - 1);
      assert run.StepAt(n - 1);
      LogStep(run.states[n - 1], run.events[n - 1]);
    }
  }

  /** The windows a rule commits only move forward, in every interleaving and without any hypothesis on owners. */
  lemma WindowsAdvance(run: Run, n: nat, a: nat, b: nat)
    requires run.Valid() && n < |run.states|
    requires a < b < |run.states[n].log| && run.states[n].log[a].rule == run.states[n].log[b].rule
    ensures run.states[n].log[a].end < run.states[n].log[b].end
  {
    RunKeepsLog(run, n);
  }

  /** The unique index never has to refuse a commit of an uninterrupted owner. */
  lemma IndexNeverRefuses(run: Run, n: nat)
    requires run.Valid() && run.OwnersUninterrupted() && n < |run.events| && run.events[n].Commit?
    requires Enabled(run.states[n], run.events[n]) && run.events[n].rule in run.states[n].db.rules
    requires var s, ev := run.states[n], run.events[n];
             s.flights[(ev.inst, ev.rule)].epoch == s.db.rules[ev.rule].lease.epoch
    ensures !VerdictOf(run.states[n], run.events[n].inst, run.events[n].rule).Conflict?
  {
    RunKeepsInv(run, n);
    var s, ev := run.states[n], run.events[n];
    var f := s.flights[(ev.inst, ev.rule)];
    assert FlightOk(s, ev.inst, ev.rule, f);
    var p := f.plan;
    forall k | k in p ensures EffectOk(s, ev.inst, ev.rule, k, p[k]) {
    }
  }
}
