/** Evaluators, lease managers and API calls interleaved statement by statement over the tables. */
module Protocol {
  import opened Base
  import opened Series
  import opened Plan
  import opened Tables

  /** An evaluation in flight between its first query and its commit. `epoch` is the lease epoch when the series
      rows were read. */
  datatype Flight =
    | RuleLoaded(version: nat, end: Time)
    | RowsLoaded(version: nat, end: Time, epoch: nat, rows: map<string, SeriesState>)
    | Planned(version: nat, end: Time, epoch: nat, plan: Plan)

  /** Who drew an incident id, and for which series. */
  datatype Draw = Draw(instance: Instance, rule: RuleId, key: string)

  datatype LogEntry = LogEntry(rule: RuleId, end: Time)

  datatype System = System(
    db: Db,
    flights: map<(Instance, RuleId), Flight>,
    drawn: map<nat, Draw>,
    retired: set<RuleId>,
    log: seq<LogEntry>
  )

  datatype Event =
    | Advance(to: Time)
    | CreateRule(rule: RuleId, enabled: bool)
    | RenewDropped(inst: Instance)
    | RenewExtended(inst: Instance, ttl: int)
    | Claimed(inst: Instance, picked: set<RuleId>, ttl: int)
    | Released(inst: Instance, picked: set<RuleId>)
    | Left(inst: Instance)
    | LoadRule(inst: Instance, rule: RuleId, end: Time)
    | LoadRows(inst: Instance, rule: RuleId)
    | MakePlan(inst: Instance, rule: RuleId, input: PlanInput, ids: map<nat, string>)
    | EvaluationFailed(inst: Instance, rule: RuleId)
    | Commit(inst: Instance, rule: RuleId)
    | Abandon(inst: Instance, rule: RuleId)
    | Update(rule: RuleId, enabled: bool, changed: bool)
    | SetEnabled(rule: RuleId, enabled: bool)
    | Delete(rule: RuleId)
    | Ack(incident: nat)
    | ManualResolve(incident: nat)
    | Prune(gone: set<nat>)

  function FlightOf(s: System, inst: Instance, r: RuleId): Option<Flight> {
    if (inst, r) in s.flights then Some(s.flights[(inst, r)]) else None
  }

  ghost predicate Enabled(s: System, ev: Event) {
    match ev
    case Advance(to) => s.db.now <= to
    case CreateRule(r, _) => r !in s.db.rules && r !in s.retired
    case RenewDropped(inst) => inst != ""
    case RenewExtended(inst, _) => inst != ""
    case Claimed(inst, _, _) => inst != ""
    case Released(inst, _) => inst != ""
    case Left(inst) => inst != ""
    // The running guard of an evaluator admits one evaluation of a rule at a time.
    case LoadRule(inst, r, _) => inst != "" && r in s.db.rules && (inst, r) !in s.flights
    case LoadRows(inst, r) => FlightOf(s, inst, r).Some? && s.flights[(inst, r)].RuleLoaded? && r in s.db.rules
    case MakePlan(inst, r, input, ids) =>
      && FlightOf(s, inst, r).Some? && s.flights[(inst, r)].RowsLoaded?
      && input.states == Joined(s.db, s.flights[(inst, r)].rows)
      && input.end == s.flights[(inst, r)].end
      && ids.Keys !! s.drawn.Keys
      && forall k :: k in input.Keys() ==> input.newIds(k) in ids && ids[input.newIds(k)] == k
    case EvaluationFailed(inst, r) => FlightOf(s, inst, r).Some? && !s.flights[(inst, r)].Planned?
    case Commit(inst, r) => FlightOf(s, inst, r).Some? && s.flights[(inst, r)].Planned?
    case Abandon(inst, r) => FlightOf(s, inst, r).Some?
    case Update(r, _, _) => r in s.db.rules
    case SetEnabled(r, _) => r in s.db.rules
    case Delete(r) => r in s.db.rules
    case Ack(i) => i in s.db.incidents
    case ManualResolve(i) => i in s.db.incidents
    case Prune(_) => true
  }

  function PlanEpoch(f: Flight): nat {
    if f.RuleLoaded? then 0 else f.epoch
  }

  ghost function VerdictOf(s: System, inst: Instance, r: RuleId): Verdict
    requires (inst, r) in s.flights && s.flights[(inst, r)].Planned?
  {
    var f := s.flights[(inst, r)];
    CommitVerdict(s.db, inst, r, f.version, f.end, f.plan)
  }

  /** A commit that is refused, for whatever reason, changes nothing. */
  ghost function CommitStep(s: System, inst: Instance, r: RuleId): System
    requires (inst, r) in s.flights && s.flights[(inst, r)].Planned?
  {
    var f := s.flights[(inst, r)];
    var after := s.(flights := s.flights - {(inst, r)});
    if VerdictOf(s, inst, r).Committed?
    then after.(db := CommitDb(s.db, r, f.end, f.plan), log := s.log + [LogEntry(r, f.end)])
    else after
  }

  ghost function Apply(s: System, ev: Event): System
    requires Enabled(s, ev)
  {
    match ev
    case Advance(to) => s.(db := s.db.(now := to))
    case CreateRule(r, enabled) =>
      s.(db := s.db.(rules := s.db.rules[r := RuleEntry(1, enabled, Lease("", None, None, 0), map[])]))
    case RenewDropped(inst) => s.(db := RenewDrop(s.db, inst))
    case RenewExtended(inst, ttl) => s.(db := RenewExtend(s.db, inst, ttl))
    case Claimed(inst, picked, ttl) => s.(db := Claim(s.db, inst, picked, ttl))
    case Released(inst, picked) => s.(db := Release(s.db, inst, picked))
    case Left(inst) => s.(db := Leave(s.db, inst))
    case LoadRule(inst, r, end) => s.(flights := s.flights[(inst, r) := RuleLoaded(s.db.rules[r].version, end)])
    case LoadRows(inst, r) =>
      var f := s.flights[(inst, r)];
      s.(flights := s.flights[(inst, r) := RowsLoaded(f.version, f.end, s.db.rules[r].lease.epoch, s.db.rules[r].rows)])
    case MakePlan(inst, r, input, ids) =>
      var f := s.flights[(inst, r)];
      s.(flights := s.flights[(inst, r) := Planned(f.version, f.end, f.epoch, PlanOf(input))],
      drawn := s.drawn + map i | i in ids :: Draw(inst, r, ids[i]))
    case EvaluationFailed(inst, r) =>
      var f := s.flights[(inst, r)];
      s.(flights := s.flights[(inst, r) := Planned(f.version, f.end, PlanEpoch(f), map[])])
    case Commit(inst, r) => CommitStep(s, inst, r)
    case Abandon(inst, r) => s.(flights := s.flights - {(inst, r)})
    case Update(r, enabled, changed) => s.(db := UpdateRule(s.db, r, enabled, changed))
    case SetEnabled(r, enabled) => s.(db := SetRuleEnabled(s.db, r, enabled))
    case Delete(r) => s.(db := DeleteRule(s.db, r), retired := s.retired + {r})
    case Ack(i) => s.(db := Acknowledge(s.db, i))
    case ManualResolve(i) => s.(db := ResolveIncident(s.db, i))
    case Prune(gone) => s.(db := PruneIncidents(s.db, gone))
  }

  /** The hypothesis on commits: a change set that touches series is accepted only if the lease did not change
      hands between reading the series rows and committing. Commits fence on the instance name alone. */
  ghost predicate Uninterrupted(s: System, ev: Event)
    requires Enabled(s, ev)
  {
    ev.Commit? && VerdictOf(s, ev.inst, ev.rule).Committed? ==>
      var f := s.flights[(ev.inst, ev.rule)];
      f.plan == map[] || f.epoch == s.db.rules[ev.rule].lease.epoch
  }

  // ----- invariants -----

  predicate RefOk(s: System, i: nat, r: RuleId, k: string) {
    i in s.drawn && s.drawn[i].rule == r && s.drawn[i].key == k
  }

  predicate RowsOk(s: System, r: RuleId, rows: map<string, SeriesState>) {
    forall k :: k in rows && rows[k].incidentId.Some? ==> RefOk(s, rows[k].incidentId.value, r, k)
  }

  predicate IncidentOk(s: System, i: nat)
    requires i in s.db.incidents
  {
    var inc := s.db.incidents[i];
    && i in s.drawn && inc.key == s.drawn[i].key
    && (inc.rule.Some? ==> inc.rule.value == s.drawn[i].rule && inc.rule.value in s.db.rules)
    && (!inc.state.Resolved? ==> inc.rule.Some?)
  }

  predicate Holds(rows: map<string, SeriesState>, k: string, i: nat) {
    k in rows && rows[k].incidentId == Some(i) && rows[k].phase.Firing?
  }

  /** An unresolved incident is the one its series' firing row refers to. */
  ghost predicate Covered(db: Db) {
    forall i, r, k :: UnresolvedAt(db, i, r, k) ==> r in db.rules && Holds(db.rules[r].rows, k, i)
  }

  predicate Live(s: System, inst: Instance, r: RuleId, f: Flight) {
    && r in s.db.rules && f.version == s.db.rules[r].version
    && s.db.rules[r].lease.owner == inst && s.db.rules[r].lease.epoch == PlanEpoch(f)
  }

  ghost predicate RowsSee(db: Db, r: RuleId, rows: map<string, SeriesState>) {
    forall i, k :: UnresolvedAt(db, i, r, k) ==> Holds(rows, k, i)
  }

  predicate Keeps(e: Effect, i: nat) {
    e.write.Some? && e.write.value.incidentId == Some(i) && e.write.value.phase.Firing?
  }

  ghost predicate PlanSees(db: Db, r: RuleId, p: Plan) {
    forall i, k :: UnresolvedAt(db, i, r, k) && k in p ==>
      p[k].opens.None? && (Keeps(p[k], i) || (p[k].resolves.Some? && p[k].resolves.value.id == i))
  }

  predicate EffectOk(s: System, inst: Instance, r: RuleId, k: string, e: Effect) {
    && (e.opens.Some? ==>
          var i := e.opens.value.id;
          i in s.drawn && s.drawn[i] == Draw(inst, r, k) && i !in s.db.incidents && Keeps(e, i) && e.resolves.None?)
    && (e.opens.None? && e.write.Some? && e.write.value.incidentId.Some? ==>
         RefOk(s, e.write.value.incidentId.value, r, k))
    && (e.resolves.Some? ==> RefOk(s, e.resolves.value.id, r, k))
  }

  predicate PlanOk(s: System, inst: Instance, r: RuleId, p: Plan) {
    forall k :: k in p ==> EffectOk(s, inst, r, k, p[k])
  }

  ghost predicate FlightOk(s: System, inst: Instance, r: RuleId, f: Flight) {
    && inst != "" && (r in s.db.rules || r in s.retired)
    && (r in s.db.rules ==> f.version <= s.db.rules[r].version && PlanEpoch(f) <= s.db.rules[r].lease.epoch)
    && match f
    case RuleLoaded(_, _) => true
    case RowsLoaded(_, _, _, rows) => RowsOk(s, r, rows) && (Live(s, inst, r, f) ==> RowsSee(s.db, r, rows))
    case Planned(_, _, _, p) => PlanOk(s, inst, r, p) && (Live(s, inst, r, f) ==> PlanSees(s.db, r, p))
  }

  ghost predicate FlightsOk(s: System) {
    forall a :: a in s.flights ==> FlightOk(s, a.0, a.1, s.flights[a])
  }

  ghost predicate LogOk(s: System) {
    && (forall a, b :: 0 <= a < b < |s.log| && s.log[a].rule == s.log[b].rule ==> s.log[a].end < s.log[b].end)
    && (forall a :: 0 <= a < |s.log| ==>
          var r := s.log[a].rule;
          && (r in s.db.rules || r in s.retired)
          && (r in s.db.rules ==>
                && s.db.rules[r].lease.lastEnd.Some?
                && s.log[a].end <= s.db.rules[r].lease.lastEnd.value))
  }

  ghost predicate TablesOk(s: System) {
    && (forall r :: r in s.db.rules ==> r !in s.retired && RowsOk(s, r, s.db.rules[r].rows))
    && (forall i :: i in s.db.incidents ==> IncidentOk(s, i))
    && Covered(s.db)
  }

  ghost predicate Inv(s: System) {
    TablesOk(s) && FlightsOk(s) && LogOk(s)
  }

  // ----- what flights keep while the tables change under them -----

  /** Changes that only resolve incidents, edit rules forward and move leases forward. */
  ghost predicate Calmer(s: System, t: System) {
    && t.flights == s.flights && t.drawn == s.drawn && s.retired <= t.retired
    && (forall i :: i in t.db.incidents ==> i in s.db.incidents)
    && (forall i, r, k :: UnresolvedAt(t.db, i, r, k) ==> UnresolvedAt(s.db, i, r, k))
    && (forall r :: r in s.db.rules ==> r in t.db.rules || r in t.retired)
    && (forall r :: r in t.db.rules ==>
          && r in s.db.rules && s.db.rules[r].version <= t.db.rules[r].version
          && s.db.rules[r].lease.epoch <= t.db.rules[r].lease.epoch
          && (s.db.rules[r].lease.epoch == t.db.rules[r].lease.epoch ==>
               s.db.rules[r].lease.owner == t.db.rules[r].lease.owner))
  }

  lemma CalmerKeepsFlights(s: System, t: System)
    requires FlightsOk(s) && Calmer(s, t)
    ensures FlightsOk(t)
  {
    forall a | a in t.flights
      ensures FlightOk(t, a.0, a.1, t.flights[a])
    {
      assert FlightOk(s, a.0, a.1, s.flights[a]);
      CalmerKeepsFlight(s, t, a.0, a.1, s.flights[a]);
    }
  }

  lemma CalmerKeepsFlight(s: System, t: System, inst: Instance, r: RuleId, f: Flight)
    requires FlightOk(s, inst, r, f) && Calmer(s, t)
    ensures FlightOk(t, inst, r, f)
  {
    match f
    case RuleLoaded(_, _) =>
    case RowsLoaded(_, _, _, rows) =>
      assert RowsOk(t, r, rows);
      assert Live(t, inst, r, f) ==> Live(s, inst, r, f);
    case Planned(_, _, _, p) =>
      forall k | k in p
        ensures EffectOk(t, inst, r, k, p[k])
      {
        assert EffectOk(s, inst, r, k, p[k]);
      }
      assert Live(t, inst, r, f) ==> Live(s, inst, r, f);
  }

  // ----- what a change set does to a series with an unresolved incident -----

  lemma NextRowIncident(inp: PlanInput, k: string)
    ensures var o, row := Outcome(inp, k), NextRow(inp, k);
            && row.phase == o.next.phase
            && row.incidentId == if o.open then Some(inp.newIds(k)) else o.next.incidentId
  {
    hide Step;
  }

  lemma EffectFacts(inp: PlanInput, k: string)
    requires k in inp.Keys()
    ensures var e := EffectOf(inp, k);
            && (e.opens.Some? ==> e.opens.value.id == inp.newIds(k) && Keeps(e, inp.newIds(k)) && e.resolves.None?)
            && (e.opens.None? && e.write.Some? && e.write.value.incidentId.Some? ==>
                  k in inp.states && e.write.value.incidentId == inp.states[k].incidentId)
            && (e.resolves.Some? ==> k in inp.states && inp.states[k].incidentId == Some(e.resolves.value.id))
  {
    hide Step;
    hide NextRow;
    IncidentStep(Previous(inp, k), InputFor(inp, k), inp.cfg);
    NextRowIncident(inp, k);
  }

  /** A firing row with a live incident is either resolved or written back firing with the same incident. */
  lemma LiveEffect(inp: PlanInput, k: string, i: nat)
    requires Holds(inp.states, k, i) && inp.states[k].incident.Some? && !inp.states[k].incident.value.state.Resolved?
    ensures var e := EffectOf(inp, k);
            e.opens.None? && (Keeps(e, i) || (e.resolves.Some? && e.resolves.value.id == i))
  {
    hide Step;
    hide NextRow;
    IncidentStep(Previous(inp, k), InputFor(inp, k), inp.cfg);
    NextRowIncident(inp, k);
  }
}
