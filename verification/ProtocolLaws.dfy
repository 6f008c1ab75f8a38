/** What holds in every interleaving whoever owns the leases: disabled rules are quiet, a lease that has not run out
    stays with its holder, and only its holder commits. */
module ProtocolLaws {
  import opened Base
  import opened Plan
  import opened Tables
  import opened TableLaws
  import opened Protocol
  import opened ProtocolSafety

  // ----- disabled rules -----

  /** Only enabled rules have series rows and unresolved incidents. */
  ghost predicate Quiet(db: Db) {
    && (forall r :: r in db.rules && !db.rules[r].enabled ==> db.rules[r].rows == map[])
    && (forall i :: Unresolved(db, i) ==>
          db.incidents[i].rule.Some? && db.incidents[i].rule.value in db.rules
          && db.rules[db.incidents[i].rule.value].enabled)
  }

  lemma EditKeepsQuiet(db: Db, r: RuleId, enabled: bool, changed: bool)
    requires Quiet(db) && r in db.rules
    ensures Quiet(UpdateRule(db, r, enabled, changed))
  {
  }

  lemma DeleteKeepsQuiet(db: Db, r: RuleId)
    requires Quiet(db) && r in db.rules
    ensures Quiet(DeleteRule(db, r))
  {
  }

  lemma IncidentKeepsQuiet(db: Db, i: nat)
    requires Quiet(db) && i in db.incidents
    ensures Quiet(Acknowledge(db, i)) && Quiet(ResolveIncident(db, i))
  {
    hide ResolveIncident;
    ManualResolveIsExact(db, i);
    var t := ResolveIncident(db, i);
    if !db.incidents[i].state.Resolved? {
      forall r | r in t.rules && !t.rules[r].enabled ensures t.rules[r].rows == map[] {
        assert t.rules[r] == db.rules[r].(rows := t.rules[r].rows);
        forall k ensures k !in t.rules[r].rows {
        }
      }
    }
  }

  lemma PruneKeepsQuiet(db: Db, gone: set<nat>)
    requires Quiet(db)
    ensures Quiet(PruneIncidents(db, gone))
  {
  }

  lemma CommitKeepsQuiet(db: Db, inst: Instance, r: RuleId, version: nat, end: Time, p: Plan)
    requires Quiet(db) && CommitVerdict(db, inst, r, version, end, p).Committed?
    ensures r in db.rules && DistinctIds(p) && Quiet(CommitDb(db, r, end, p))
  {
    CommitIsAcceptedExactly(db, inst, r, version, end, p);
    DistinctOpens(db, r, p);
    CommittedRowsAreExact(db, r, end, p);
    var t := CommitDb(db, r, end, p);
    hide CommitDb, CommitVerdict, OpensAreNew;
    forall i | Unresolved(t, i)
      ensures t.incidents[i].rule.Some? && t.incidents[i].rule.value in t.rules
      ensures t.rules[t.incidents[i].rule.value].enabled
    {
      CommittedIncidentsAreExact(db, r, end, p, i);
      if i in db.incidents {
        assert Unresolved(db, i);
      } else {
        var k :| Opens(p, k, i);
      }
    }
  }

  predicate OnlyMovesLeases(ev: Event) {
    !ev.Update? && !ev.SetEnabled? && !ev.Delete? && !ev.Ack? && !ev.ManualResolve? && !ev.Prune? && !ev.Commit?
  }

  /** Incidents, series rows and the enabled flags stay, and rules that are new have no rows. */
  ghost predicate KeepsRules(before: Db, after: Db) {
    && after.incidents == before.incidents && before.rules.Keys <= after.rules.Keys
    && forall r :: r in after.rules ==>
         if r in before.rules
         then after.rules[r].enabled == before.rules[r].enabled && after.rules[r].rows == before.rules[r].rows
         else after.rules[r].rows == map[]
  }

  lemma LeasesKeepRules(s: System, ev: Event)
    requires Enabled(s, ev) && OnlyMovesLeases(ev)
    ensures KeepsRules(s.db, Apply(s, ev).db)
  {
    hide CommitStep;
  }

  lemma RulesKeepQuiet(before: Db, after: Db)
    requires Quiet(before) && KeepsRules(before, after)
    ensures Quiet(after)
  {
    forall i | Unresolved(after, i) ensures Unresolved(before, i) {
    }
  }

  lemma EventKeepsQuiet(s: System, ev: Event)
    requires Quiet(s.db) && Enabled(s, ev)
    ensures Quiet(Apply(s, ev).db)
  {
    hide Quiet, KeepsRules, CommitVerdict, CommitDb, UpdateRule, DeleteRule, ResolveIncident, Acknowledge;
    hide PruneIncidents;
    if OnlyMovesLeases(ev) {
      LeasesKeepRules(s, ev);
      RulesKeepQuiet(s.db, Apply(s, ev).db);
      return;
    }
    match ev
    case Update(r, enabled, changed) => EditKeepsQuiet(s.db, r, enabled, changed);
    case SetEnabled(r, enabled) => EditKeepsQuiet(s.db, r, enabled, false);
    case Delete(r) => DeleteKeepsQuiet(s.db, r);
    case Ack(i) => IncidentKeepsQuiet(s.db, i);
    case ManualResolve(i) => IncidentKeepsQuiet(s.db, i);
    case Prune(gone) => PruneKeepsQuiet(s.db, gone);
    case Commit(inst, r) =>
      var f := s.flights[(inst, r)];
      if VerdictOf(s, inst, r).Committed? {
        CommitKeepsQuiet(s.db, inst, r, f.version, f.end, f.plan);
      }
  }

  /** In every state of every run a rule that is not enabled has no series rows and no unresolved incident, and neither
      has a deleted one. */
  lemma {:induction false} DisabledRulesAreQuiet(run: Run, n: nat)
    requires run.Valid() && n < |run.states|
    ensures Quiet(run.states[n].db)
  {
    hide Apply, Enabled;
    if n > 0 {
      DisabledRulesAreQuiet(run, n - 1);
      assert run.StepAt(n - 1);
      hide Quiet;
      EventKeepsQuiet(run.states[n - 1], run.events[n - 1]);
    }
  }

  // ----- leases -----

  /** A lease that has not run out changes hands only by its holder's own doing, or with the rule. */
  lemma LeaseStaysWithHolder(s: System, ev: Event, inst: Instance, r: RuleId)
    requires Enabled(s, ev) && inst != "" && HoldsLease(s.db, inst, r)
    ensures var t := Apply(s, ev).db;
            (r in t.rules && t.rules[r].lease.owner == inst)
            || ev == Delete(r)
            || (ev == RenewDropped(inst) && !s.db.rules[r].enabled)
            || (ev.Released? && ev.inst == inst && r in ev.picked)
            || ev == Left(inst)
  {
    hide CommitVerdict, CommittedRows, CommittedIncidents;
  }

  /** Whoever claims a lease gets it for exactly the asked time, and a renewal lets it last as long from now. */
  lemma ClaimsAndRenewalsLast(s: System, ev: Event, r: RuleId)
    requires Enabled(s, ev) && r in s.db.rules
    ensures ev.Claimed? ==>
              Apply(s, ev).db.rules[r].lease ==
              if r in ev.picked && s.db.rules[r].enabled
                 && (s.db.rules[r].lease.until.None? || s.db.rules[r].lease.until.value < s.db.now)
              then OwnedBy(s.db.rules[r].lease, ev.inst, Some(s.db.now + ev.ttl)) else s.db.rules[r].lease
    ensures ev.RenewExtended? ==>
              Apply(s, ev).db.rules[r].lease ==
              if s.db.rules[r].lease.owner == ev.inst && s.db.rules[r].enabled
              then s.db.rules[r].lease.(until := Some(s.db.now + ev.ttl)) else s.db.rules[r].lease
    ensures ev.Released? ==>
              Apply(s, ev).db.rules[r].lease ==
              if r in ev.picked && s.db.rules[r].lease.owner == ev.inst then OwnedBy(s.db.rules[r].lease, "", None)
              else s.db.rules[r].lease
    ensures ev.Left? ==>
              Apply(s, ev).db.rules[r].lease ==
              if s.db.rules[r].lease.owner == ev.inst then OwnedBy(s.db.rules[r].lease, "", None)
              else s.db.rules[r].lease
  {
  }

  /** A change set takes effect only while its instance holds the lease, and only one that was planned for the rule as
      it is now. */
  lemma OnlyHoldersCommit(run: Run, n: nat)
    requires run.Valid() && n < |run.events| && run.events[n].Commit?
    ensures var s, ev := run.states[n], run.events[n];
            run.StepAt(n) && (ev.inst, ev.rule) in s.flights
            && (run.states[n + 1].db != s.db ==>
                  && HoldsLease(s.db, ev.inst, ev.rule)
                  && s.db.rules[ev.rule].enabled && s.db.rules[ev.rule].version ==
                       s.flights[(ev.inst, ev.rule)].version)
  {
    assert run.StepAt(n);
    var s, ev := run.states[n], run.events[n];
    var f := s.flights[(ev.inst, ev.rule)];
    CommitIsAcceptedExactly(s.db, ev.inst, ev.rule, f.version, f.end, f.plan);
    hide CommitVerdict, CommitDb;
  }
}
