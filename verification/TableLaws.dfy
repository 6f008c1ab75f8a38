/** What each transaction does to the tables, column by column, stated from the tables before it. */
module TableLaws {
  import opened Base
  import opened Series
  import opened Plan
  import opened Tables

  /** Rules, leases and rows other than those of rule `r` are as they were. */
  ghost predicate OnlyRule(before: Db, after: Db, r: RuleId) {
    && after.now == before.now
    && (forall q :: q != r ==> (q in after.rules <==> q in before.rules))
    && (forall q :: q != r && q in before.rules && q in after.rules ==> after.rules[q] == before.rules[q])
  }

  /** Exactly the incidents of rule `r` are resolved. */
  predicate RuleResolved(before: Db, after: Db, r: RuleId) {
    && after.incidents.Keys == before.incidents.Keys
    && forall i :: i in before.incidents ==>
         after.incidents[i] ==
         if before.incidents[i].rule == Some(r) then before.incidents[i].(state := Resolved) else before.incidents[i]
  }

  /** An edit sets `enabled` and raises the version by one. When the condition changed or the rule went from enabled to
      disabled it resolves every incident of the rule and removes its rows; otherwise it leaves both as they were. */
  ghost predicate Edited(before: Db, after: Db, r: RuleId, enabled: bool, changed: bool) {
    && r in before.rules && r in after.rules && OnlyRule(before, after, r)
    && var was, e := before.rules[r], after.rules[r];
       && e.enabled == enabled && e.version == was.version + 1 && e.lease == was.lease
       && if changed || (was.enabled && !enabled) then e.rows == map[] && RuleResolved(before, after, r)
          else e.rows == was.rows && after.incidents == before.incidents
  }

  lemma EditIsExact(db: Db, r: RuleId, enabled: bool, changed: bool)
    requires r in db.rules
    ensures Edited(db, UpdateRule(db, r, enabled, changed), r, enabled, changed)
  {
  }

  /** Switching a rule on or off is an edit that changes nothing else, and nothing at all when it already is so. */
  lemma SwitchIsExact(db: Db, r: RuleId, enabled: bool)
    requires r in db.rules
    ensures if db.rules[r].enabled == enabled then SetRuleEnabled(db, r, enabled) == db
            else Edited(db, SetRuleEnabled(db, r, enabled), r, enabled, false)
  {
    if db.rules[r].enabled != enabled {
      EditIsExact(db, r, enabled, false);
    }
  }

  /** A deleted rule is gone with its rows; its incidents stay, resolved and without the rule. */
  ghost predicate Deleted(before: Db, after: Db, r: RuleId) {
    && OnlyRule(before, after, r) && r !in after.rules && after.incidents.Keys == before.incidents.Keys
    && forall i :: i in before.incidents ==>
         after.incidents[i] == if before.incidents[i].rule == Some(r)
                               then before.incidents[i].(state := Resolved, rule := None) else before.incidents[i]
  }

  lemma DeleteIsExact(db: Db, r: RuleId)
    requires r in db.rules
    ensures Deleted(db, DeleteRule(db, r), r)
  {
  }

  /** An acknowledge changes the state of one open incident. */
  lemma AcknowledgeIsExact(db: Db, i: nat)
    requires i in db.incidents
    ensures var t := Acknowledge(db, i);
            && t.now == db.now && t.rules == db.rules && t.incidents.Keys == db.incidents.Keys
            && (forall j :: j in db.incidents && j != i ==> t.incidents[j] == db.incidents[j])
            && t.incidents[i] ==
               if db.incidents[i].state.Open? then db.incidents[i].(state := Acknowledged) else db.incidents[i]
  {
  }

  /** A manual resolve changes one incident and removes exactly the rows of its rule that refer to it. */
  ghost predicate ManuallyResolved(before: Db, after: Db, i: nat) {
    && i in before.incidents && after.now == before.now && after.incidents.Keys == before.incidents.Keys
    && after.incidents[i] == before.incidents[i].(state := Resolved)
    && (forall j :: j in before.incidents && j != i ==> after.incidents[j] == before.incidents[j])
    && after.rules.Keys == before.rules.Keys
    && forall r :: r in before.rules ==>
         var was, e := before.rules[r], after.rules[r];
         && e == was.(rows := e.rows)
         && forall k ::
              && (k in e.rows <==>
                    k in was.rows && !(before.incidents[i].rule == Some(r) && was.rows[k].incidentId == Some(i)))
              && (k in e.rows ==> e.rows[k] == was.rows[k])
  }

  lemma ManualResolveIsExact(db: Db, i: nat)
    requires i in db.incidents
    ensures if db.incidents[i].state.Resolved? then ResolveIncident(db, i) == db
            else ManuallyResolved(db, ResolveIncident(db, i), i)
  {
  }

  // ----- commits -----

  /** The instance holds the rule's lease, and it has not run out. */
  predicate HoldsLease(db: Db, inst: Instance, r: RuleId) {
    && r in db.rules && db.rules[r].lease.owner == inst
    && db.rules[r].lease.until.Some? && db.now < db.rules[r].lease.until.value
  }

  predicate Advances(db: Db, r: RuleId, end: Time)
    requires r in db.rules
  {
    db.rules[r].lease.lastEnd.Some? ==> db.rules[r].lease.lastEnd.value < end
  }

  /** Every incident it opens is new, different from the others, and the only unresolved one of its series. */
  ghost predicate OpensAreNew(db: Db, r: RuleId, p: Plan) {
    forall k :: k in p && p[k].opens.Some? ==>
      && p[k].opens.value.id !in db.incidents
      && (forall l :: l in p && l != k && p[l].opens.Some? ==> p[l].opens.value.id != p[k].opens.value.id)
      && (forall i :: i in db.incidents && db.incidents[i].rule == Some(r) && db.incidents[i].key == k ==>
            db.incidents[i].state.Resolved?)
  }

  /** Every row it writes refers to a stored incident, to one it opens, or to none. */
  predicate RowsRefer(db: Db, p: Plan) {
    forall k :: k in p && p[k].write.Some? && p[k].write.value.incidentId.Some? && p[k].opens.None? ==>
      p[k].write.value.incidentId.value in db.incidents
  }

  /** A commit is accepted exactly by the holder of a lease that has not run out, for a later window, of the rule as it
      was loaded and still enabled, with new incidents and rows that refer to stored ones. */
  lemma CommitIsAcceptedExactly(db: Db, inst: Instance, r: RuleId, version: nat, end: Time, p: Plan)
    ensures CommitVerdict(db, inst, r, version, end, p).Committed? <==>
            && HoldsLease(db, inst, r) && Advances(db, r, end)
            && db.rules[r].version == version && db.rules[r].enabled
            && OpensAreNew(db, r, p) && RowsRefer(db, p)
    ensures CommitVerdict(db, inst, r, version, end, p).LeaseLost? <==> !HoldsLease(db, inst, r)
    ensures CommitVerdict(db, inst, r, version, end, p).Stale? <==> HoldsLease(db, inst, r) && !Advances(db, r, end)
    ensures CommitVerdict(db, inst, r, version, end, p).Outdated? <==>
            && HoldsLease(db, inst, r) && Advances(db, r, end)
            && !(db.rules[r].version == version && db.rules[r].enabled)
  {
    IndexRefusesExactly(db, r, p);
    hide IndexRefuses, OpensAreNew;
  }

  lemma IndexRefusesExactly(db: Db, r: RuleId, p: Plan)
    ensures IndexRefuses(db, r, p) <==> !OpensAreNew(db, r, p)
  {
    if OpensAreNew(db, r, p) {
      if k, i :| k in p && p[k].opens.Some? && UnresolvedAt(db, i, r, k) {
        assert false;
      }
    } else {
      var k :| k in p && p[k].opens.Some? && !(
        && p[k].opens.value.id !in db.incidents
        && (forall l :: l in p && l != k && p[l].opens.Some? ==> p[l].opens.value.id != p[k].opens.value.id)
        && (forall i :: i in db.incidents && db.incidents[i].rule == Some(r) && db.incidents[i].key == k ==>
              db.incidents[i].state.Resolved?));
      if i :| i in db.incidents && db.incidents[i].rule == Some(r) && db.incidents[i].key == k
              && !db.incidents[i].state.Resolved? {
        assert UnresolvedAt(db, i, r, k);
      }
    }
  }

  lemma DistinctOpens(db: Db, r: RuleId, p: Plan)
    requires OpensAreNew(db, r, p)
    ensures DistinctIds(p)
  {
    forall k, l | k in p && l in p && p[k].opens.Some? && p[l].opens.Some? && k != l
      ensures p[k].opens.value.id != p[l].opens.value.id
    {
    }
  }

  /** An accepted commit notes the window and, series by series, writes or removes the row as the change set says,
      without the loaded copy of the incident. Other rules stay as they were. */
  lemma CommittedRowsAreExact(db: Db, r: RuleId, end: Time, p: Plan)
    requires r in db.rules && DistinctIds(p)
    ensures OnlyRule(db, CommitDb(db, r, end, p), r) && r in CommitDb(db, r, end, p).rules
    ensures var was, e := db.rules[r], CommitDb(db, r, end, p).rules[r];
            && e == was.(rows := e.rows, lease := was.lease.(lastEnd := Some(end)))
            && forall k ::
                 if k in p && p[k].write.Some? then k in e.rows && e.rows[k] == p[k].write.value.(incident := None)
                 else if k in p && p[k].remove then k !in e.rows
                 else (k in e.rows <==> k in was.rows) && (k in e.rows ==> e.rows[k] == was.rows[k])
  {
    hide CommittedIncidents;
  }

  /** Of the incidents it inserts those opened, for the series that opens them and with their channels, resolves those
      named and marks those that flap. Others stay as they were. */
  lemma CommittedIncidentsAreExact(db: Db, r: RuleId, end: Time, p: Plan, i: nat)
    requires r in db.rules && OpensAreNew(db, r, p) && DistinctIds(p)
    ensures var after := CommitDb(db, r, end, p).incidents;
            && (i in after <==> i in db.incidents || exists k :: Opens(p, k, i))
            && (i in db.incidents ==> after[i] == Updated(p, i, db.incidents[i]))
            && (forall k :: Opens(p, k, i) ==>
                  after[i] == Updated(p, i, IncidentRow(Some(r), k, Open, p[k].opens.value.channels, false)))
  {
    hide CommittedRows;
    UpdatedIsMarked(p, i);
    if i in OpenedIds(p) {
      assert Opens(p, OpenerOf(p, i), i);
    }
    hide Marked, Updated;
  }

  predicate Opens(p: Plan, k: string, i: nat) {
    k in p && p[k].opens.Some? && p[k].opens.value.id == i
  }

  function Updated(p: Plan, i: nat, row: IncidentRow): IncidentRow {
    row.(state := if Named(p, i) then Resolved else row.state, flapping := row.flapping || Marks(p, i))
  }

  lemma UpdatedIsMarked(p: Plan, i: nat)
    ensures forall row :: Marked(p, i, row) == Updated(p, i, row)
  {
    assert Named(p, i) <==> i in ResolvedIds(p);
    assert Marks(p, i) <==> i in FlappingIds(p);
  }

  predicate Named(p: Plan, i: nat) {
    exists k :: k in p && p[k].resolves.Some? && p[k].resolves.value.id == i
  }

  predicate Marks(p: Plan, i: nat) {
    exists k :: k in p && p[k].flapping.Some? && p[k].flapping.value == i
  }

  // ----- loading and pruning -----

  /** Loaded rows are the stored ones with what is stored of their incidents, if it still is. */
  lemma JoinedIsExact(db: Db, rows: map<string, SeriesState>, k: string)
    requires k in rows
    ensures var row := Joined(db, rows)[k];
            && row.(incident := rows[k].incident) == rows[k]
            && (row.incident.Some? <==> rows[k].incidentId.Some? && rows[k].incidentId.value in db.incidents)
            && (row.incident.Some? ==>
                  var i := rows[k].incidentId.value;
                  row.incident.value == Incident(i, db.incidents[i].state, db.incidents[i].channels,
                                                 db.incidents[i].flapping))
  {
  }

  /** Pruning removes resolved incidents only, and rows lose no more than the reference to one. */
  lemma PruneIsExact(db: Db, gone: set<nat>)
    ensures var t := PruneIncidents(db, gone);
            && t.now == db.now && t.rules.Keys == db.rules.Keys
            && (forall i :: i in t.incidents <==> i in db.incidents && !(i in gone && db.incidents[i].state.Resolved?))
            && (forall i :: i in t.incidents ==> t.incidents[i] == db.incidents[i])
            && forall r :: r in db.rules ==>
                 && t.rules[r].rows.Keys == db.rules[r].rows.Keys && t.rules[r] == db.rules[r].(rows := t.rules[r].rows)
                 && forall k :: k in db.rules[r].rows ==>
                      var was, row := db.rules[r].rows[k], t.rules[r].rows[k];
                      && row == was.(incidentId := row.incidentId)
                      && row.incidentId ==
                         if was.incidentId.Some? && was.incidentId.value in db.incidents && was.incidentId.value in gone
                            && db.incidents[was.incidentId.value].state.Resolved?
                         then None else was.incidentId
  {
  }
}
