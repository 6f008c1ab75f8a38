/** The PostgreSQL tables of the alerting engine and the effect of every statement or transaction on them
    (internal/alert/pgstore_eval.go, internal/alert/pgstore_api.go). A rule's lease and series rows cascade with
    the rule and are kept with it. */
module Tables {
  import opened Base
  import opened Series
  import opened Plan

  type RuleId = string
  type Instance = string

  /** `owner` is empty and `until` `None` (minus infinity) while nobody holds the lease. `epoch` is not a column:
      it counts the changes of `owner`. */
  datatype Lease = Lease(owner: Instance, until: Option<Time>, lastEnd: Option<Time>, epoch: nat)

  datatype RuleEntry = RuleEntry(version: nat, enabled: bool, lease: Lease, rows: map<string, SeriesState>)

  /** `rule` is `None` once the rule was deleted. */
  datatype IncidentRow = IncidentRow(rule: Option<RuleId>, key: string, state: IncidentState, channels: seq<string>,
      flapping: bool)

  datatype Db = Db(now: Time, rules: map<RuleId, RuleEntry>, incidents: map<nat, IncidentRow>)

  predicate Unresolved(db: Db, i: nat) {
    i in db.incidents && !db.incidents[i].state.Resolved?
  }

  predicate UnresolvedAt(db: Db, i: nat, r: RuleId, k: string) {
    Unresolved(db, i) && db.incidents[i].rule == Some(r) && db.incidents[i].key == k
  }

  // ----- leases -----

  predicate Before(until: Option<Time>, now: Time) {
    until.None? || until.value < now
  }

  function OwnedBy(l: Lease, owner: Instance, until: Option<Time>): Lease {
    l.(owner := owner, until := until, epoch := if owner == l.owner then l.epoch else l.epoch + 1)
  }

  function Freed(e: RuleEntry): RuleEntry {
    e.(lease := OwnedBy(e.lease, "", None))
  }

  /** Renew, first statement: leases of disabled rules are given up. */
  function RenewDrop(db: Db, inst: Instance): Db {
    db.(rules := map r | r in db.rules ::
          if db.rules[r].lease.owner == inst && !db.rules[r].enabled then Freed(db.rules[r]) else db.rules[r])
  }

  /** Renew, second statement: the others are extended, expired or not. */
  function RenewExtend(db: Db, inst: Instance, ttl: int): Db {
    db.(rules := map r | r in db.rules ::
          if db.rules[r].lease.owner == inst && db.rules[r].enabled
          then db.rules[r].(lease := db.rules[r].lease.(until := Some(db.now + ttl)))
          else db.rules[r])
  }

  predicate Claimable(db: Db, r: RuleId) {
    r in db.rules && db.rules[r].enabled && Before(db.rules[r].lease.until, db.now)
  }

  function Claim(db: Db, inst: Instance, picked: set<RuleId>, ttl: int): Db {
    db.(rules := map r | r in db.rules ::
          if r in picked && Claimable(db, r)
          then db.rules[r].(lease := OwnedBy(db.rules[r].lease, inst, Some(db.now + ttl)))
          else db.rules[r])
  }

  function Release(db: Db, inst: Instance, picked: set<RuleId>): Db {
    db.(rules := map r | r in db.rules ::
          if r in picked && db.rules[r].lease.owner == inst then Freed(db.rules[r]) else db.rules[r])
  }

  function Leave(db: Db, inst: Instance): Db {
    Release(db, inst, db.rules.Keys)
  }

  // ----- loading -----

  /** The second query of a load: the incidents the loaded rows refer to. */
  function Joined(db: Db, rows: map<string, SeriesState>): (joined: map<string, SeriesState>)
    ensures joined.Keys == rows.Keys
  {
    map k | k in rows :: rows[k].(incident :=
        if rows[k].incidentId.Some? && rows[k].incidentId.value in db.incidents
        then
          var i := rows[k].incidentId.value;
          Some(Incident(i, db.incidents[i].state, db.incidents[i].channels, db.incidents[i].flapping))
        else None)
  }

  // ----- committing an evaluation -----

  datatype Verdict = Committed | LeaseLost | Stale | Outdated | Conflict | Dangling

  /** The partial unique index on unresolved incidents, and the primary key. */
  ghost predicate IndexRefuses(db: Db, r: RuleId, p: Plan) {
    || !DistinctIds(p)
    || (exists k :: k in p && p[k].opens.Some? && p[k].opens.value.id in db.incidents)
    || (exists k, i :: k in p && p[k].opens.Some? && UnresolvedAt(db, i, r, k))
  }

  /** The foreign key from series rows to incidents. */
  predicate RefersToMissing(db: Db, p: Plan) {
    exists k :: k in p && p[k].write.Some? && p[k].write.value.incidentId.Some? && p[k].opens.None? &&
      p[k].write.value.incidentId.value !in db.incidents
  }

  ghost function CommitVerdict(db: Db, inst: Instance, r: RuleId, version: nat, end: Time, p: Plan): Verdict {
    if r !in db.rules then LeaseLost
    else
      var e := db.rules[r];
      if e.lease.owner != inst || e.lease.until.None? || e.lease.until.value <= db.now then LeaseLost
      else if e.lease.lastEnd.Some? && end <= e.lease.lastEnd.value then Stale
      else if e.version != version || !e.enabled then Outdated
      else if IndexRefuses(db, r, p) then Conflict
      else if RefersToMissing(db, p) then Dangling
      else Committed
  }

  function OpenedIds(p: Plan): set<nat> {
    set k | k in p && p[k].opens.Some? :: p[k].opens.value.id
  }

  function ResolvedIds(p: Plan): set<nat> {
    set k | k in p && p[k].resolves.Some? :: p[k].resolves.value.id
  }

  function FlappingIds(p: Plan): set<nat> {
    set k | k in p && p[k].flapping.Some? :: p[k].flapping.value
  }

  /** The series that opens incident `i`. */
  function OpenerOf(p: Plan, i: nat): (k: string)
    requires i in OpenedIds(p) && DistinctIds(p)
    ensures k in p && p[k].opens.Some? && p[k].opens.value.id == i
  {
    var k :| k in p && p[k].opens.Some? && p[k].opens.value.id == i;
    k
  }

  predicate DistinctIds(p: Plan) {
    forall k, l :: k in p && l in p && p[k].opens.Some? && p[l].opens.Some? && k != l ==>
      p[k].opens.value.id != p[l].opens.value.id
  }

  function Marked(p: Plan, i: nat, row: IncidentRow): IncidentRow {
    var resolved := if i in ResolvedIds(p) then row.(state := Resolved) else row;
    if i in FlappingIds(p) then resolved.(flapping := true) else resolved
  }

  function InsertedRow(r: RuleId, p: Plan, i: nat): IncidentRow
    requires i in OpenedIds(p) && DistinctIds(p)
  {
    var k := OpenerOf(p, i);
    IncidentRow(Some(r), k, Open, p[k].opens.value.channels, false)
  }

  function CommittedIncidents(incidents: map<nat, IncidentRow>, r: RuleId, p: Plan): map<nat, IncidentRow>
    requires DistinctIds(p)
  {
    map i | i in incidents.Keys + OpenedIds(p) ::
        Marked(p, i, if i in OpenedIds(p) then InsertedRow(r, p, i) else incidents[i])
  }

  function CommittedRows(rows: map<string, SeriesState>, p: Plan): map<string, SeriesState> {
    map k | k in rows.Keys + p.Keys && (k in p ==> p[k].write.Some? || (k in rows && !p[k].remove)) ::
      if k in p && p[k].write.Some? then p[k].write.value.(incident := None) else rows[k]
  }

  function CommitDb(db: Db, r: RuleId, end: Time, p: Plan): Db
    requires r in db.rules && DistinctIds(p)
  {
    var e := db.rules[r];
    db.(rules := db.rules[r := e.(rows := CommittedRows(e.rows, p), lease := e.lease.(lastEnd := Some(end)))],
    incidents := CommittedIncidents(db.incidents, r, p))
  }

  // ----- competing changes -----

  /** Resolves a rule's unresolved incidents and clears its series state. */
  function ResolveRule(db: Db, r: RuleId): Db
    requires r in db.rules
  {
    db.(rules := db.rules[r := db.rules[r].(rows := map[])],
    incidents := map i | i in db.incidents ::
      if db.incidents[i].rule == Some(r) then db.incidents[i].(state := Resolved) else db.incidents[i])
  }

  function UpdateRule(db: Db, r: RuleId, enabled: bool, changed: bool): Db
    requires r in db.rules
  {
    var cleared := if changed || (!enabled && db.rules[r].enabled) then ResolveRule(db, r) else db;
    var e := cleared.rules[r];
    cleared.(rules := cleared.rules[r := e.(version := e.version + 1, enabled := enabled)])
  }

  function SetRuleEnabled(db: Db, r: RuleId, enabled: bool): Db
    requires r in db.rules
  {
    if db.rules[r].enabled == enabled then db else UpdateRule(db, r, enabled, false)
  }

  function DeleteRule(db: Db, r: RuleId): Db
    requires r in db.rules
  {
    var cleared := ResolveRule(db, r);
    cleared.(rules := cleared.rules - {r},
    incidents := map i | i in cleared.incidents ::
      if cleared.incidents[i].rule == Some(r) then cleared.incidents[i].(rule := None) else cleared.incidents[i])
  }

  function Acknowledge(db: Db, i: nat): Db
    requires i in db.incidents
  {
    if db.incidents[i].state.Open? then db.(incidents := db.incidents[i := db.incidents[i].(state := Acknowledged)])
    else db
  }

  function RowsWithout(rows: map<string, SeriesState>, i: nat): map<string, SeriesState> {
    map k | k in rows && rows[k].incidentId != Some(i) :: rows[k]
  }

  /** Manual resolve; an incident that is already resolved is refused. */
  function ResolveIncident(db: Db, i: nat): Db
    requires i in db.incidents
  {
    if db.incidents[i].state.Resolved? then db
    else
      var inc := db.incidents[i];
      db.(incidents := db.incidents[i := inc.(state := Resolved)],
      rules := if inc.rule.Some? && inc.rule.value in db.rules
               then db.rules[inc.rule.value := db.rules[inc.rule.value].(rows :=
                   RowsWithout(db.rules[inc.rule.value].rows, i))]
               else db.rules)
  }

  function Unlinked(rows: map<string, SeriesState>, gone: set<nat>): map<string, SeriesState> {
    map k | k in rows :: if rows[k].incidentId.Some? && rows[k].incidentId.value in gone
        then rows[k].(incidentId := None) else rows[k]
  }

  /** Old resolved incidents are deleted; rows that still named them lose the reference. */
  function PruneIncidents(db: Db, gone: set<nat>): Db {
    var stale := set i | i in gone && i in db.incidents && db.incidents[i].state.Resolved?;
    db.(incidents := map i | i in db.incidents && i !in stale :: db.incidents[i],
    rules := map r | r in db.rules :: db.rules[r].(rows := Unlinked(db.rules[r].rows, stale)))
  }
}
