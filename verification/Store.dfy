/** The store as an object: every method runs one transaction against its tables in place, row by row where the
    original queues one statement per row. */
module Store {
  import opened Base
  import opened Series
  import opened Plan
  import opened Tables
  import opened TableLaws

  /** The inserts of a commit. `ok` is false when the primary key or the unique index refuses one. */
  method InsertOpens(before: map<nat, IncidentRow>, r: RuleId, p: Plan)
      returns (ok: bool, incidents: map<nat, IncidentRow>)
    ensures ok <==> !IndexRefuses(Db(0, map[], before), r, p)
    ensures ok ==> incidents.Keys == before.Keys + OpenedIds(p) && DistinctIds(p)
    ensures ok ==> forall i :: i in incidents ==>
        incidents[i] == if i in OpenedIds(p) then InsertedRow(r, p, i) else before[i]
  {
    ok, incidents := true, before;
    var rest := p.Keys;
    ghost var done: set<string> := {};
    while rest != {}
      invariant done + rest == p.Keys && done !! rest
      invariant forall i :: i in before ==> i in incidents && incidents[i] == before[i]
      invariant forall i :: i in incidents ==>
          i in before || exists k :: k in done && p[k].opens.Some? && p[k].opens.value.id == i
      invariant forall k :: k in done && p[k].opens.Some? ==>
        && p[k].opens.value.id !in before && p[k].opens.value.id in incidents
        && incidents[p[k].opens.value.id] == IncidentRow(Some(r), k, Open, p[k].opens.value.channels, false)
        && forall i :: i in before ==> !Clashes(before[i], r, k)
      decreases rest
    {
      var k :| k in rest;
      if p[k].opens.Some? {
        var inc := p[k].opens.value;
        if inc.id in incidents {
          ok := false;
          assert inc.id in before || !DistinctIds(p);
          return;
        }
        if exists i :: i in incidents && Clashes(incidents[i], r, k) {
          ok := false;
          ghost var i :| i in incidents && Clashes(incidents[i], r, k);
          assert i in before;
          assert UnresolvedAt(Db(0, map[], before), i, r, k);
          return;
        }
        assert forall i :: i in before ==> !Clashes(before[i], r, k);
        incidents := incidents[inc.id := IncidentRow(Some(r), k, Open, inc.channels, false)];
      }
      rest, done := rest - {k}, done + {k};
    }
    assert done == p.Keys;
    assert DistinctIds(p);
    forall i | i in incidents ensures i in before.Keys + OpenedIds(p)
        && incidents[i] == if i in OpenedIds(p) then InsertedRow(r, p, i) else before[i] {
      if i in OpenedIds(p) {
        var k := OpenerOf(p, i);
      }
    }
  }

  predicate Clashes(row: IncidentRow, r: RuleId, k: string) {
    !row.state.Resolved? && row.rule == Some(r) && row.key == k
  }

  /** The resolves of a commit, which only touch unresolved rows. */
  method MarkResolved(before: map<nat, IncidentRow>, p: Plan) returns (incidents: map<nat, IncidentRow>)
    ensures incidents.Keys == before.Keys
    ensures forall i :: i in incidents ==>
        incidents[i] == if i in ResolvedIds(p) then before[i].(state := Resolved) else before[i]
  {
    incidents := before;
    var rest := p.Keys;
    ghost var ids: set<nat> := {};
    while rest != {}
      invariant rest <= p.Keys && incidents.Keys == before.Keys
      invariant ids == set k | k in p && k !in rest && p[k].resolves.Some? :: p[k].resolves.value.id
      invariant forall i :: i in incidents ==>
          incidents[i] == if i in ids then before[i].(state := Resolved) else before[i]
      decreases rest
    {
      var k :| k in rest;
      if p[k].resolves.Some? {
        var id := p[k].resolves.value.id;
        if id in incidents && !incidents[id].state.Resolved? {
          incidents := incidents[id := incidents[id].(state := Resolved)];
        }
        ids := ids + {id};
      }
      rest := rest - {k};
    }
    assert ids == ResolvedIds(p);
  }

  /** The incident updates of a commit: flapping flags are only ever set. */
  method MarkFlapping(before: map<nat, IncidentRow>, p: Plan) returns (incidents: map<nat, IncidentRow>)
    ensures incidents.Keys == before.Keys
    ensures forall i :: i in incidents ==>
        incidents[i] == if i in FlappingIds(p) then before[i].(flapping := true) else before[i]
  {
    incidents := before;
    var rest := p.Keys;
    ghost var ids: set<nat> := {};
    while rest != {}
      invariant rest <= p.Keys && incidents.Keys == before.Keys
      invariant ids == set k | k in p && k !in rest && p[k].flapping.Some? :: p[k].flapping.value
      invariant forall i :: i in incidents ==>
          incidents[i] == if i in ids then before[i].(flapping := true) else before[i]
      decreases rest
    {
      var k :| k in rest;
      if p[k].flapping.Some? {
        var id := p[k].flapping.value;
        if id in incidents {
          incidents := incidents[id := incidents[id].(flapping := true)];
        }
        ids := ids + {id};
      }
      rest := rest - {k};
    }
    assert ids == FlappingIds(p);
  }

  /** The row removals and upserts of a commit. */
  method WriteRows(before: map<string, SeriesState>, p: Plan) returns (rows: map<string, SeriesState>)
    ensures rows == CommittedRows(before, p)
  {
    rows := before - (set k | k in p && p[k].remove);
    ghost var start := rows;
    var rest := p.Keys;
    while rest != {}
      invariant rest <= p.Keys
      invariant forall k :: k in p && k !in rest && p[k].write.Some? ==>
          k in rows && rows[k] == p[k].write.value.(incident := None)
      invariant forall k :: k in rest || k !in p || p[k].write.None? ==>
          (k in rows <==> k in start) && (k in rows ==> rows[k] == start[k])
      decreases rest
    {
      var k :| k in rest;
      if p[k].write.Some? {
        rows := rows[k := p[k].write.value.(incident := None)];
      }
      rest := rest - {k};
    }
  }

  /** All incident statements of a commit, in the order they are queued: inserts, resolves, updates. */
  method ChangeIncidents(before: map<nat, IncidentRow>, r: RuleId, p: Plan)
      returns (ok: bool, after: map<nat, IncidentRow>)
    ensures ok <==> !IndexRefuses(Db(0, map[], before), r, p)
    ensures ok ==> DistinctIds(p) && after == CommittedIncidents(before, r, p)
  {
    hide IndexRefuses;
    ok, after := InsertOpens(before, r, p);
    if ok {
      after := MarkResolved(after, p);
      after := MarkFlapping(after, p);
    }
  }

  class PGStore {
    var now: Time
    var rules: map<RuleId, RuleEntry>
    var incidents: map<nat, IncidentRow>

    function Contents(): Db
      reads this
    {
      Db(now, rules, incidents)
    }

    constructor ()
      ensures Contents() == Db(0, map[], map[])
    {
      now, rules, incidents := 0, map[], map[];
    }

    /** Commits an evaluation under lease fencing, and queues its notifications; a refused commit leaves every table as
        it was and queues nothing. */
    method Commit(inst: Instance, r: RuleId, version: nat, end: Time, p: Plan)
        returns (v: Verdict, ns: set<Notification>)
      modifies this
      ensures v == CommitVerdict(old(Contents()), inst, r, version, end, p)
      ensures v.Committed? ==> r in old(rules) && DistinctIds(p) && Contents() == CommitDb(old(Contents()), r, end, p)
      ensures !v.Committed? ==> Contents() == old(Contents())
      ensures forall x :: x in ns <==> v.Committed? && exists k :: k in p && x in p[k].notices
    {
      hide CommittedIncidents;
      hide CommittedRows;
      hide IndexRefuses;
      ns := {};
      if r !in rules {
        return LeaseLost, {};
      }
      var e := rules[r];
      if e.lease.owner != inst || e.lease.until.None? || e.lease.until.value <= now {
        return LeaseLost, {};
      }
      if e.lease.lastEnd.Some? && end <= e.lease.lastEnd.value {
        return Stale, {};
      }
      if e.version != version || !e.enabled {
        return Outdated, {};
      }
      var ok, changed := ChangeIncidents(incidents, r, p);
      SameIndex(Contents(), r, p);
      if !ok {
        return Conflict, {};
      }
      if exists k :: k in p && p[k].write.Some? && p[k].write.value.incidentId.Some? && p[k].opens.None? &&
                     p[k].write.value.incidentId.value !in incidents {
        return Dangling, {};
      }
      var written := WriteRows(e.rows, p);
      incidents := changed;
      rules := rules[r := e.(rows := written, lease := e.lease.(lastEnd := Some(end)))];
      ns := set k, x | k in p && x in p[k].notices :: x;
      v := Committed;
    }

    /** Resolves the unresolved incidents of a rule one by one, telling the channels each was opened with, then clears
        its rows. */
    method ResolveRuleIncidents(r: RuleId) returns (ns: set<Notification>)
      requires r in rules
      modifies this
      ensures Contents() == ResolveRule(old(Contents()), r)
      ensures forall x :: x in ns <==> ResolveTold(old(incidents), Some(r), x)
    {
      var open := set i | i in incidents && incidents[i].rule == Some(r) && !incidents[i].state.Resolved?;
      var rest := open;
      ns := {};
      while rest != {}
        invariant rest <= open && now == old(now) && rules == old(rules) && incidents.Keys == old(incidents).Keys
        invariant forall i :: i in incidents ==>
          incidents[i] == if i in open && i !in rest then old(incidents)[i].(state := Resolved) else old(incidents)[i]
        invariant forall x :: x in ns <==> x.incident in open - rest && ResolveTold(old(incidents), Some(r), x)
        decreases rest
      {
        var i :| i in rest;
        var told := ResolveNotifications(i, incidents[i].channels);
        ns := ns + set x | x in told;
        incidents := incidents[i := incidents[i].(state := Resolved)];
        rest := rest - {i};
      }
      rules := rules[r := rules[r].(rows := map[])];
      assert incidents == ResolveRule(old(Contents()), r).incidents;
    }

    /** An edit based on an older version is refused, 0 standing for any. `changed` says that the edit touches what the
        rule evaluates. */
    method EditRule(r: RuleId, expected: nat, enabled: bool, changed: bool) returns (ok: bool, ns: set<Notification>)
      modifies this
      ensures ok == (r in old(rules) && (expected == 0 || expected == old(rules)[r].version))
      ensures if ok then Edited(old(Contents()), Contents(), r, enabled, changed) else Contents() == old(Contents())
      ensures ok ==> Contents() == UpdateRule(old(Contents()), r, enabled, changed)
      ensures forall x :: x in ns <==>
        ok && (changed || (old(rules)[r].enabled && !enabled)) && ResolveTold(old(incidents), Some(r), x)
    {
      ns := {};
      if r !in rules || (expected != 0 && expected != rules[r].version) {
        return false, {};
      }
      EditIsExact(Contents(), r, enabled, changed);
      ok := true;
      if changed || (!enabled && rules[r].enabled) {
        ns := ResolveRuleIncidents(r);
      }
      rules := rules[r := rules[r].(version := rules[r].version + 1, enabled := enabled)];
    }

    /** Switches a rule on or off; a rule that already is so is left alone. */
    method SwitchRule(r: RuleId, enabled: bool) returns (found: bool, ns: set<Notification>)
      modifies this
      ensures found == (r in old(rules))
      ensures if found && old(rules)[r].enabled != enabled then Edited(old(Contents()), Contents(), r, enabled, false)
              else Contents() == old(Contents())
      ensures forall x :: x in ns <==>
        found && old(rules)[r].enabled && !enabled && ResolveTold(old(incidents), Some(r), x)
    {
      ns := {};
      if r !in rules {
        return false, {};
      }
      EditIsExact(Contents(), r, enabled, false);
      found := true;
      if rules[r].enabled != enabled {
        if !enabled {
          ns := ResolveRuleIncidents(r);
        }
        rules := rules[r := rules[r].(version := rules[r].version + 1, enabled := enabled)];
      }
    }

    method RemoveRule(r: RuleId) returns (found: bool, ns: set<Notification>)
      modifies this
      ensures found == (r in old(rules))
      ensures if found then Deleted(old(Contents()), Contents(), r) else Contents() == old(Contents())
      ensures found ==> Contents() == DeleteRule(old(Contents()), r)
      ensures forall x :: x in ns <==> found && ResolveTold(old(incidents), Some(r), x)
    {
      ns := {};
      if r !in rules {
        return false, {};
      }
      DeleteIsExact(Contents(), r);
      found := true;
      ns := ResolveRuleIncidents(r);
      rules := rules - {r};
      incidents := map i | i in incidents ::
          if incidents[i].rule == Some(r) then incidents[i].(rule := None) else incidents[i];
    }

    /** Acknowledges an open incident and tells the channels that track its lifecycle. An incident that is acknowledged
        already is left alone, a resolved one is refused. */
    method AcknowledgeIncident(i: nat, tracks: string -> bool) returns (ok: bool, ns: seq<Notification>)
      modifies this`incidents
      ensures ok == (i in old(incidents) && !old(incidents)[i].state.Resolved?)
      ensures Contents() == if ok then Acknowledge(old(Contents()), i) else old(Contents())
      ensures forall x :: x in ns <==>
        && ok && old(incidents)[i].state.Open? && x.channel in old(incidents)[i].channels && tracks(x.channel)
        && x == Notification(i, KindAcknowledged, 0, x.channel)
    {
      ns := [];
      if i !in incidents || incidents[i].state.Resolved? {
        return false, [];
      }
      ok := true;
      if incidents[i].state.Open? {
        ns := AckNotifications(i, incidents[i].channels, tracks);
        incidents := incidents[i := incidents[i].(state := Acknowledged)];
      }
    }

    /** Resolves an incident by hand, tells its channels and removes the rows that refer to it. */
    method ManualResolve(i: nat) returns (ok: bool, ns: seq<Notification>)
      modifies this
      ensures ok == (i in old(incidents) && !old(incidents)[i].state.Resolved?)
      ensures if ok then ManuallyResolved(old(Contents()), Contents(), i) else Contents() == old(Contents())
      ensures ok ==> Contents() == ResolveIncident(old(Contents()), i)
      ensures |ns| == if ok then |old(incidents)[i].channels| else 0
      ensures forall j :: 0 <= j < |ns| ==> ns[j] == Notification(i, KindResolved, 0, old(incidents)[i].channels[j])
    {
      ns := [];
      if i !in incidents || incidents[i].state.Resolved? {
        return false, [];
      }
      ManualResolveIsExact(Contents(), i);
      var inc := incidents[i];
      incidents := incidents[i := inc.(state := Resolved)];
      if inc.rule.Some? && inc.rule.value in rules {
        var e := rules[inc.rule.value];
        rules := rules[inc.rule.value := e.(rows := map k | k in e.rows && e.rows[k].incidentId != Some(i) ::
            e.rows[k])];
      }
      ns := ResolveNotifications(i, inc.channels);
      ok := true;
    }
  }

  /** `x` tells a channel of an unresolved incident of the rule that it is resolved. */
  predicate ResolveTold(incidents: map<nat, IncidentRow>, rule: Option<RuleId>, x: Notification) {
    && x.incident in incidents && incidents[x.incident].rule == rule && !incidents[x.incident].state.Resolved?
    && x.channel in incidents[x.incident].channels
    && x == Notification(x.incident, KindResolved, 0, x.channel)
  }

  /** One resolve notification per channel the incident was opened with. */
  method ResolveNotifications(i: nat, channels: seq<string>) returns (out: seq<Notification>)
    ensures |out| == |channels| && forall j :: 0 <= j < |out| ==>
        out[j] == Notification(i, KindResolved, 0, channels[j])
    ensures forall x :: x in out <==> x.channel in channels && x == Notification(i, KindResolved, 0, x.channel)
  {
    out := [];
    for j := 0 to |channels|
      invariant |out| == j && forall l :: 0 <= l < j ==> out[l] == Notification(i, KindResolved, 0, channels[l])
    {
      out := out + [Notification(i, KindResolved, 0, channels[j])];
    }
    forall x ensures x in out <==> x.channel in channels && x == Notification(i, KindResolved, 0, x.channel) {
      if x.channel in channels && x == Notification(i, KindResolved, 0, x.channel) {
        var j :| 0 <= j < |channels| && channels[j] == x.channel;
        assert out[j] == x;
      }
    }
  }

  /** One acknowledge notification per channel that tracks the lifecycle of incidents. */
  method AckNotifications(i: nat, channels: seq<string>, tracks: string -> bool) returns (out: seq<Notification>)
    ensures forall x :: x in out <==>
      x.channel in channels && tracks(x.channel) && x == Notification(i, KindAcknowledged, 0, x.channel)
  {
    out := [];
    for j := 0 to |channels|
      invariant forall x :: x in out <==>
        x.channel in channels[..j] && tracks(x.channel) && x == Notification(i, KindAcknowledged, 0, x.channel)
    {
      assert channels[..j + 1] == channels[..j] + [channels[j]];
      if tracks(channels[j]) {
        out := out + [Notification(i, KindAcknowledged, 0, channels[j])];
      }
    }
    assert channels[..|channels|] == channels;
  }

  /** The index looks at incidents only. */
  lemma SameIndex(db: Db, r: RuleId, p: Plan)
    ensures IndexRefuses(db, r, p) == IndexRefuses(Db(0, map[], db.incidents), r, p)
  {
    forall i, k ensures UnresolvedAt(db, i, r, k) == UnresolvedAt(Db(0, map[], db.incidents), i, r, k) {
    }
  }
}
