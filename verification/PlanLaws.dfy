/** What one evaluation does to each series' incident and whom it tells, stated from the stored row, the routing
    decision and the effect itself. */
module PlanLaws {
  import opened Base
  import opened Series
  import opened SeriesRuns
  import opened SeriesLaws
  import opened Plan

  // ----- which row a series steps from -----

  /** The row's incident was resolved or removed elsewhere. */
  predicate IncidentGone(row: SeriesState) {
    row.incidentId.Some? && (row.incident.None? || row.incident.value.state.Resolved?)
  }

  /** A series without a row, or whose incident is gone, starts over: it opens on a breach without a for-duration, and
      it resolves nothing. */
  lemma SeriesStartsOver(inp: PlanInput, k: string)
    requires k in inp.Keys() && (k in inp.states ==> IncidentGone(inp.states[k]))
    ensures var e := PlanOf(inp)[k];
            && (e.opens.Some? <==> Breaches(InputFor(inp, k), inp.cfg) && inp.cfg.pendingFor <= 0)
            && e.resolves.None? && e.flapping.None? && (e.opens.None? ==> e.notices == [])
            && (e.opens.None? && e.write.Some? ==>
                  e.write.value.incidentId.None? && e.write.value.lastNotifiedAt.None? && !e.write.value.phase.Firing?)
  {
    OkSeries(Previous(inp, k), InputFor(inp, k), inp.cfg);
    IncidentStep(Previous(inp, k), InputFor(inp, k), inp.cfg);
    NotificationClock(Previous(inp, k), InputFor(inp, k), inp.cfg);
    hide Step;
  }

  /** Any other series steps from its row: what the step opens and resolves is what the change set opens and
      resolves. */
  lemma SeriesGoesOn(inp: PlanInput, k: string)
    requires k in inp.states && !IncidentGone(inp.states[k])
    ensures var e, o := PlanOf(inp)[k], Step(inp.states[k].(key := k), InputFor(inp, k), inp.cfg);
            && (e.opens.Some? <==> o.open)
            && e.resolves == (if o.resolve.Some? && inp.states[k].incidentId.Some?
                              then Some(Resolve(inp.states[k].incidentId.value, o.resolve.value, inp.end)) else None)
            && (e.write.Some? <==> o.persist) && (e.remove <==> !o.persist && o.delete)
            && (e.write.Some? ==>
                  e.write.value.phase == o.next.phase && e.write.value.transitions == o.next.transitions)
  {
    IncidentStep(inp.states[k].(key := k), InputFor(inp, k), inp.cfg);
    hide Step;
  }

  // ----- notifications -----

  lemma NoticesList(id: nat, kind: Kind, number: nat, channels: seq<string>)
    ensures Tells(Notices(id, kind, number, channels), id, kind, number, channels)
  {
    NoticesChannels(id, kind, number, channels);
  }

  /** One notification of the kind per channel, in the order of the channels. */
  predicate Tells(ns: seq<Notification>, id: nat, kind: Kind, number: nat, channels: seq<string>) {
    |ns| == |channels| && forall j :: 0 <= j < |ns| ==> ns[j] == Notification(id, kind, number, channels[j])
  }

  /** An open tells the routed channels, with the drawn incident id, and the series' row refers to the new incident. */
  lemma OpenIsTold(inp: PlanInput, k: string)
    requires k in inp.Keys() && PlanOf(inp)[k].opens.Some?
    ensures var e := PlanOf(inp)[k];
            && e.opens.value == Incident(inp.newIds(k), Open, inp.targets(k), false)
            && Tells(e.notices, inp.newIds(k), KindOpened, 0, inp.targets(k))
            && e.resolves.None? && e.flapping.None? && !e.remove
            && e.write.Some? && e.write.value.phase.Firing?
            && e.write.value.incidentId == Some(inp.newIds(k)) && e.write.value.incident == e.opens
            && e.write.value.lastNotifiedAt == Some(inp.end) && e.write.value.renotifyCount == 0
  {
    IncidentStep(Previous(inp, k), InputFor(inp, k), inp.cfg);
    NotificationClock(Previous(inp, k), InputFor(inp, k), inp.cfg);
    NoticesList(inp.newIds(k), KindOpened, 0, inp.targets(k));
    hide Step, Notices;
  }

  /** A resolve tells the channels the loaded incident was opened with. */
  lemma ResolveIsTold(inp: PlanInput, k: string)
    requires k in inp.Keys() && PlanOf(inp)[k].resolves.Some?
    ensures k in inp.states && !IncidentGone(inp.states[k]) && inp.states[k].incidentId.Some?
    ensures var e, row := PlanOf(inp)[k], inp.states[k];
            && e.resolves.value.id == row.incidentId.value && e.resolves.value.at == inp.end
            && row.incident.Some? && Tells(e.notices, row.incidentId.value, KindResolved, 0,
                 row.incident.value.channels)
            && e.opens.None? && e.flapping.None?
            && (e.write.Some? ==> e.write.value.incidentId.None? && e.write.value.phase.Ok?)
  {
    var prev := Previous(inp, k);
    IncidentStep(prev, InputFor(inp, k), inp.cfg);
    if !Current(prev.phase).Firing? {
      if Current(prev.phase).Ok? {
        OkSeries(prev, InputFor(inp, k), inp.cfg);
      } else {
        PendingSeries(prev, InputFor(inp, k), inp.cfg);
      }
    }
    if prev.incident.Some? {
      NoticesList(prev.incidentId.value, KindResolved, 0, prev.incident.value.channels);
    }
    hide Step, Notices;
  }

  /** A stored firing series is due for a re-notification when its incident is open, re-notification is on and the last
      notification is at least the interval old. */
  predicate RenotifyDue(inp: PlanInput, k: string) {
    && k in inp.states && inp.states[k].phase.Firing? && !IncidentGone(inp.states[k])
    && inp.states[k].incident.Some? && inp.states[k].incident.value.state.Open?
    && inp.renotifyInterval > 0
    && (inp.states[k].lastNotifiedAt.Some? ==> inp.end - inp.states[k].lastNotifiedAt.value >= inp.renotifyInterval)
  }

  /** Otherwise the series is told about only when it stays firing and is due: the rule's own channels among those of
      the incident get a notification with the next number, and the clock starts again. */
  lemma RenotifyIsTold(inp: PlanInput, k: string)
    requires k in inp.Keys() && PlanOf(inp)[k].opens.None? && PlanOf(inp)[k].resolves.None?
    requires inp.renotifyInterval <= MAX_DURATION
    ensures var e := PlanOf(inp)[k];
            if e.write.Some? && e.write.value.phase.Firing? && RenotifyDue(inp, k) then
              var row := inp.states[k];
              && Tells(e.notices, row.incident.value.id, KindRenotify, row.renotifyCount + 1,
                       Known(inp.channels, row.incident.value.channels))
              && e.write.value.renotifyCount == row.renotifyCount + 1 && e.write.value.lastNotifiedAt == Some(inp.end)
            else
              && e.notices == []
              && (e.write.Some? && e.write.value.phase.Firing? && k in inp.states ==>
                    && e.write.value.renotifyCount == inp.states[k].renotifyCount
                    && e.write.value.lastNotifiedAt == inp.states[k].lastNotifiedAt)
  {
    var prev, si := Previous(inp, k), InputFor(inp, k);
    IncidentStep(prev, si, inp.cfg);
    NotificationClock(prev, si, inp.cfg);
    if Current(prev.phase).Ok? {
      OkSeries(prev, si, inp.cfg);
    }
    if prev.incident.Some? {
      NoticesList(prev.incident.value.id, KindRenotify, prev.renotifyCount + 1,
                  Known(inp.channels, prev.incident.value.channels));
    }
    hide Step, Notices, Known;
  }

  /** An incident is marked as flapping exactly when its series stays firing because of a longer hold and it is not
      marked yet. */
  lemma FlappingIsMarkedOnce(inp: PlanInput, k: string)
    requires k in inp.states && !IncidentGone(inp.states[k]) && inp.states[k].incident.Some?
    requires inp.states[k].incidentId == Some(inp.states[k].incident.value.id)
    ensures var e, o := PlanOf(inp)[k], Step(inp.states[k].(key := k), InputFor(inp, k), inp.cfg);
            var inc := inp.states[k].incident.value;
            && (e.flapping.Some? <==> o.next.phase.Firing? && !o.open && o.flapping && !inc.flapping)
            && (e.flapping.Some? ==>
                  e.flapping.value == inc.id && e.write.Some? && e.write.value.incident == Some(inc.(flapping := true)))
  {
    IncidentStep(inp.states[k].(key := k), InputFor(inp, k), inp.cfg);
    hide Step, Notices, Known;
  }
}
