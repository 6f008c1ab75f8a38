/** What one evaluation does to a series in each phase, stated from the row, the input and the settings alone, and what
    missing data does along every run. */
module SeriesLaws {
  import opened Base
  import opened Series
  import opened SeriesRuns

  // ----- one step -----

  /** In keep mode: no data now, and the last data is too old. */
  predicate TooOld(s: SeriesState, inp: StepInput, cfg: StepConfig) {
    && Silent(inp, cfg) && cfg.expireAfter > 0
    && s.lastSeenAt.Some? && inp.end - s.lastSeenAt.value > cfg.expireAfter
  }

  /** An ok series opens on a breach without a for-duration, becomes pending on a breach with one, and stays ok
      otherwise, whatever missing data means. */
  lemma OkSeries(s: SeriesState, inp: StepInput, cfg: StepConfig)
    requires Current(s.phase).Ok?
    ensures var o, breach := Step(s, inp, cfg), Breaches(inp, cfg);
            && (o.open <==> breach && cfg.pendingFor <= 0) && o.resolve.None?
            && o.next.phase == (if !breach then Ok else if cfg.pendingFor <= 0 then Firing else Pending)
            && (o.next.phase.Pending? ==> o.next.pendingSince == Some(inp.end))
            && o.transition == (if !breach then Unchanged else if cfg.pendingFor <= 0 then ToFiring else ToPending)
  {
    hide Prune, Capped;
  }

  /** A pending series opens when it breaches and its timer, restarted after a gap, has run long enough. It stays
      pending while it breaches or its missing data is kept, and becomes ok on anything else. */
  lemma PendingSeries(s: SeriesState, inp: StepInput, cfg: StepConfig)
    requires s.phase.Pending?
    ensures var o, breach := Step(s, inp, cfg), Breaches(inp, cfg);
            var late := inp.prevEvalEnd.Some? && inp.end - inp.prevEvalEnd.value > 2 * cfg.interval + cfg.delay;
            var since := if late then Some(inp.end) else s.pendingSince;
            var stays := breach || (Silent(inp, cfg) && !TooOld(s, inp, cfg));
            && (o.open <==> breach && Elapsed(inp.end, since) >= cfg.pendingFor) && o.resolve.None?
            && o.next.phase == (if o.open then Firing else if stays then Pending else Ok)
            && (o.next.phase.Pending? ==> o.next.pendingSince == since)
            && o.transition == (if o.open then ToFiring else if stays then Unchanged else ToOk)
  {
    hide Prune, Capped;
  }

  /** The hold that a recovery has to last: the flapping hold, when it is the longer one and the series flaps. */
  function RecoveryHold(s: SeriesState, inp: StepInput, cfg: StepConfig): int {
    var flaps := IsFlapping(Prune(s.transitions, inp.end, cfg.flapping), inp.end, cfg.flapping);
    if flaps then Max(cfg.recoveryFor, cfg.flapping.holdSeconds * SECOND) else cfg.recoveryFor
  }

  lemma FiringIsPrepared(s: SeriesState, inp: StepInput, cfg: StepConfig)
    requires s.phase.Firing?
    ensures var p := Prepared(s, inp, cfg);
            var t := Seen(p, inp, cfg);
            && p.phase.Firing? && p.lastSeenAt == s.lastSeenAt && t.phase.Firing?
            && t.recoveringSince == s.recoveringSince
            && t.transitions == Prune(s.transitions, inp.end, cfg.flapping)
  {
    hide Prune;
  }

  /** A firing series resolves at once when its missing data counts as ok, expires it, or is kept for too long, and as
      recovered when the recovery has lasted its hold. It never opens. */
  lemma FiringSeries(s: SeriesState, inp: StepInput, cfg: StepConfig)
    requires s.phase.Firing? && (s.recoveringSince.Some? ==> s.recoveringSince.value <= inp.end)
    ensures var o := Step(s, inp, cfg);
            var since := if s.recoveringSince.Some? then s.recoveringSince.value else inp.end;
            && !o.open
            && o.resolve == (
               if !inp.present && cfg.missing.AsOk? then Some(NoData)
               else if !inp.present && cfg.missing.Expire? then Some(Expired)
               else if TooOld(s, inp, cfg) then Some(Expired)
               else if Recovers(inp, cfg) && inp.end - since >= RecoveryHold(s, inp, cfg) then Some(Recovered)
               else None)
            && o.next.phase == (if o.resolve.Some? then Ok else Firing)
            && o.transition == (if o.resolve.Some? then ToResolved else Unchanged)
            && (o.resolve.None? ==>
                  o.next.recoveringSince ==
                  if Recovers(inp, cfg) then Some(since) else if Silent(inp, cfg) then s.recoveringSince else None)
            && (o.flapping <==> Recovers(inp, cfg) && RecoveryHold(s, inp, cfg) > cfg.recoveryFor)
  {
    FiringIsPrepared(s, inp, cfg);
    hide Prune, Capped, IsFlapping, Prepared, Seen;
  }

  /** The last value and the time of the last data. */
  lemma LastSeen(s: SeriesState, inp: StepInput, cfg: StepConfig)
    ensures var next := Step(s, inp, cfg).next;
            && next.lastSeenAt == (if inp.present || cfg.missing.AsZero? then Some(inp.end) else s.lastSeenAt)
            && next.lastValue ==
               if inp.present then inp.value else if cfg.missing.AsZero? then Num(0.0) else s.lastValue
  {
    hide Prune, Capped, IsFlapping;
  }

  lemma MovementClock(s: SeriesState, end: Time, r: Reading, cfg: StepConfig)
    requires r.Judged?
    ensures var m := Moved(s, end, r, cfg);
            && (m.transition.ToFiring? ==>
                  && m.resolve.None? && m.next.firingSince == Some(end) && m.next.lastNotifiedAt == Some(end)
                  && m.next.renotifyCount == 0 && m.next.pendingSince.None? && m.next.recoveringSince.None?)
            && (m.resolve.Some? ==>
                  && m.next.firingSince.None? && m.next.lastNotifiedAt.None? && m.next.renotifyCount == 0
                  && m.next.pendingSince.None? && m.next.recoveringSince.None?)
            && (!m.transition.ToFiring? && m.resolve.None? ==>
                  && m.next.firingSince == s.firingSince && m.next.lastNotifiedAt == s.lastNotifiedAt
                  && m.next.renotifyCount == s.renotifyCount)
            && m.next.key == s.key
  {
    hide Prune, Capped, IsFlapping;
  }

  lemma SeenKeepsClock(s: SeriesState, inp: StepInput, cfg: StepConfig)
    ensures var t := Seen(Prepared(s, inp, cfg), inp, cfg);
            && t.firingSince == s.firingSince && t.lastNotifiedAt == s.lastNotifiedAt
            && t.renotifyCount == s.renotifyCount && t.key == s.key
  {
    hide Prune, Capped;
  }

  /** An open starts the notification clock, a resolve clears it, and nothing else moves it. */
  lemma NotificationClock(s: SeriesState, inp: StepInput, cfg: StepConfig)
    ensures var o := Step(s, inp, cfg);
            && (o.open ==>
                  && o.next.firingSince == Some(inp.end) && o.next.lastNotifiedAt == Some(inp.end)
                  && o.next.renotifyCount == 0 && o.next.pendingSince.None? && o.next.recoveringSince.None?)
            && (o.resolve.Some? ==>
                  && o.next.firingSince.None? && o.next.lastNotifiedAt.None? && o.next.renotifyCount == 0
                  && o.next.pendingSince.None? && o.next.recoveringSince.None?)
            && (!o.open && o.resolve.None? ==>
                  && o.next.firingSince == s.firingSince && o.next.lastNotifiedAt == s.lastNotifiedAt
                  && o.next.renotifyCount == s.renotifyCount)
            && o.next.key == s.key
  {
    SeenKeepsClock(s, inp, cfg);
    var r := Read(Prepared(s, inp, cfg), inp, cfg);
    if r.Judged? {
      MovementClock(Seen(Prepared(s, inp, cfg), inp, cfg), inp.end, r, cfg);
    }
    hide Seen, Prepared, Read, Moved;
  }

  /** A row is kept exactly while the series is not ok or its history is not empty; with kept missing data an ok series
      is left unwritten. A row that is not kept is removed, except that kept missing data removes nothing. */
  lemma RowIsKept(s: SeriesState, inp: StepInput, cfg: StepConfig)
    ensures var o := Step(s, inp, cfg);
            var ok, untouched := o.next.phase.Ok?, Silent(inp, cfg) && !(!Current(s.phase).Ok? && TooOld(s, inp, cfg));
            && (o.persist <==> !ok || (o.next.transitions != [] && !untouched))
            && (o.delete <==> !o.persist && !untouched && (!s.phase.Blank? || s.incidentId.Some?))
  {
    hide Prune, Capped, IsFlapping;
  }

  // ----- missing data along every run -----

  /** What an evaluation without data does to a firing series, in every mode. */
  lemma MissingResolvesFiring(r: Run, k: nat)
    requires r.Valid() && k < |r.ins| && r.st[k].phase.Firing? && !r.ins[k].present
    ensures r.cfg.missing.AsOk? ==> r.outs[k].resolve == Some(NoData)
    ensures r.cfg.missing.Expire? ==> r.outs[k].resolve == Some(Expired)
    ensures r.cfg.missing.Keep? ==> r.outs[k].resolve == if Expires(r.ins, r.cfg, k) then Some(Expired) else None
    ensures r.cfg.missing.AsBreach? ==> r.outs[k].resolve.None?
    ensures r.outs[k].resolve.None? ==> r.st[k + 1].phase.Firing?
  {
    RecoveringFromBefore(r, k);
    FiringSeries(r.st[k], r.ins[k], r.cfg);
    if r.cfg.missing.Keep? {
      SeenIsLatest(r, k);
    }
    assert r.Linked(k);
    hide Step, RecoveryHold, IsFlapping;
  }

  /** And to a pending one: it is ok again, or keeps its phase while missing data is kept. */
  lemma MissingEndsPending(r: Run, k: nat)
    requires r.Valid() && k < |r.ins| && r.st[k].phase.Pending? && !r.ins[k].present
    ensures !r.cfg.missing.AsBreach? && !r.cfg.missing.AsZero? ==> !r.outs[k].open
    ensures r.cfg.missing.AsOk? || r.cfg.missing.Expire? ==> Current(r.st[k + 1].phase).Ok?
    ensures r.cfg.missing.Keep? ==> Current(r.st[k + 1].phase) == if Expires(r.ins, r.cfg, k) then Ok else Pending
  {
    PendingSeries(r.st[k], r.ins[k], r.cfg);
    if r.cfg.missing.Keep? {
      SeenIsLatest(r, k);
    }
    assert r.Linked(k);
    hide Step;
  }

  /** An incident is resolved for missing data on such a step only. */
  lemma MissingReasonsAreExact(r: Run, k: nat)
    requires r.Valid() && k < |r.ins|
    ensures r.outs[k].resolve == Some(NoData) <==>
            r.st[k].phase.Firing? && !r.ins[k].present && r.cfg.missing.AsOk?
    ensures r.outs[k].resolve == Some(Expired) <==>
            r.st[k].phase.Firing? && !r.ins[k].present && (r.cfg.missing.Expire? || Expires(r.ins, r.cfg, k))
    ensures r.outs[k].resolve.Some? ==> r.outs[k].resolve.value in {NoData, Expired, Recovered}
  {
    PhaseLink(r, k);
    if r.st[k].phase.Firing? {
      RecoveringFromBefore(r, k);
      FiringSeries(r.st[k], r.ins[k], r.cfg);
      if r.cfg.missing.Keep? {
        SeenIsLatest(r, k);
      }
      assert r.Linked(k);
    }
    hide Step, RecoveryHold, IsFlapping;
  }
}
