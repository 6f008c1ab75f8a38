/** When a notification is sent, postponed, given up or left out, exactly; what each statement does to a row; and that
    rows which should go out do. */
module OutboxLaws {
  import opened Base
  import opened Plan
  import opened Outbox
  import opened OutboxSafety

  // ----- one decision -----

  /** A notification about an incident that exists, on a channel that is enabled. */
  predicate Addressable(r: Row, f: Facts) {
    !r.kind.KindTest? && f.channel == Some(true) && f.incident.Some?
  }

  /** The receiver knows of the incident, or is about to. */
  predicate Introduced(r: Row, f: Facts) {
    r.kind.KindOpened? || f.opening == Some(Delivered)
  }

  /** Nothing is in the way of sending the row. */
  predicate Cleared(r: Row, f: Facts, w: World) {
    || (r.kind.KindTest? && f.channel.Some?)
    || (&& Addressable(r, f) && Introduced(r, f) && w.mutedUntil.None?
        && (r.kind.KindRenotify? ==> f.incident.value.Open?)
        && (r.kind.KindOpened? && r.mutedLogged ==> !f.incident.value.Resolved?))
  }

  /** A failure that may pass: unreadable secrets, or an answer that asks to try again. */
  predicate MayPass(w: World) {
    !w.secrets || (w.payload && w.answer.Retryable?)
  }

  predicate TriesLeft(r: Row, w: World, lim: Limits) {
    r.attempts < lim.maxAttempts && w.now - r.createdAt < lim.maxAge
  }

  /** A mute postpones an opening and a resolve. */
  predicate Postponed(r: Row, f: Facts, w: World) {
    Addressable(r, f) && Introduced(r, f) && w.mutedUntil.Some? && (r.kind.KindOpened? || r.kind.KindResolved?)
  }

  /** A row is left out when the receiver never learned of the incident, when a re-notification comes too late, when an
      update is muted, and when the incident was resolved while its opening was muted. */
  predicate LeftOut(r: Row, f: Facts, w: World) {
    && Addressable(r, f)
    && (|| !Introduced(r, f)
        || (r.kind.KindRenotify? && !f.incident.value.Open?)
        || (w.mutedUntil.Some? && (r.kind.KindRenotify? || r.kind.KindAcknowledged?))
        || (w.mutedUntil.None? && r.kind.KindOpened? && r.mutedLogged && f.incident.value.Resolved?))
  }

  /** The five outcomes of a claimed row, each with its exact condition. */
  lemma ProcessIsExact(r: Row, f: Facts, w: World, lim: Limits)
    ensures var d := Process(r, f, w, lim);
            && (d.sent <==> Cleared(r, f, w) && w.secrets && w.payload)
            && (d.outcome.status.Delivered? <==> d.sent && w.answer.Ok?)
            && (d.outcome.status.Suppressed? <==> LeftOut(r, f, w))
            && (d.outcome.status.Pending? <==>
                  Postponed(r, f, w) || (Cleared(r, f, w) && MayPass(w) && TriesLeft(r, w, lim)))
            && (d.outcome.status.Failed? <==>
                  || f.channel.None? || (!r.kind.KindTest? && !Addressable(r, f))
                  || (&& Cleared(r, f, w)
                      && if MayPass(w) then !TriesLeft(r, w, lim) else !w.payload || w.answer.Permanent?))
            && !d.outcome.status.Sending?
  {
  }

  /** When a row that goes back to pending is tried again. */
  lemma NextAttemptIsExact(r: Row, f: Facts, w: World, lim: Limits)
    requires Process(r, f, w, lim).outcome.status.Pending?
    ensures var o := Process(r, f, w, lim).outcome;
            var wait := if w.secrets && w.answer.Retryable? then w.answer.wait else 0;
            && o.next == (if Postponed(r, f, w) then w.mutedUntil.value else w.now + Max(w.backoff, wait))
            && o.mutedLogged == (Postponed(r, f, w) || r.mutedLogged)
  {
  }

  // ----- a decision reaches the table -----

  /** The flight of a decided row waits unchanged for its finish, unless the dispatcher crashes. */
  lemma {:induction false} DecisionWaits(run: Run, a: nat, b: nat, inst: string, row: nat, w: World)
    requires run.Valid() && a < b < |run.states| && run.events[a] == ProcessRow(inst, row, w)
    requires forall n :: a < n < b ==> run.events[n] != FinishDelivery(inst, row) && run.events[n] != Crash(inst)
    ensures (inst, row) in run.states[a].flights && run.states[a].flights[(inst, row)].Ready?
    ensures var c := run.states[a].flights[(inst, row)];
            && (inst, row) in run.states[b].flights
            && run.states[b].flights[(inst, row)] ==
               Decided(c.claimed, Process(c.claimed, c.facts, w, run.states[a].lim))
    decreases b
  {
    hide Process, Due;
    assert run.StepAt(a);
    if b > a + 1 {
      DecisionWaits(run, a, b - 1, inst, row, w);
      assert run.StepAt(b - 1);
      FlightWaits(run.states[b - 1], run.events[b - 1], inst, row);
    }
  }

  lemma FlightWaits(s: System, ev: Event, inst: string, row: nat)
    requires Enabled(s, ev) && (inst, row) in s.flights && s.flights[(inst, row)].Decided?
    requires ev != FinishDelivery(inst, row) && ev != Crash(inst)
    ensures (inst, row) in Apply(s, ev).flights && Apply(s, ev).flights[(inst, row)] == s.flights[(inst, row)]
  {
    hide Process, Due;
    if ev.ClaimDeliveries? {
      assert ev.inst != inst;
    }
  }

  /** What was decided is what the row gets when the finish is accepted. */
  lemma DecisionIsRecorded(run: Run, a: nat, b: nat, inst: string, row: nat, w: World)
    requires run.Valid() && a < b < |run.events| && run.events[a] == ProcessRow(inst, row, w)
    requires forall n :: a < n < b ==> run.events[n] != FinishDelivery(inst, row) && run.events[n] != Crash(inst)
    requires run.events[b] == FinishDelivery(inst, row) && Accepts(run.states[b].t, inst, row)
    ensures (inst, row) in run.states[a].flights && run.states[a].flights[(inst, row)].Ready?
    ensures var c := run.states[a].flights[(inst, row)];
            var o := Process(c.claimed, c.facts, w, run.states[a].lim).outcome;
            && row in run.states[b + 1].t.rows && run.states[b + 1].t.rows[row].status == o.status
            && (o.status.Pending? ==> run.states[b + 1].t.rows[row].nextAttempt == o.next)
            && run.states[b + 1].t.rows[row].mutedLogged == o.mutedLogged
  {
    DecisionWaits(run, a, b, inst, row, w);
    assert run.StepAt(b);
    hide Process;
  }

  /** So an opening that nothing stands in the way of, and that the receiver accepts, ends delivered: the first news of
      an incident does go out. */
  lemma ClearedOpeningIsDelivered(run: Run, a: nat, b: nat, inst: string, row: nat, w: World)
    requires run.Valid() && a < b < |run.events| && run.events[a] == ProcessRow(inst, row, w)
    requires forall n :: a < n < b ==> run.events[n] != FinishDelivery(inst, row) && run.events[n] != Crash(inst)
    requires run.events[b] == FinishDelivery(inst, row) && Accepts(run.states[b].t, inst, row)
    requires (inst, row) in run.states[a].flights && run.states[a].flights[(inst, row)].Ready?
    requires var c := run.states[a].flights[(inst, row)];
             && c.claimed.kind.KindOpened? && c.facts.channel == Some(true) && c.facts.incident.Some?
             && !(c.claimed.mutedLogged && c.facts.incident.value.Resolved?)
    requires w.mutedUntil.None? && w.secrets && w.payload && w.answer.Ok?
    ensures row in run.states[b + 1].t.rows && run.states[b + 1].t.rows[row].status.Delivered?
  {
    DecisionIsRecorded(run, a, b, inst, row, w);
    var c := run.states[a].flights[(inst, row)];
    ProcessIsExact(c.claimed, c.facts, w, run.states[a].lim);
  }

  // ----- which rows are due -----

  /** A row is due exactly when it is pending, its time has come, and every older row of its incident and channel is
      finished. */
  lemma DueIsExact(t: Table, n: nat)
    requires n in t.rows
    ensures Due(t, n) <==>
            && t.rows[n].status.Pending? && t.rows[n].nextAttempt <= t.now
            && forall p :: p in t.rows && p < n && t.rows[p].incident.Some? && t.rows[p].incident == t.rows[n].incident
                           && t.ChannelOf(t.rows[p]) == t.ChannelOf(t.rows[n]) ==>
                 t.rows[p].status.Delivered? || t.rows[p].status.Failed? || t.rows[p].status.Suppressed?
  {
    if !Due(t, n) && t.rows[n].status.Pending? && t.rows[n].nextAttempt <= t.now {
      var p :| p in t.rows && Blocks(t, p, n);
    }
    if Due(t, n) {
      forall p | p in t.rows && p < n && t.rows[p].incident.Some? && t.rows[p].incident == t.rows[n].incident
                 && t.ChannelOf(t.rows[p]) == t.ChannelOf(t.rows[n])
        ensures Terminal(t.rows[p].status)
      {
        assert !Blocks(t, p, n);
      }
    }
  }

  /** No thread is stuck: behind every unfinished row of an incident and channel there is an oldest one, and it is due
      as soon as it is pending and its time has come. */
  lemma {:induction false} OldestIsDue(t: Table, n: nat) returns (p: nat)
    requires n in t.rows && !Terminal(t.rows[n].status)
    ensures p <= n && p in t.rows && !Terminal(t.rows[p].status)
    ensures p == n || (t.rows[p].incident == t.rows[n].incident && t.ChannelOf(t.rows[p]) == t.ChannelOf(t.rows[n]))
    ensures t.rows[p].status.Pending? && t.rows[p].nextAttempt <= t.now ==> Due(t, p)
    decreases n
  {
    if q :| q in t.rows && Blocks(t, q, n) {
      p := OldestIsDue(t, q);
    } else {
      p := n;
    }
  }

  // ----- a postponed row waits -----

  /** A pending row keeps its time until it is claimed, and it is not claimed before that time. */
  lemma {:induction false} PendingRowWaits(run: Run, a: nat, b: nat, n: nat)
    requires run.Valid() && a <= b < |run.states| && n in run.states[a].t.rows
        && run.states[a].t.rows[n].status.Pending?
    requires forall m :: a <= m < b && run.events[m].ClaimDeliveries? ==> n !in run.events[m].picked
    ensures n in run.states[b].t.rows ==> run.states[b].t.rows[n] == run.states[a].t.rows[n]
    decreases b
  {
    hide Process;
    if a < b {
      PendingRowWaits(run, a, b - 1, n);
      assert run.StepAt(b - 1);
      RunKeepsInv(run, b - 1);
      RemovedStaysRemoved(run, a, b - 1, n);
      RowWaits(run.states[b - 1], run.events[b - 1], n);
    }
  }

  lemma RowWaits(s: System, ev: Event, n: nat)
    requires Inv(s) && Enabled(s, ev) && n < s.t.nextSeq && (n in s.t.rows ==> s.t.rows[n].status.Pending?)
    requires ev.ClaimDeliveries? ==> n !in ev.picked
    ensures n in Apply(s, ev).t.rows ==> n in s.t.rows && Apply(s, ev).t.rows[n] == s.t.rows[n]
  {
    hide Process, Due;
  }

  lemma ClaimsAreNotEarly(run: Run, a: nat, b: nat, n: nat)
    requires run.Valid() && a <= b < |run.events| && n in run.states[a].t.rows
        && run.states[a].t.rows[n].status.Pending?
    requires forall m :: a <= m < b && run.events[m].ClaimDeliveries? ==> n !in run.events[m].picked
    requires run.events[b].ClaimDeliveries? && n in run.events[b].picked
    ensures run.states[a].t.rows[n].nextAttempt <= run.states[b].t.now
  {
    PendingRowWaits(run, a, b, n);
    assert run.StepAt(b);
  }

  // ----- statements, column by column -----

  /** A claim marks the picked rows as being sent by the instance, for the given time and with one more attempt. */
  lemma ClaimIsExact(t: Table, inst: string, picked: set<nat>, ttl: int, n: nat)
    requires n in t.rows
    ensures ClaimRows(t, inst, picked, ttl).rows.Keys == t.rows.Keys
    ensures var r := ClaimRows(t, inst, picked, ttl).rows[n];
            if n !in picked then r == t.rows[n]
            else
              && r.status.Sending? && r.claimedBy == inst && r.claimedUntil == Some(t.now + ttl)
              && r.attempts == t.rows[n].attempts + 1
              && r.(status := t.rows[n].status, claimedBy := t.rows[n].claimedBy, attempts := t.rows[n].attempts,
                    claimedUntil := t.rows[n].claimedUntil) == t.rows[n]
  {
  }

  /** Exactly the claims that ran out are taken back. */
  lemma RequeueIsExact(t: Table, n: nat)
    requires n in t.rows
    ensures Requeue(t).rows.Keys == t.rows.Keys
    ensures var r, was := Requeue(t).rows[n], t.rows[n];
            if was.status.Sending? && was.claimedUntil.Some? && was.claimedUntil.value < t.now then
              && r.status.Pending? && r.claimedBy == "" && r.claimedUntil.None?
              && r.(status := was.status, claimedBy := was.claimedBy, claimedUntil := was.claimedUntil) == was
            else r == was
  {
  }

  /** An accepted finish ends the claim and records status, time of the next attempt or time of the end. */
  lemma FinishIsExact(t: Table, inst: string, n: nat, o: Outcome)
    ensures Finish(t, inst, n, o).rows.Keys == t.rows.Keys
    ensures forall m :: m in t.rows && m != n ==> Finish(t, inst, n, o).rows[m] == t.rows[m]
    ensures n in t.rows ==>
              var r, was := Finish(t, inst, n, o).rows[n], t.rows[n];
              if !(was.status.Sending? && was.claimedBy == inst) then r == was
              else
                && r.status == o.status && r.mutedLogged == o.mutedLogged && r.claimedBy == "" && r.claimedUntil.None?
                && r.nextAttempt == (if o.status.Pending? then o.next else was.nextAttempt)
                && r.finishedAt == (if Terminal(o.status) then Some(t.now) else None)
                && r.attempts == was.attempts && r.incident == was.incident && r.channel == was.channel
                && r.kind == was.kind && r.key == was.key && r.createdAt == was.createdAt
  {
  }

  /** A notification becomes a row, to be sent at once, unless its channel is deleted or its key is taken. */
  lemma InsertIsExact(t: Table, incident: nat, channel: string, kind: Kind, key: string)
    requires t.nextSeq !in t.rows
    ensures var u := Insert(t, incident, channel, kind, key);
            if channel in t.gone || exists n :: n in t.rows && t.rows[n].key == key then u == t
            else
              && u.rows.Keys == t.rows.Keys + {t.nextSeq} && u.nextSeq == t.nextSeq + 1
              && (forall n :: n in t.rows ==> u.rows[n] == t.rows[n])
              && var r := u.rows[t.nextSeq];
                 && r.incident == Some(incident) && r.channel == channel && r.kind == kind && r.key == key
                 && r.status.Pending? && r.attempts == 0 && r.nextAttempt == t.now && r.createdAt == t.now
                 && r.claimedBy == "" && r.claimedUntil.None? && !r.mutedLogged && r.finishedAt.None?
  {
  }
}
