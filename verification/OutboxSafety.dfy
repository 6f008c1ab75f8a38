/** What every run of any number of dispatchers keeps: order per incident and channel, final statuses, no update
    before the opening was delivered, and a bounded number of accepted sends. */
module OutboxSafety {
  import opened Base
  import opened Plan
  import opened Outbox

  // ----- invariants -----

  predicate SameThread(a: Row, b: Row) {
    a.incident.Some? && a.incident == b.incident && a.channel == b.channel
  }

  predicate Ordered(t: Table) {
    forall p, n :: p in t.rows && n in t.rows && p < n && SameThread(t.rows[p], t.rows[n]) && t.rows[n].attempts > 0 ==>
        Terminal(t.rows[p].status)
  }

  predicate Fresh(s: System) {
    && (forall n :: n in s.t.rows ==> n < s.t.nextSeq)
    && (forall a :: a in s.flights ==> a.1 < s.t.nextSeq)
    && (forall b :: 0 <= b < |s.log| ==> s.log[b].row < s.t.nextSeq)
  }

  predicate SameIdentity(a: Row, b: Row) {
    a.incident == b.incident && a.channel == b.channel && a.kind == b.kind
  }

  predicate FlightFits(t: Table, inst: string, n: nat, f: Flight) {
    && f.claimed.attempts > 0
    && (n in t.rows ==> SameIdentity(t.rows[n], f.claimed))
    && (Accepts(t, inst, n) ==> t.rows[n].attempts == f.claimed.attempts)
    && (!f.Decided? && f.channel.Some? ==> f.channel.value == f.claimed.channel)
  }

  predicate FlightsFit(s: System) {
    forall a :: a in s.flights ==> FlightFits(s.t, a.0, a.1, s.flights[a])
  }

  /** The opening of the incident on the channel was recorded as delivered before position `b`. */
  predicate OpeningDelivered(log: seq<Entry>, b: nat, incident: Option<nat>, channel: string)
    requires b <= |log|
  {
    exists a :: 0 <= a < b && IsDeliveredOpening(log[a], incident, channel)
  }

  predicate IsDeliveredOpening(e: Entry, incident: Option<nat>, channel: string) {
    e.Accepted? && e.kind.KindOpened? && e.status.Delivered? && e.incident == incident && e.channel == channel
  }

  predicate IsUpdate(k: Kind) {
    k.KindAcknowledged? || k.KindRenotify? || k.KindResolved?
  }

  predicate RowLogged(s: System, r: Row) {
    r.kind.KindOpened? && r.status.Delivered? ==> OpeningDelivered(s.log, |s.log|, r.incident, r.channel)
  }

  predicate FlightLogged(s: System, f: Flight) {
    && (f.Ready? && f.channel.Some? && f.facts.opening == Some(Delivered) ==>
          OpeningDelivered(s.log, |s.log|, f.claimed.incident, f.claimed.channel))
    && (f.Ready? && f.facts.channel.Some? ==> f.channel.Some?)
  }

  ghost predicate OpeningsLogged(s: System) {
    && (forall n :: n in s.t.rows ==> RowLogged(s, s.t.rows[n]))
    && (forall a :: a in s.flights ==> FlightLogged(s, s.flights[a]))
    && (forall b :: 0 <= b < |s.log| && s.log[b].Sent? && IsUpdate(s.log[b].kind) ==>
          OpeningDelivered(s.log, b, s.log[b].incident, s.log[b].channel))
  }

  predicate CountsFor(e: Entry, n: nat) {
    e.Accepted? && e.sent && e.row == n
  }

  /** How many sends of a row had their outcome recorded. */
  function AcceptedSends(log: seq<Entry>, n: nat): nat {
    if log == [] then 0 else AcceptedSends(log[..|log| - 1], n) + if CountsFor(log[|log| - 1], n) then 1 else 0
  }

  predicate RowCounts(s: System, n: nat, r: Row) {
    && AcceptedSends(s.log, n) + (if r.status.Sending? then 1 else 0) <= r.attempts
    && (!Terminal(r.status) ==> AcceptedSends(s.log, n) < s.lim.maxAttempts)
  }

  /** A decided retry of a send has attempts left. */
  predicate FlightCounts(s: System, f: Flight) {
    f.Decided? ==> (f.decision.sent && f.decision.outcome.status.Pending? ==> f.claimed.attempts < s.lim.maxAttempts)
                   && !f.decision.outcome.status.Sending?
  }

  ghost predicate Counted(s: System) {
    && s.lim.maxAttempts > 0
    && (forall n :: AcceptedSends(s.log, n) <= s.lim.maxAttempts)
    && (forall n :: n in s.t.rows ==> RowCounts(s, n, s.t.rows[n]))
    && (forall a :: a in s.flights ==> FlightCounts(s, s.flights[a]))
  }

  ghost predicate Inv(s: System) {
    Ordered(s.t) && Fresh(s) && FlightsFit(s) && OpeningsLogged(s) && Counted(s)
  }

  // ----- the log grows -----

  lemma OpeningStays(log: seq<Entry>, more: seq<Entry>, b: nat, incident: Option<nat>, channel: string)
    requires b <= |log| && OpeningDelivered(log, b, incident, channel)
    ensures OpeningDelivered(log + more, b, incident, channel)
    ensures OpeningDelivered(log + more, |log + more|, incident, channel)
  {
    var a :| 0 <= a < b && IsDeliveredOpening(log[a], incident, channel);
    assert (log + more)[a] == log[a];
  }

  lemma LogStays(s: System, e: Entry)
    requires OpeningsLogged(s)
    requires e.Sent? && IsUpdate(e.kind) ==> OpeningDelivered(s.log, |s.log|, e.incident, e.channel)
    ensures OpeningsLogged(s.(log := s.log + [e]))
  {
    var t := s.(log := s.log + [e]);
    forall n | n in t.t.rows ensures RowLogged(t, t.t.rows[n]) {
      var r := t.t.rows[n];
      if r.kind.KindOpened? && r.status.Delivered? {
        assert RowLogged(s, r);
        OpeningStays(s.log, [e], |s.log|, r.incident, r.channel);
      }
    }
    forall a | a in t.flights ensures FlightLogged(t, t.flights[a]) {
      var f := t.flights[a];
      assert FlightLogged(s, f);
      if f.Ready? && f.channel.Some? && f.facts.opening == Some(Delivered) {
        OpeningStays(s.log, [e], |s.log|, f.claimed.incident, f.claimed.channel);
      }
    }
    forall b | 0 <= b < |t.log| && t.log[b].Sent? && IsUpdate(t.log[b].kind)
      ensures OpeningDelivered(t.log, b, t.log[b].incident, t.log[b].channel)
    {
      if b < |s.log| {
        OpeningStays(s.log, [e], b, s.log[b].incident, s.log[b].channel);
      } else {
        OpeningStays(s.log, [e], b, e.incident, e.channel);
      }
    }
  }

  lemma CountAppend(log: seq<Entry>, e: Entry, n: nat)
    ensures AcceptedSends(log + [e], n) == AcceptedSends(log, n) + if CountsFor(e, n) then 1 else 0
  {
    assert (log + [e])[..|log|] == log;
  }

  lemma {:induction false} CountFresh(log: seq<Entry>, bound: nat, n: nat)
    requires bound <= n && forall b :: 0 <= b < |log| ==> log[b].row < bound
    ensures AcceptedSends(log, n) == 0
  {
    if log != [] {
      CountFresh(log[..|log| - 1], bound, n);
    }
  }

  // ----- statements -----

  /** A statement that keeps every remaining row or puts an unfinished one back to pending. */
  ghost predicate Gentle(s: System, t: System) {
    && t.lim == s.lim && t.flights == s.flights && t.log == s.log && t.t.nextSeq == s.t.nextSeq && s.t.gone <= t.t.gone
    && forall n :: n in t.t.rows ==>
         && n in s.t.rows
         && (t.t.rows[n] == s.t.rows[n] || (s.t.rows[n].status.Sending? && t.t.rows[n] == Unclaimed(s.t.rows[n])))
  }

  lemma GentleKeeps(s: System, t: System)
    requires Inv(s) && Gentle(s, t)
    ensures Inv(t)
  {
    forall a | a in t.flights ensures FlightFits(t.t, a.0, a.1, t.flights[a]) && FlightLogged(t, t.flights[a])
        && FlightCounts(t, t.flights[a]) {
      assert FlightFits(s.t, a.0, a.1, s.flights[a]);
      assert FlightLogged(s, s.flights[a]) && FlightCounts(s, s.flights[a]);
    }
    forall n | n in t.t.rows ensures RowLogged(t, t.t.rows[n]) && RowCounts(t, n, t.t.rows[n]) {
      assert RowLogged(s, s.t.rows[n]) && RowCounts(s, n, s.t.rows[n]);
    }
  }

  lemma GentleEvents(s: System, ev: Event)
    requires Inv(s) && Enabled(s, ev)
    requires ev.Advance? || ev.DeleteChannel? || ev.DeleteIncident? || ev.PruneOld? || ev.RequeueExpired?
    ensures Inv(Apply(s, ev))
  {
    hide Inv;
    GentleKeeps(s, Apply(s, ev));
  }

  lemma WriteKeeps(s: System, ev: Event)
    requires Inv(s) && Enabled(s, ev) && ev.Write?
    ensures Inv(Apply(s, ev))
  {
    var t := Apply(s, ev);
    if t.t != s.t {
      var n := s.t.nextSeq;
      CountFresh(s.log, n, n);
      forall m | m in t.t.rows ensures RowLogged(t, t.t.rows[m]) && RowCounts(t, m, t.t.rows[m]) {
        if m != n {
          assert RowLogged(s, s.t.rows[m]) && RowCounts(s, m, s.t.rows[m]);
        }
      }
      forall a | a in t.flights ensures FlightFits(t.t, a.0, a.1, t.flights[a]) && FlightLogged(t, t.flights[a])
          && FlightCounts(t, t.flights[a]) {
        assert FlightFits(s.t, a.0, a.1, s.flights[a]);
        assert FlightLogged(s, s.flights[a]) && FlightCounts(s, s.flights[a]);
      }
    }
  }

  lemma ClaimOrdered(s: System, inst: string, picked: set<nat>, ttl: int)
    requires Ordered(s.t) && forall n :: n in picked ==> Due(s.t, n)
    ensures Ordered(ClaimRows(s.t, inst, picked, ttl))
  {
    var t := ClaimRows(s.t, inst, picked, ttl);
    forall p, n | p in t.rows && n in t.rows && p < n && SameThread(t.rows[p], t.rows[n]) && t.rows[n].attempts > 0
      ensures Terminal(t.rows[p].status)
    {
      if n in picked {
        assert !Blocks(s.t, p, n);
      }
    }
  }

  /** A claimed flight carries the row as claimed; the others are as before. */
  lemma ClaimedFlight(s: System, inst: string, picked: set<nat>, ttl: int, a: (string, nat))
    requires forall n :: n in picked ==> n in s.t.rows
    requires a in ClaimFlights(s, inst, picked, ttl)
    ensures var f := ClaimFlights(s, inst, picked, ttl)[a];
            if a.0 == inst && a.1 in picked
            then f == Claimed(ClaimRow(s.t, s.t.rows[a.1], inst, ttl), s.t.ChannelOf(s.t.rows[a.1]))
            else a in s.flights && f == s.flights[a]
  {
    var claimed := map n | n in picked ::
        (inst, n) := Claimed(ClaimRow(s.t, s.t.rows[n], inst, ttl), s.t.ChannelOf(s.t.rows[n]));
    if a.0 == inst && a.1 in picked {
      assert (inst, a.1) in claimed;
    }
  }

  lemma ClaimKeepsRows(s: System, t: System, inst: string, picked: set<nat>, ttl: int, n: nat)
    requires n in s.t.rows && RowLogged(s, s.t.rows[n]) && RowCounts(s, n, s.t.rows[n])
    requires t.log == s.log && t.lim == s.lim && (n in picked ==> s.t.rows[n].status.Pending?)
    requires n in t.t.rows && t.t.rows[n] == if n in picked then ClaimRow(s.t, s.t.rows[n], inst, ttl) else s.t.rows[n]
    ensures RowLogged(t, t.t.rows[n]) && RowCounts(t, n, t.t.rows[n])
  {
  }

  lemma ClaimKeepsFlight(s: System, t: System, ev: Event, a: (string, nat))
    requires Inv(s) && Enabled(s, ev) && ev.ClaimDeliveries? && t == Apply(s, ev) && a in t.flights
    ensures FlightFits(t.t, a.0, a.1, t.flights[a]) && FlightLogged(t, t.flights[a]) && FlightCounts(t, t.flights[a])
    ensures a.1 < t.t.nextSeq
  {
    hide ClaimFlights;
    ClaimedFlight(s, ev.inst, ev.picked, ev.ttl, a);
    if !(a.0 == ev.inst && a.1 in ev.picked) {
      assert FlightFits(s.t, a.0, a.1, s.flights[a]);
      assert FlightLogged(s, s.flights[a]) && FlightCounts(s, s.flights[a]);
    }
  }

  lemma ClaimKeeps(s: System, ev: Event)
    requires Inv(s) && Enabled(s, ev) && ev.ClaimDeliveries?
    ensures Inv(Apply(s, ev))
  {
    hide ClaimFlights;
    hide FlightFits;
    hide FlightLogged;
    hide FlightCounts;
    hide RowLogged;
    hide RowCounts;
    hide Ordered;
    var t := Apply(s, ev);
    ClaimOrdered(s, ev.inst, ev.picked, ev.ttl);
    forall n | n in t.t.rows ensures RowLogged(t, t.t.rows[n]) && RowCounts(t, n, t.t.rows[n]) {
      ClaimKeepsRows(s, t, ev.inst, ev.picked, ev.ttl, n);
    }
    forall a | a in t.flights
      ensures FlightFits(t.t, a.0, a.1, t.flights[a]) && FlightLogged(t, t.flights[a]) && FlightCounts(t, t.flights[a])
          && a.1 < t.t.nextSeq
    {
      ClaimKeepsFlight(s, t, ev, a);
    }
  }

  // ----- deliveries -----

  lemma FlightChange(s: System, t: System, a: (string, nat), f: Flight)
    requires Inv(s) && a in s.flights && t == s.(flights := s.flights[a := f])
    requires FlightFits(s.t, a.0, a.1, f) && FlightLogged(s, f) && FlightCounts(s, f)
    ensures Inv(t)
  {
    forall b | b in t.flights ensures FlightFits(t.t, b.0, b.1, t.flights[b]) && FlightLogged(t, t.flights[b])
        && FlightCounts(t, t.flights[b]) {
      if b != a {
        assert FlightFits(s.t, b.0, b.1, s.flights[b]) && FlightLogged(s, s.flights[b])
            && FlightCounts(s, s.flights[b]);
      }
    }
    forall n | n in t.t.rows ensures RowLogged(t, t.t.rows[n]) && RowCounts(t, n, t.t.rows[n]) {
      assert RowLogged(s, s.t.rows[n]) && RowCounts(s, n, s.t.rows[n]);
    }
  }

  lemma ReadKeeps(s: System, ev: Event)
    requires Inv(s) && Enabled(s, ev) && ev.ReadFacts?
    ensures Inv(Apply(s, ev))
  {
    var a := (ev.inst, ev.row);
    var c := s.flights[a];
    var f := Ready(c.claimed, c.channel, ev.facts);
    assert FlightFits(s.t, a.0, a.1, c) && FlightLogged(s, c) && FlightCounts(s, c);
    if c.channel.Some? && ev.facts.opening == Some(Delivered) {
      var n :| n in s.t.rows && IsOpening(s.t, n, c.claimed.incident, c.channel) && s.t.rows[n].status == Delivered;
      assert RowLogged(s, s.t.rows[n]);
    }
    FlightChange(s, Apply(s, ev), a, f);
  }

  lemma LogSent(s: System, e: Entry)
    requires Inv(s) && e.Sent? && e.row < s.t.nextSeq
    requires IsUpdate(e.kind) ==> OpeningDelivered(s.log, |s.log|, e.incident, e.channel)
    ensures Inv(s.(log := s.log + [e]))
  {
    var t := s.(log := s.log + [e]);
    LogStays(s, e);
    forall n: nat ensures AcceptedSends(t.log, n) == AcceptedSends(s.log, n) {
      CountAppend(s.log, e, n);
    }
    forall n | n in t.t.rows ensures RowCounts(t, n, t.t.rows[n]) {
      assert RowCounts(s, n, s.t.rows[n]);
    }
  }

  lemma ProcessKeeps(s: System, ev: Event)
    requires Inv(s) && Enabled(s, ev) && ev.ProcessRow?
    ensures Inv(Apply(s, ev))
  {
    hide Process;
    var a := (ev.inst, ev.row);
    var c := s.flights[a];
    assert FlightFits(s.t, a.0, a.1, c) && FlightLogged(s, c) && FlightCounts(s, c);
    var d := Process(c.claimed, c.facts, ev.world, s.lim);
    var f := Decided(c.claimed, d);
    assert FlightFits(s.t, a.0, a.1, f) && FlightLogged(s, f) && FlightCounts(s, f);
    var mid := s.(flights := s.flights[a := f]);
    FlightChange(s, mid, a, f);
    if d.sent {
      LogSent(mid, Sent(ev.row, c.claimed.incident, c.claimed.channel, c.claimed.kind));
    }
  }

  lemma FlightsDropped(s: System, t: System)
    requires Inv(s) && t == s.(flights := t.flights) && forall a :: a in t.flights ==>
        a in s.flights && t.flights[a] == s.flights[a]
    ensures Inv(t)
  {
    forall a | a in t.flights ensures FlightFits(t.t, a.0, a.1, t.flights[a]) && FlightLogged(t, t.flights[a])
        && FlightCounts(t, t.flights[a]) {
      assert FlightFits(s.t, a.0, a.1, s.flights[a]) && FlightLogged(s, s.flights[a]) && FlightCounts(s, s.flights[a]);
    }
    forall n | n in t.t.rows ensures RowLogged(t, t.t.rows[n]) && RowCounts(t, n, t.t.rows[n]) {
      assert RowLogged(s, s.t.rows[n]) && RowCounts(s, n, s.t.rows[n]);
    }
  }

  /** An accepted finish: the log entry first, then the row. */
  lemma AcceptKeeps(s: System, t: System, inst: string, n: nat, f: Flight)
    requires Inv(s) && (inst, n) in s.flights && s.flights[(inst, n)] == f && f.Decided? && Accepts(s.t, inst, n)
    requires t == s.(t := Finish(s.t, inst, n, f.decision.outcome),
                     log := s.log + [Accepted(n, f.claimed.incident, f.claimed.channel, f.claimed.kind, f.decision.sent,
                         f.decision.outcome.status)])
    ensures Inv(t)
  {
    var e := Accepted(n, f.claimed.incident, f.claimed.channel, f.claimed.kind, f.decision.sent,
        f.decision.outcome.status);
    assert FlightFits(s.t, inst, n, f) && FlightCounts(s, f);
    LogStays(s, e);
    var mid := s.(log := s.log + [e]);
    forall m: nat ensures AcceptedSends(t.log, m) == AcceptedSends(s.log, m) + if CountsFor(e, m) then 1 else 0 {
      CountAppend(s.log, e, m);
    }
    assert RowCounts(s, n, s.t.rows[n]);
    forall m | m in t.t.rows ensures RowLogged(t, t.t.rows[m]) && RowCounts(t, m, t.t.rows[m]) {
      if m != n {
        assert RowLogged(mid, s.t.rows[m]) && RowCounts(s, m, s.t.rows[m]);
      } else {
        assert t.log[|s.log|] == e;
      }
    }
    forall a | a in t.flights ensures FlightFits(t.t, a.0, a.1, t.flights[a]) && FlightLogged(t, t.flights[a])
        && FlightCounts(t, t.flights[a]) {
      assert FlightFits(s.t, a.0, a.1, s.flights[a]) && FlightLogged(mid, s.flights[a])
          && FlightCounts(s, s.flights[a]);
    }
  }

  lemma FinishKeeps(s: System, ev: Event)
    requires Inv(s) && Enabled(s, ev) && ev.FinishDelivery?
    ensures Inv(Apply(s, ev))
  {
    hide Inv;
    var f := s.flights[(ev.inst, ev.row)];
    var t := Apply(s, ev);
    var mid := t.(flights := s.flights);
    if Accepts(s.t, ev.inst, ev.row) {
      AcceptKeeps(s, mid, ev.inst, ev.row, f);
    } else {
      assert mid == s;
    }
    FlightsDropped(mid, t);
  }

  lemma EventKeeps(s: System, ev: Event)
    requires Inv(s) && Enabled(s, ev)
    ensures Inv(Apply(s, ev))
  {
    hide Inv;
    match ev
    case Write(_, _, _, _) => WriteKeeps(s, ev);
    case ClaimDeliveries(_, _, _) => ClaimKeeps(s, ev);
    case ReadFacts(_, _, _) => ReadKeeps(s, ev);
    case ProcessRow(_, _, _) => ProcessKeeps(s, ev);
    case FinishDelivery(_, _) => FinishKeeps(s, ev);
    case Crash(_) => FlightsDropped(s, Apply(s, ev));
    case _ => GentleEvents(s, ev);
  }

  lemma {:induction false} RunKeepsInv(run: Run, n: nat)
    requires run.Valid() && n < |run.states|
    ensures Inv(run.states[n])
  {
    hide Apply;
    hide Enabled;
    if n > 0 {
      RunKeepsInv(run, n - 1);
      assert run.StepAt(n - 1);
      EventKeeps(run.states[n - 1], run.events[n - 1]);
    }
  }

  // ----- what dispatchers promise -----

  /** Once a row has been claimed, every older row of its incident and channel that is still stored is finished. */
  lemma OlderRowsAreFinished(run: Run, n: nat, p: nat, q: nat)
    requires run.Valid() && n < |run.states|
    requires var t := run.states[n].t;
             p in t.rows && q in t.rows && p < q && SameThread(t.rows[p], t.rows[q]) && t.rows[q].attempts > 0
    ensures Terminal(run.states[n].t.rows[p].status)
  {
    RunKeepsInv(run, n);
  }

  /** A finished row never changes again, whatever dispatchers do; it can only be removed. */
  lemma FinishedIsFinal(s: System, ev: Event, n: nat)
    requires Inv(s) && Enabled(s, ev) && n in s.t.rows && Terminal(s.t.rows[n].status)
    ensures n in Apply(s, ev).t.rows ==> Apply(s, ev).t.rows[n] == s.t.rows[n]
  {
    assert Fresh(s);
  }

  lemma {:induction false} FinishedStaysFinished(run: Run, a: nat, b: nat, n: nat)
    requires run.Valid() && a <= b < |run.states| && n in run.states[a].t.rows
        && Terminal(run.states[a].t.rows[n].status)
    ensures n in run.states[b].t.rows ==> run.states[b].t.rows[n] == run.states[a].t.rows[n]
    decreases b
  {
    hide Apply;
    hide Enabled;
    if a < b {
      FinishedStaysFinished(run, a, b - 1, n);
      assert run.StepAt(b - 1);
      RunKeepsInv(run, b - 1);
      RemovedStaysRemoved(run, a, b - 1, n);
      if n in run.states[b - 1].t.rows {
        FinishedIsFinal(run.states[b - 1], run.events[b - 1], n);
      } else {
        SeqIsNotReused(run.states[b - 1], run.events[b - 1], n);
      }
    }
  }

  /** Sequence numbers are not handed out twice. */
  lemma SeqIsNotReused(s: System, ev: Event, n: nat)
    requires Enabled(s, ev) && n !in s.t.rows && n < s.t.nextSeq
    ensures n !in Apply(s, ev).t.rows
  {
  }

  lemma NextSeqGrows(s: System, ev: Event)
    requires Enabled(s, ev)
    ensures s.t.nextSeq <= Apply(s, ev).t.nextSeq
  {
  }

  lemma {:induction false} RemovedStaysRemoved(run: Run, a: nat, b: nat, n: nat)
    requires run.Valid() && a <= b < |run.states| && n in run.states[a].t.rows
    ensures n < run.states[b].t.nextSeq
    decreases b
  {
    hide Apply;
    hide Enabled;
    if a < b {
      RemovedStaysRemoved(run, a, b - 1, n);
      assert run.StepAt(b - 1);
      NextSeqGrows(run.states[b - 1], run.events[b - 1]);
    } else {
      RunKeepsInv(run, a);
    }
  }

  /** Every acknowledge, re-notify or resolve send comes after the same channel's opening notification of the
      incident was recorded as delivered. */
  lemma UpdatesFollowDeliveredOpening(run: Run, n: nat, b: nat) returns (a: nat)
    requires run.Valid() && n < |run.states| && b < |run.states[n].log|
    requires run.states[n].log[b].Sent? && IsUpdate(run.states[n].log[b].kind)
    ensures var e := run.states[n].log[b];
            a < b && IsDeliveredOpening(run.states[n].log[a], e.incident, e.channel)
  {
    RunKeepsInv(run, n);
    var log := run.states[n].log;
    a :| 0 <= a < b && IsDeliveredOpening(log[a], log[b].incident, log[b].channel);
  }

  /** However often dispatchers lose and regain a row, at most the allowed number of its sends is ever recorded. */
  lemma AcceptedSendsAreBounded(run: Run, n: nat, row: nat)
    requires run.Valid() && n < |run.states|
    ensures AcceptedSends(run.states[n].log, row) <= run.states[n].lim.maxAttempts
  {
    RunKeepsInv(run, n);
  }
}
