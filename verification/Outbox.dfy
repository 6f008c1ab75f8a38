/** The notification outbox: the alert_notifications table, the statements dispatchers run against it
    (internal/alert/pgstore_eval.go) and the delivery decision (internal/alert/dispatcher.go). */
module Outbox {
  import opened Base
  import opened Plan
  import Series

  datatype Status = Pending | Sending | Delivered | Failed | Suppressed

  predicate Terminal(s: Status) {
    s.Delivered? || s.Failed? || s.Suppressed?
  }

  /** A row's `channel` is the one it was written for; deleting the channel turns the column to NULL. */
  datatype Row = Row(
    incident: Option<nat>,
    channel: string,
    kind: Kind,
    key: string,
    status: Status,
    attempts: nat,
    nextAttempt: Time,
    claimedBy: string,
    claimedUntil: Option<Time>,
    mutedLogged: bool,
    createdAt: Time,
    finishedAt: Option<Time>
  )

  /** Rows by their `seq`, the insertion order. `gone` are the deleted channels. */
  datatype Table = Table(now: Time, rows: map<nat, Row>, nextSeq: nat, gone: set<string>) {
    function ChannelOf(r: Row): Option<string> {
      if r.channel in gone then None else Some(r.channel)
    }
  }

  // ----- statements -----

  function NewRow(t: Table, incident: nat, channel: string, kind: Kind, key: string): Row {
    Row(Some(incident), channel, kind, key, Pending, 0, t.now, "", None, false, t.now, None)
  }

  /** An outbox row is written unless its channel is deleted or its idempotency key is taken. */
  function Insert(t: Table, incident: nat, channel: string, kind: Kind, key: string): Table {
    if channel in t.gone || exists n :: n in t.rows && t.rows[n].key == key then t
    else t.(rows := t.rows[t.nextSeq := NewRow(t, incident, channel, kind, key)], nextSeq := t.nextSeq + 1)
  }

  predicate Expired(t: Table, r: Row) {
    r.status.Sending? && r.claimedUntil.Some? && r.claimedUntil.value < t.now
  }

  function Unclaimed(r: Row): Row {
    r.(status := Pending, claimedBy := "", claimedUntil := None)
  }

  function Requeue(t: Table): Table {
    t.(rows := map n | n in t.rows :: if Expired(t, t.rows[n]) then Unclaimed(t.rows[n]) else t.rows[n])
  }

  /** An unfinished older row of the same incident and channel. */
  predicate Blocks(t: Table, p: nat, n: nat)
    requires p in t.rows && n in t.rows
  {
    && p < n && t.rows[p].incident.Some? && t.rows[p].incident == t.rows[n].incident
    && t.ChannelOf(t.rows[p]) == t.ChannelOf(t.rows[n])
    && !Terminal(t.rows[p].status)
  }

  predicate Due(t: Table, n: nat) {
    && n in t.rows && t.rows[n].status.Pending? && t.rows[n].nextAttempt <= t.now
    && forall p :: p in t.rows ==> !Blocks(t, p, n)
  }

  function ClaimRow(t: Table, r: Row, inst: string, ttl: int): Row {
    r.(status := Sending, claimedBy := inst, claimedUntil := Some(t.now + ttl), attempts := r.attempts + 1)
  }

  function ClaimRows(t: Table, inst: string, picked: set<nat>, ttl: int): Table {
    t.(rows := map n | n in t.rows :: if n in picked then ClaimRow(t, t.rows[n], inst, ttl) else t.rows[n])
  }

  datatype Outcome = Outcome(status: Status, next: Time, mutedLogged: bool)

  /** A finish is accepted only while the row is still claimed by the dispatcher. */
  predicate Accepts(t: Table, inst: string, n: nat) {
    n in t.rows && t.rows[n].status.Sending? && t.rows[n].claimedBy == inst
  }

  function FinishRow(t: Table, r: Row, o: Outcome): Row {
    r.(status := o.status, mutedLogged := o.mutedLogged,
    nextAttempt := if o.status.Pending? then o.next else r.nextAttempt,
    claimedBy := "", claimedUntil := None, finishedAt := if Terminal(o.status) then Some(t.now) else None)
  }

  function Finish(t: Table, inst: string, n: nat, o: Outcome): Table {
    if Accepts(t, inst, n) then t.(rows := t.rows[n := FinishRow(t, t.rows[n], o)]) else t
  }

  /** Retention: finished rows go after a while. */
  function PruneFinished(t: Table, before: Time): Table {
    t.(rows := map n | n in t.rows && !(t.rows[n].finishedAt.Some? && t.rows[n].finishedAt.value < before) :: t.rows[n])
  }

  /** Deleting an incident deletes its rows. */
  function DropIncident(t: Table, i: nat): Table {
    t.(rows := map n | n in t.rows && t.rows[n].incident != Some(i) :: t.rows[n])
  }

  // ----- the delivery decision -----

  /** What a dispatcher reads after the claim: whether the channel exists and is enabled, the incident's state and
      the status of the channel's opening notification. */
  datatype Facts = Facts(channel: Option<bool>, incident: Option<Series.IncidentState>, opening: Option<Status>)

  datatype SendResult = Ok | Permanent | Retryable(wait: int)

  /** The rest of the world as one delivery meets it: the clock, the end of a matching mute, readable secrets, a
      readable payload and the answer of the receiver. */
  datatype World = World(now: Time, mutedUntil: Option<Time>, secrets: bool, backoff: int, payload: bool,
      answer: SendResult)

  datatype Limits = Limits(maxAttempts: nat, maxAge: int)

  datatype Decision = Decision(outcome: Outcome, sent: bool)

  function RetryOrFail(r: Row, w: World, wait: int, lim: Limits): (o: Outcome)
    ensures o.status.Pending? <==> r.attempts < lim.maxAttempts && w.now - r.createdAt < lim.maxAge
    ensures !o.status.Pending? ==> o.status.Failed?
    ensures o.status.Pending? ==> o.next == w.now + Max(w.backoff, wait)
    ensures o.mutedLogged == r.mutedLogged
  {
    if r.attempts >= lim.maxAttempts || w.now - r.createdAt >= lim.maxAge then Outcome(Failed, w.now, r.mutedLogged)
    else Outcome(Pending, w.now + Max(w.backoff, wait), r.mutedLogged)
  }

  function Stop(status: Status, r: Row, w: World): Decision {
    Decision(Outcome(status, w.now, r.mutedLogged), false)
  }

  /** Decides one claimed row. Nothing but an opening (or test) notification is sent unless the opening was
      delivered on the channel, muted notifications are postponed or dropped but not sent, and a row goes back to
      pending only when it is muted or may be retried. */
  function Process(r: Row, f: Facts, w: World, lim: Limits): (d: Decision)
    ensures d.sent <==>
            && w.secrets && w.payload && f.channel.Some?
            && (r.kind.KindTest? || (
                && f.channel.value && f.incident.Some? && w.mutedUntil.None?
                && (r.kind.KindOpened? || f.opening == Some(Delivered))
                && (r.kind.KindRenotify? ==> f.incident.value.Open?)
                && (r.kind.KindOpened? && r.mutedLogged ==> !f.incident.value.Resolved?)))
    ensures d.sent ==> r.kind.KindTest? || (f.channel.value && f.incident.Some? && w.mutedUntil.None?)
    ensures d.sent ==> r.kind.KindOpened? || r.kind.KindTest? || f.opening == Some(Delivered)
    ensures d.outcome.status.Delivered? <==> d.sent && w.answer.Ok?
    ensures d.outcome.status.Pending? ==>
        r.attempts < lim.maxAttempts || (!d.sent && w.mutedUntil == Some(d.outcome.next) && d.outcome.mutedLogged)
    ensures !d.outcome.status.Sending?
  {
    if f.channel.None? then Stop(Failed, r, w)
    else if !f.channel.value && !r.kind.KindTest? then Stop(Failed, r, w)
    else if r.kind.KindTest? then Deliver(r, w, lim)
    else if f.incident.None? then Stop(Failed, r, w)
    else if !r.kind.KindOpened? && f.opening != Some(Delivered) then Stop(Suppressed, r, w)
    else if r.kind.KindRenotify? && !f.incident.value.Open? then Stop(Suppressed, r, w)
    else if w.mutedUntil.Some? then
      if r.kind.KindRenotify? || r.kind.KindAcknowledged? then Stop(Suppressed, r, w)
      else Decision(Outcome(Pending, w.mutedUntil.value, true), false)
    else if r.kind.KindOpened? && r.mutedLogged && f.incident.value.Resolved? then Stop(Suppressed, r, w)
    else Deliver(r, w, lim)
  }

  function Deliver(r: Row, w: World, lim: Limits): (d: Decision)
    ensures d.outcome.status.Pending? ==> r.attempts < lim.maxAttempts
    ensures d.sent <==> w.secrets && w.payload
    ensures d.outcome.status.Delivered? <==> d.sent && w.answer.Ok?
    ensures !d.outcome.status.Sending?
  {
    if !w.secrets then Decision(RetryOrFail(r, w, 0, lim), false)
    else if !w.payload then Stop(Failed, r, w)
    else match w.answer
      case Ok => Decision(Outcome(Delivered, w.now, r.mutedLogged), true)
      case Permanent => Decision(Outcome(Failed, w.now, r.mutedLogged), true)
      case Retryable(wait) => Decision(RetryOrFail(r, w, wait, lim), true)
  }

  // ----- any number of dispatchers -----

  /** A delivery in the hands of a dispatcher. `claimed` is the row as the claim returned it, `channel` its channel
      column at that moment. */
  datatype Flight =
    | Claimed(claimed: Row, channel: Option<string>)
    | Ready(claimed: Row, channel: Option<string>, facts: Facts)
    | Decided(claimed: Row, decision: Decision)

  datatype Entry =
    | Sent(row: nat, incident: Option<nat>, channel: string, kind: Kind)
    | Accepted(row: nat, incident: Option<nat>, channel: string, kind: Kind, sent: bool, status: Status)

  datatype System = System(t: Table, lim: Limits, flights: map<(string, nat), Flight>, log: seq<Entry>)

  datatype Event =
    | Advance(to: Time)
    | Write(incident: nat, channel: string, kind: Kind, key: string)
    | DeleteChannel(gone: string)
    | DeleteIncident(dropped: nat)
    | PruneOld(before: Time)
    | RequeueExpired
    | ClaimDeliveries(inst: string, picked: set<nat>, ttl: int)
    | ReadFacts(inst: string, row: nat, facts: Facts)
    | ProcessRow(inst: string, row: nat, world: World)
    | FinishDelivery(inst: string, row: nat)
    | Crash(inst: string)

  /** An opening notification of the incident whose channel column reads `channel`. */
  predicate IsOpening(t: Table, n: nat, incident: Option<nat>, channel: Option<string>) {
    && n in t.rows && t.rows[n].kind.KindOpened? && incident.Some? && t.rows[n].incident == incident
    && t.ChannelOf(t.rows[n]) == channel
  }

  predicate ReadsOpened(t: Table, incident: Option<nat>, channel: Option<string>, opening: Option<Status>) {
    opening.Some? ==> exists n :: n in t.rows && IsOpening(t, n, incident, channel) && t.rows[n].status == opening.value
  }

  ghost predicate Enabled(s: System, ev: Event) {
    match ev
    case Advance(to) => s.t.now <= to
    // A round ends before the next one claims.
    case ClaimDeliveries(inst, picked, _) =>
      inst != "" && (forall a :: a in s.flights ==> a.0 != inst) && forall n :: n in picked ==> Due(s.t, n)
    case ReadFacts(inst, n, f) =>
      && (inst, n) in s.flights && s.flights[(inst, n)].Claimed?
      && (f.channel.Some? ==> s.flights[(inst, n)].channel.Some?)
      && ReadsOpened(s.t, s.flights[(inst, n)].claimed.incident, s.flights[(inst, n)].channel, f.opening)
    case ProcessRow(inst, n, _) => (inst, n) in s.flights && s.flights[(inst, n)].Ready?
    case FinishDelivery(inst, n) => (inst, n) in s.flights && s.flights[(inst, n)].Decided?
    case _ => true
  }

  function ClaimFlights(s: System, inst: string, picked: set<nat>, ttl: int): map<(string, nat), Flight>
    requires forall n :: n in picked ==> n in s.t.rows
  {
    s.flights + map n | n in picked :: (inst, n) :=
        Claimed(ClaimRow(s.t, s.t.rows[n], inst, ttl), s.t.ChannelOf(s.t.rows[n]))
  }

  ghost function Apply(s: System, ev: Event): System
    requires Enabled(s, ev)
  {
    match ev
    case Advance(to) => s.(t := s.t.(now := to))
    case Write(i, c, k, key) => s.(t := Insert(s.t, i, c, k, key))
    case DeleteChannel(c) => s.(t := s.t.(gone := s.t.gone + {c}))
    case DeleteIncident(i) => s.(t := DropIncident(s.t, i))
    case PruneOld(before) => s.(t := PruneFinished(s.t, before))
    case RequeueExpired => s.(t := Requeue(s.t))
    case ClaimDeliveries(inst, picked, ttl) =>
      s.(t := ClaimRows(s.t, inst, picked, ttl), flights := ClaimFlights(s, inst, picked, ttl))
    case ReadFacts(inst, n, f) =>
      var c := s.flights[(inst, n)];
      s.(flights := s.flights[(inst, n) := Ready(c.claimed, c.channel, f)])
    case ProcessRow(inst, n, w) =>
      var c := s.flights[(inst, n)];
      var d := Process(c.claimed, c.facts, w, s.lim);
      s.(flights := s.flights[(inst, n) := Decided(c.claimed, d)],
      log := if d.sent then s.log + [Sent(n, c.claimed.incident, c.claimed.channel, c.claimed.kind)] else s.log)
    case FinishDelivery(inst, n) =>
      var c := s.flights[(inst, n)];
      var r := c.claimed;
      s.(t := Finish(s.t, inst, n, c.decision.outcome), flights := s.flights - {(inst, n)},
      log := if Accepts(s.t, inst, n)
             then s.log + [Accepted(n, r.incident, r.channel, r.kind, c.decision.sent, c.decision.outcome.status)]
             else s.log)
    case Crash(inst) => s.(flights := map a | a in s.flights && a.0 != inst :: s.flights[a])
  }

  datatype Run = Run(states: seq<System>, events: seq<Event>) {
    ghost predicate Valid() {
      && |states| == |events| + 1
      && states[0].t.rows == map[] && states[0].flights == map[] && states[0].log == [] && states[0].lim.maxAttempts > 0
      && forall n :: 0 <= n < |events| ==> StepAt(n)
    }

    ghost predicate StepAt(n: nat)
      requires n < |events| && |states| == |events| + 1
    {
      Enabled(states[n], events[n]) && states[n + 1] == Apply(states[n], events[n])
    }
  }
}
