/** The idempotency keys of notifications (internal/alert/plan.go), and what they make of the outbox. */
module NotificationKeys {
  import opened Base
  import opened Text
  import opened Plan
  import opened Outbox

  function KindText(kind: Kind): string {
    match kind
    case KindOpened => "opened"
    case KindAcknowledged => "acknowledged"
    case KindRenotify => "renotify"
    case KindResolved => "resolved"
    case KindTest => "test"
  }

  /** Only re-notifications are numbered. */
  function IdempotencyKey(incident: string, kind: Kind, number: string, channel: string): string {
    if kind.KindRenotify? then incident + ":renotify:" + number + ":" + channel
    else incident + ":" + KindText(kind) + ":" + channel
  }

  // ----- keys identify notifications -----

  lemma KindsDiffer(a: Kind, b: Kind)
    ensures KindText(a) == KindText(b) <==> a == b
    ensures ':' !in KindText(a)
  {
    if a != b && |KindText(a)| == |KindText(b)| {
      assert KindText(a)[2] != KindText(b)[2];
    }
  }

  /** What is behind the incident and the kind. */
  function Target(kind: Kind, number: string, channel: string): string {
    if kind.KindRenotify? then number + ":" + channel else channel
  }

  lemma KeyParts(incident: string, kind: Kind, number: string, channel: string)
    requires ':' !in incident
    ensures var key := IdempotencyKey(incident, kind, number, channel);
            var rest := KindText(kind) + ":" + Target(kind, number, channel);
            Cut(key, ':') == Some((incident, rest))
                && Cut(rest, ':') == Some((KindText(kind), Target(kind, number, channel)))
  {
    KeyIsNested(incident, kind, number, channel);
    KindsDiffer(kind, kind);
    hide KindText, Target, IdempotencyKey;
    CutAt(incident, KindText(kind) + ":" + Target(kind, number, channel), ':');
    CutAt(KindText(kind), Target(kind, number, channel), ':');
  }

  lemma KeyIsNested(incident: string, kind: Kind, number: string, channel: string)
    ensures IdempotencyKey(incident, kind, number, channel)
         == incident + ":" + (KindText(kind) + ":" + Target(kind, number, channel))
  {
    if kind.KindRenotify? {
      assert ":renotify:" == ":" + "renotify" + ":";
      Nested(incident, "renotify", number + ":" + channel);
    } else {
      hide KindText;
      Nested(incident, KindText(kind), channel);
    }
  }

  lemma Nested(a: string, b: string, c: string)
    ensures a + ":" + (b + ":" + c) == a + ":" + b + ":" + c == a + (":" + b + ":") + c
  {
  }

  /** Two notifications have the same key exactly when incident, kind and channel agree and, for re-notifications, the
      number. Incident ids hold no colon; channel ids may. */
  lemma KeysIdentifyNotifications(i: string, a: Kind, m: nat, c: string, j: string, b: Kind, n: nat, d: string)
    requires ':' !in i && ':' !in j
    ensures IdempotencyKey(i, a, Itoa(m), c) == IdempotencyKey(j, b, Itoa(n), d) <==>
            i == j && a == b && c == d && (a.KindRenotify? ==> m == n)
  {
    KeyParts(i, a, Itoa(m), c);
    KeyParts(j, b, Itoa(n), d);
    KindsDiffer(a, b);
    if IdempotencyKey(i, a, Itoa(m), c) == IdempotencyKey(j, b, Itoa(n), d) && a.KindRenotify? {
      CutAt(Itoa(m), c, ':');
      CutAt(Itoa(n), d, ':');
      assert Itoa(m) + ":" + c == Itoa(m) + [':'] + c && Itoa(n) + ":" + d == Itoa(n) + [':'] + d;
      DecimalDigits(m);
      DecimalDigits(n);
    }
  }

  // ----- one row per notification -----

  /** How incident ids are written: differently for different incidents, and without a colon. */
  ghost predicate Names(name: nat -> string) {
    && (forall i :: ':' !in name(i))
    && (forall i, j :: name(i) == name(j) ==> i == j)
  }

  ghost predicate Keyed(name: nat -> string, incident: nat, channel: string, kind: Kind, key: string) {
    exists m: nat :: key == IdempotencyKey(name(incident), kind, Itoa(m), channel)
  }

  ghost predicate RowsKeyed(name: nat -> string, t: Table) {
    && (forall n :: n in t.rows ==>
          t.rows[n].incident.Some? && Keyed(name, t.rows[n].incident.value, t.rows[n].channel, t.rows[n].kind,
              t.rows[n].key))
    && (forall n, m :: n in t.rows && m in t.rows && n != m ==> t.rows[n].key != t.rows[m].key)
  }

  /** Changes that leave a row's notification alone, and add no row. */
  predicate SameNotifications(t: Table, u: Table) {
    forall n :: n in u.rows ==>
      && n in t.rows && u.rows[n].incident == t.rows[n].incident && u.rows[n].channel == t.rows[n].channel
      && u.rows[n].kind == t.rows[n].kind && u.rows[n].key == t.rows[n].key
  }

  lemma SameKeepsKeyed(name: nat -> string, t: Table, u: Table)
    requires RowsKeyed(name, t) && SameNotifications(t, u)
    ensures RowsKeyed(name, u)
  {
  }

  lemma EventKeepsKeyed(name: nat -> string, s: System, ev: Event)
    requires RowsKeyed(name, s.t) && Enabled(s, ev)
    requires ev.Write? ==> Keyed(name, ev.incident, ev.channel, ev.kind, ev.key)
    ensures RowsKeyed(name, Apply(s, ev).t)
  {
    if ev.Write? {
      InsertKeepsKeyed(name, s.t, ev.incident, ev.channel, ev.kind, ev.key);
    } else {
      OthersKeepNotifications(s, ev);
      hide Apply, RowsKeyed;
      SameKeepsKeyed(name, s.t, Apply(s, ev).t);
    }
  }

  lemma OthersKeepNotifications(s: System, ev: Event)
    requires Enabled(s, ev) && !ev.Write?
    ensures SameNotifications(s.t, Apply(s, ev).t)
  {
    hide Process, Due;
  }

  lemma InsertKeepsKeyed(name: nat -> string, t: Table, incident: nat, channel: string, kind: Kind, key: string)
    requires RowsKeyed(name, t) && Keyed(name, incident, channel, kind, key)
    ensures RowsKeyed(name, Insert(t, incident, channel, kind, key))
  {
    hide Keyed;
  }

  /** Every row that is written carries the key of its notification. */
  ghost predicate WritesKeyed(name: nat -> string, run: Run) {
    forall n :: 0 <= n < |run.events| && run.events[n].Write? ==>
      Keyed(name, run.events[n].incident, run.events[n].channel, run.events[n].kind, run.events[n].key)
  }

  lemma {:induction false} RunKeepsKeyed(name: nat -> string, run: Run, n: nat)
    requires run.Valid() && WritesKeyed(name, run) && n < |run.states|
    ensures RowsKeyed(name, run.states[n].t)
  {
    hide Apply, Enabled, Keyed;
    if n > 0 {
      RunKeepsKeyed(name, run, n - 1);
      assert run.StepAt(n - 1);
      EventKeepsKeyed(name, run.states[n - 1], run.events[n - 1]);
    }
  }

  /** In every run an incident has at most one opening, acknowledgement and resolution row per channel, and at most one
      re-notification row per channel and number. */
  lemma OneRowPerNotification(name: nat -> string, run: Run, n: nat, p: nat, q: nat)
    requires run.Valid() && Names(name) && WritesKeyed(name, run) && n < |run.states|
    requires var t := run.states[n].t;
             && p in t.rows && q in t.rows && t.rows[p].incident == t.rows[q].incident
             && t.rows[p].channel == t.rows[q].channel && t.rows[p].kind == t.rows[q].kind
    ensures !run.states[n].t.rows[p].kind.KindRenotify? ==> p == q
    ensures run.states[n].t.rows[p].key == run.states[n].t.rows[q].key <==> p == q
  {
    RunKeepsKeyed(name, run, n);
    var x, y := run.states[n].t.rows[p], run.states[n].t.rows[q];
    assert Keyed(name, x.incident.value, x.channel, x.kind, x.key);
    assert Keyed(name, y.incident.value, y.channel, y.kind, y.key);
    var i: nat :| x.key == IdempotencyKey(name(x.incident.value), x.kind, Itoa(i), x.channel);
    var j: nat :| y.key == IdempotencyKey(name(y.incident.value), y.kind, Itoa(j), y.channel);
    KeysIdentifyNotifications(name(x.incident.value), x.kind, i, x.channel, name(y.incident.value), y.kind, j,
        y.channel);
  }
}
