/** The outbox statements run in place on the table, row by row. */
module OutboxStore {
  import opened Base
  import opened Plan
  import opened Outbox

  /** The order in which due rows are claimed. */
  predicate Before(t: Table, a: nat, b: nat) {
    && a in t.rows && b in t.rows
    && (t.rows[a].nextAttempt < t.rows[b].nextAttempt || (t.rows[a].nextAttempt == t.rows[b].nextAttempt && a <= b))
  }

  /** The first of a non-empty set of rows. */
  method Earliest(t: Table, rows: set<nat>) returns (first: nat)
    requires rows != {} && forall n :: n in rows ==> n in t.rows
    ensures first in rows && forall n :: n in rows ==> Before(t, first, n)
  {
    first :| first in rows;
    var rest := rows - {first};
    while rest != {}
      invariant rest <= rows && first in rows && first !in rest
      invariant forall n :: n in rows && n !in rest ==> Before(t, first, n)
      decreases rest
    {
      var n :| n in rest;
      if !Before(t, first, n) {
        first := n;
      }
      rest := rest - {n};
    }
  }

  /** The rows a claim of at most `limit` takes: due ones, the earliest first, and as many as there are. */
  method FirstDue(t: Table, limit: nat) returns (picked: seq<nat>)
    ensures |picked| == Min(limit, |set n | n in t.rows && Due(t, n)|)
    ensures forall i :: 0 <= i < |picked| ==> Due(t, picked[i])
    ensures forall i, j :: 0 <= i < j < |picked| ==> picked[i] != picked[j] && Before(t, picked[i], picked[j])
    ensures forall n, i :: Due(t, n) && n !in picked && 0 <= i < |picked| ==> Before(t, picked[i], n)
  {
    var due := set n | n in t.rows && Due(t, n);
    assert forall n :: Due(t, n) ==> n in due;
    hide Due;
    picked := [];
    var rest := due;
    while rest != {} && |picked| < limit
      invariant rest <= due && |picked| <= limit && |picked| + |rest| == |due|
      invariant forall n :: n in due ==> n in rest || n in picked
      invariant forall i :: 0 <= i < |picked| ==> picked[i] in due && picked[i] !in rest
      invariant forall i, j :: 0 <= i < j < |picked| ==> picked[i] != picked[j] && Before(t, picked[i], picked[j])
      invariant forall i, n :: 0 <= i < |picked| && n in rest ==> Before(t, picked[i], n)
      decreases rest
    {
      var n := Earliest(t, rest);
      picked := picked + [n];
      rest := rest - {n};
    }
  }

  lemma ClaimedRows(t: Table, rows: map<nat, Row>, picked: seq<nat>, inst: string, ttl: int)
    requires rows.Keys == t.rows.Keys
    requires forall n :: n in rows ==>
      rows[n] == if n in picked then ClaimRow(t, t.rows[n], inst, ttl) else t.rows[n]
    ensures t.(rows := rows) == ClaimRows(t, inst, (set n | n in picked), ttl)
  {
    hide ClaimRow;
    assert rows == ClaimRows(t, inst, (set n | n in picked), ttl).rows;
  }

  class OutboxTable {
    var now: Time
    var rows: map<nat, Row>
    var nextSeq: nat
    var gone: set<string>

    function Contents(): Table
      reads this
    {
      Table(now, rows, nextSeq, gone)
    }

    constructor ()
      ensures Contents() == Table(0, map[], 0, {})
    {
      now, rows, nextSeq, gone := 0, map[], 0, {};
    }

    /** Claims that ran out go back to pending. */
    method RequeueExpired() returns (count: nat)
      modifies this`rows
      ensures Contents() == Requeue(old(Contents()))
      ensures count == |set n | n in old(rows) && Expired(old(Contents()), old(rows)[n])|
    {
      var expired := set n | n in rows && rows[n].status.Sending? && rows[n].claimedUntil.Some?
          && rows[n].claimedUntil.value < now;
      assert expired == set n | n in rows && Expired(Contents(), rows[n]);
      count := |expired|;
      var rest := expired;
      while rest != {}
        invariant rest <= expired && rows.Keys == old(rows).Keys
        invariant forall n :: n in rows ==>
          rows[n] == if n in expired && n !in rest then Unclaimed(old(rows)[n]) else old(rows)[n]
        decreases rest
      {
        var n :| n in rest;
        rows := rows[n := rows[n].(status := Pending, claimedBy := "", claimedUntil := None)];
        rest := rest - {n};
      }
      assert rows == Requeue(old(Contents())).rows;
    }

    /** Claims at most `limit` due rows, the earliest first. */
    method ClaimDeliveries(inst: string, limit: nat, ttl: int) returns (picked: seq<nat>)
      modifies this`rows
      ensures |picked| == Min(limit, |set n | n in old(rows) && Due(old(Contents()), n)|)
      ensures forall i :: 0 <= i < |picked| ==> Due(old(Contents()), picked[i])
      ensures forall i, j :: 0 <= i < j < |picked| ==>
          picked[i] != picked[j] && Before(old(Contents()), picked[i], picked[j])
      ensures forall n, i :: Due(old(Contents()), n) && n !in picked && 0 <= i < |picked| ==>
          Before(old(Contents()), picked[i], n)
      ensures forall i :: 0 <= i < |picked| ==> picked[i] in old(rows)
      ensures forall n, i :: Due(old(Contents()), n) && n !in picked && 0 <= i < |picked| ==>
          var a, b := old(rows)[picked[i]], old(rows)[n];
          a.nextAttempt <= b.nextAttempt && (a.nextAttempt == b.nextAttempt ==> picked[i] < n)
      ensures Contents() == ClaimRows(old(Contents()), inst, (set n | n in picked), ttl)
    {
      picked := FirstDue(Contents(), limit);
      assert forall i :: 0 <= i < |picked| ==> picked[i] in rows;
      forall n, i | Due(Contents(), n) && n !in picked && 0 <= i < |picked|
        ensures var a, b := rows[picked[i]], rows[n];
                a.nextAttempt <= b.nextAttempt && (a.nextAttempt == b.nextAttempt ==> picked[i] < n)
      {
        assert Before(Contents(), picked[i], n) && picked[i] != n;
      }
      hide Due;
      hide Before;
      MarkClaimed(picked, inst, ttl);
    }

    method MarkClaimed(picked: seq<nat>, inst: string, ttl: int)
      requires forall i :: 0 <= i < |picked| ==> picked[i] in rows
      requires forall i, j :: 0 <= i < j < |picked| ==> picked[i] != picked[j]
      modifies this`rows
      ensures Contents() == ClaimRows(old(Contents()), inst, (set n | n in picked), ttl)
    {
      hide ClaimRows;
      ghost var t := Contents();
      for i := 0 to |picked|
        invariant rows.Keys == t.rows.Keys
        invariant forall n :: n in rows ==>
          rows[n] == if n in picked[..i] then ClaimRow(t, t.rows[n], inst, ttl) else t.rows[n]
      {
        var n := picked[i];
        assert n !in picked[..i];
        rows := rows[n := rows[n].(status := Sending, claimedBy := inst, claimedUntil := Some(now + ttl),
            attempts := rows[n].attempts + 1)];
        assert picked[..i + 1] == picked[..i] + [n];
      }
      assert picked[..|picked|] == picked;
      ClaimedRows(t, rows, picked, inst, ttl);
    }

    /** Records an outcome unless the claim was lost. */
    method FinishDelivery(inst: string, n: nat, o: Outcome) returns (accepted: bool)
      modifies this`rows
      ensures accepted == Accepts(old(Contents()), inst, n)
      ensures Contents() == Finish(old(Contents()), inst, n, o)
    {
      if n !in rows || !rows[n].status.Sending? || rows[n].claimedBy != inst {
        return false;
      }
      var r := rows[n].(status := o.status, mutedLogged := o.mutedLogged, claimedBy := "", claimedUntil := None,
          finishedAt := None);
      if o.status.Pending? {
        r := r.(nextAttempt := o.next);
      } else if o.status.Delivered? || o.status.Failed? || o.status.Suppressed? {
        r := r.(finishedAt := Some(now));
      }
      rows := rows[n := r];
      accepted := true;
    }

    method Write(incident: nat, channel: string, kind: Kind, key: string)
      modifies this`rows, this`nextSeq
      ensures Contents() == Insert(old(Contents()), incident, channel, kind, key)
    {
      if channel in gone || exists n :: n in rows && rows[n].key == key {
        return;
      }
      rows := rows[nextSeq := Row(Some(incident), channel, kind, key, Pending, 0, now, "", None, false, now, None)];
      nextSeq := nextSeq + 1;
    }
  }
}
