/** What the preview lists: one transition per change, and per open one incident with its span and its worst value
    (internal/alert/preview.go). */
module PreviewLaws {
  import opened Base
  import opened Series
  import opened Preview

  // ----- spans -----

  /** The first event from `i` on that opens or resolves, or the number of events. */
  function NextChange(evs: seq<Event>, i: nat): (e: nat)
    requires i <= |evs|
    ensures i <= e <= |evs|
    ensures forall k :: i <= k < e ==> !evs[k].open && evs[k].resolve.None?
    ensures e < |evs| ==> evs[e].open || evs[e].resolve.Some?
    decreases |evs| - i
  {
    if i == |evs| then i
    else if evs[i].open || evs[i].resolve.Some? then i
    else NextChange(evs, i + 1)
  }

  lemma {:induction false} NextChangeGrows(evs: seq<Event>, ev: Event, i: nat)
    requires i <= |evs|
    ensures NextChange(evs + [ev], i) ==
            if NextChange(evs, i) < |evs| || ev.open || ev.resolve.Some? then NextChange(evs, i) else |evs| + 1
    decreases |evs| - i
  {
    if i < |evs| && !(evs[i].open || evs[i].resolve.Some?) {
      NextChangeGrows(evs, ev, i + 1);
    }
  }

  /** The events that open an incident, in order. */
  function OpenIndices(evs: seq<Event>): (os: seq<nat>)
    ensures forall j :: 0 <= j < |os| ==> os[j] < |evs| && evs[os[j]].open
    ensures forall i, j :: 0 <= i < j < |os| ==> os[i] < os[j]
    ensures forall k :: 0 <= k < |evs| && evs[k].open ==> k in os
  {
    if evs == [] then []
    else
      var n := |evs| - 1;
      OpenIndices(evs[..n]) + if evs[n].open then [n] else []
  }

  /** `peak` is the worst of the values that exist, on the breaching side. */
  predicate IsWorst(op: Operator, vs: seq<Value>, peak: Value) {
    if peak.NaN? then forall i :: 0 <= i < |vs| ==> vs[i].NaN?
    else peak in vs && forall i :: 0 <= i < |vs| && vs[i].Num? ==> !Worse(op, vs[i].x, peak.x)
  }

  /** The incident that event `o` opens: it lasts until the next resolve, or is left open by the next open or the end,
      and its peak is the worst value from its open up to there. */
  predicate SpansFrom(evs: seq<Event>, ends: seq<Time>, vals: seq<Value>, op: Operator, o: nat, inc: PreviewIncident)
    requires |evs| == |ends| == |vals| && o < |evs|
  {
    var e := NextChange(evs, o + 1);
    && inc.openedAt == ends[o]
    && inc.resolvedAt == (if e < |evs| && !evs[e].open then Some(ends[e]) else None)
    && IsWorst(op, vals[o..e], inc.peak)
  }

  lemma WorstGrows(op: Operator, vs: seq<Value>, peak: Value, v: Value)
    requires IsWorst(op, vs, peak)
    ensures IsWorst(op, vs + [v], if v.Num? && (peak.NaN? || Worse(op, v.x, peak.x)) then v else peak)
  {
  }

  /** An incident that is over, or is not the last one, stays what it was. */
  lemma SpanStays(evs: seq<Event>, ends: seq<Time>, vals: seq<Value>, op: Operator, o: nat, inc: PreviewIncident,
                  ev: Event, end: Time, v: Value)
    requires |evs| == |ends| == |vals| && o < |evs| && SpansFrom(evs, ends, vals, op, o, inc)
    requires NextChange(evs, o + 1) < |evs| || ev.open
    ensures SpansFrom(evs + [ev], ends + [end], vals + [v], op, o, inc)
  {
    hide IsWorst;
    NextChangeGrows(evs, ev, o + 1);
    var e := NextChange(evs, o + 1);
    assert (vals + [v])[o..e] == vals[o..e];
  }

  /** The last incident, while nothing has ended it. */
  lemma SpanGrows(evs: seq<Event>, ends: seq<Time>, vals: seq<Value>, op: Operator, o: nat, inc: PreviewIncident,
                  ev: Event, end: Time, v: Value)
    requires |evs| == |ends| == |vals| && o < |evs| && SpansFrom(evs, ends, vals, op, o, inc)
    requires NextChange(evs, o + 1) == |evs| && !ev.open
    ensures var worse := v.Num? && (inc.peak.NaN? || Worse(op, v.x, inc.peak.x));
            SpansFrom(evs + [ev], ends + [end], vals + [v], op, o,
                      if ev.resolve.Some? then inc.(resolvedAt := Some(end))
                      else if worse then inc.(peak := v) else inc)
  {
    hide IsWorst;
    NextChangeGrows(evs, ev, o + 1);
    var mine := vals[o..|evs|];
    WorstGrows(op, mine, inc.peak, v);
    assert (vals + [v])[o..|evs|] == mine;
    assert (vals + [v])[o..|evs| + 1] == mine + [v];
  }

  lemma SpanStarts(evs: seq<Event>, ends: seq<Time>, vals: seq<Value>, op: Operator, ev: Event, end: Time, v: Value)
    requires |evs| == |ends| == |vals|
    ensures SpansFrom(evs + [ev], ends + [end], vals + [v], op, |evs|, PreviewIncident(end, None, v))
  {
    assert (vals + [v])[|evs|..|evs| + 1] == [v];
  }

  /** The preview lists one incident per open, in order, each with its span and its worst value. */
  lemma {:induction false} IncidentsAreExact(evs: seq<Event>, ends: seq<Time>, vals: seq<Value>, op: Operator)
    requires |evs| == |ends| == |vals|
    ensures var incs, os := IncidentsOf(evs, ends, vals, op), OpenIndices(evs);
            |incs| == |os| && forall j :: 0 <= j < |os| ==> SpansFrom(evs, ends, vals, op, os[j], incs[j])
  {
    if evs != [] {
      var n := |evs| - 1;
      IncidentsAreExact(evs[..n], ends[..n], vals[..n], op);
      assert evs == evs[..n] + [evs[n]] && ends == ends[..n] + [ends[n]] && vals == vals[..n] + [vals[n]];
      IncidentsNext(evs[..n], ends[..n], vals[..n], op, evs[n], ends[n], vals[n]);
    }
  }

  lemma IncidentsNext(evs: seq<Event>, ends: seq<Time>, vals: seq<Value>, op: Operator, ev: Event, end: Time, v: Value)
    requires |evs| == |ends| == |vals|
    requires var incs, os := IncidentsOf(evs, ends, vals, op), OpenIndices(evs);
             |incs| == |os| && forall j :: 0 <= j < |os| ==> SpansFrom(evs, ends, vals, op, os[j], incs[j])
    ensures var incs, os := IncidentsOf(evs + [ev], ends + [end], vals + [v], op), OpenIndices(evs + [ev]);
            && |incs| == |os|
            && forall j :: 0 <= j < |os| ==> SpansFrom(evs + [ev], ends + [end], vals + [v], op, os[j], incs[j])
  {
    var incs, os := IncidentsOf(evs, ends, vals, op), OpenIndices(evs);
    ListsGrow(evs, ends, vals, op, ev, end, v);
    AmendShape(incs, ev, end, v, op);
    hide IncidentsOf, OpenIndices, Amend, SpansFrom;
    forall j | 0 <= j < |os|
      ensures SpansFrom(evs + [ev], ends + [end], vals + [v], op, os[j], Amend(incs, ev, end, v, op)[j])
    {
      SpanNext(evs, ends, vals, op, os, incs, ev, end, v, j);
    }
    if ev.open {
      SpanStarts(evs, ends, vals, op, ev, end, v);
    }
  }

  lemma ListsGrow(evs: seq<Event>, ends: seq<Time>, vals: seq<Value>, op: Operator, ev: Event, end: Time, v: Value)
    requires |evs| == |ends| == |vals|
    ensures IncidentsOf(evs + [ev], ends + [end], vals + [v], op) ==
            Amend(IncidentsOf(evs, ends, vals, op), ev, end, v, op)
    ensures OpenIndices(evs + [ev]) == OpenIndices(evs) + if ev.open then [|evs|] else []
  {
    hide Amend;
    assert (evs + [ev])[..|evs|] == evs && (ends + [end])[..|evs|] == ends && (vals + [v])[..|evs|] == vals;
  }

  lemma SpanNext(evs: seq<Event>, ends: seq<Time>, vals: seq<Value>, op: Operator, os: seq<nat>,
                 incs: seq<PreviewIncident>, ev: Event, end: Time, v: Value, j: nat)
    requires |evs| == |ends| == |vals| && |incs| == |os| && j < |os|
    requires forall i :: 0 <= i < |os| ==> os[i] < |evs| && evs[os[i]].open
    requires forall k :: 0 <= k < |evs| && evs[k].open ==> k in os
    requires forall i, l :: 0 <= i < l < |os| ==> os[i] < os[l]
    requires SpansFrom(evs, ends, vals, op, os[j], incs[j])
    ensures |Amend(incs, ev, end, v, op)| >= |incs|
    ensures SpansFrom(evs + [ev], ends + [end], vals + [v], op, os[j], Amend(incs, ev, end, v, op)[j])
  {
    AmendShape(incs, ev, end, v, op);
    hide Amend, SpansFrom;
    if j < |os| - 1 {
      EarlierSpanIsOver(evs, os, j);
      SpanStays(evs, ends, vals, op, os[j], incs[j], ev, end, v);
    } else {
      LastSpan(evs, ends, vals, op, os, incs, ev, end, v);
    }
  }

  lemma AmendShape(incs: seq<PreviewIncident>, ev: Event, end: Time, v: Value, op: Operator)
    ensures var after := Amend(incs, ev, end, v, op);
            && |after| == |incs| + (if ev.open then 1 else 0)
            && (forall j :: 0 <= j < |incs| - 1 ==> after[j] == incs[j])
            && (ev.open ==> after == incs + [PreviewIncident(end, None, v)])
  {
  }

  lemma EarlierSpanIsOver(evs: seq<Event>, os: seq<nat>, j: nat)
    requires j + 1 < |os| && os[j] < os[j + 1] < |evs| && evs[os[j + 1]].open
    ensures NextChange(evs, os[j] + 1) < |evs|
  {
  }

  lemma LastSpan(evs: seq<Event>, ends: seq<Time>, vals: seq<Value>, op: Operator, os: seq<nat>,
                 incs: seq<PreviewIncident>, ev: Event, end: Time, v: Value)
    requires |evs| == |ends| == |vals| && |incs| == |os| > 0
    requires forall k :: 0 <= k < |evs| && evs[k].open ==> k in os
    requires forall i, j :: 0 <= i < j < |os| ==> os[i] < os[j]
    requires os[|os| - 1] < |evs| && SpansFrom(evs, ends, vals, op, os[|os| - 1], incs[|os| - 1])
    ensures SpansFrom(evs + [ev], ends + [end], vals + [v], op, os[|os| - 1], Amend(incs, ev, end, v, op)[|os| - 1])
  {
    hide IsWorst;
    var o, inc := os[|os| - 1], incs[|os| - 1];
    var e := NextChange(evs, o + 1);
    if e < |evs| {
      assert forall i :: 0 <= i < |os| ==> os[i] <= o;
      assert !evs[e].open;
      SpanStays(evs, ends, vals, op, o, inc, ev, end, v);
    } else if ev.open {
      SpanStays(evs, ends, vals, op, o, inc, ev, end, v);
    } else {
      SpanGrows(evs, ends, vals, op, o, inc, ev, end, v);
    }
  }

  // ----- transitions -----

  /** The events that change the phase or resolve, in order. */
  function ChangeIndices(evs: seq<Event>): (cs: seq<nat>)
    ensures forall j :: 0 <= j < |cs| ==> cs[j] < |evs| && !evs[cs[j]].transition.Unchanged?
    ensures forall i, j :: 0 <= i < j < |cs| ==> cs[i] < cs[j]
    ensures forall k :: 0 <= k < |evs| && !evs[k].transition.Unchanged? ==> k in cs
  {
    if evs == [] then []
    else
      var n := |evs| - 1;
      ChangeIndices(evs[..n]) + if evs[n].transition.Unchanged? then [] else [n]
  }

  /** And one transition per change, with its time, the new phase and the value it was judged by. */
  lemma {:induction false} TransitionsAreExact(evs: seq<Event>, ends: seq<Time>, vals: seq<Value>)
    requires |evs| == |ends| == |vals|
    ensures var ts, cs := TransitionsOf(evs, ends, vals), ChangeIndices(evs);
            |ts| == |cs| && forall j :: 0 <= j < |cs| ==>
              && ts[j].at == ends[cs[j]] && ts[j].value == vals[cs[j]]
              && ts[j].phase == (if evs[cs[j]].transition.ToPending? then Pending
                                 else if evs[cs[j]].transition.ToFiring? then Firing else Ok)
  {
    if evs != [] {
      var n := |evs| - 1;
      TransitionsAreExact(evs[..n], ends[..n], vals[..n]);
    }
  }


  /** Worse is further on the breaching side: whatever is worse than a breaching value breaches, and a breaching value
      is worse than one that does not. */
  lemma WorseIsFurther(j: Judge, v: real, cur: real)
    requires !j.op.Unknown?
    ensures Worse(j.op, v, cur) && j.Breach(Num(cur)) ==> j.Breach(Num(v))
    ensures j.Breach(Num(v)) && !j.Breach(Num(cur)) ==> Worse(j.op, v, cur)
    ensures !Worse(j.op, cur, cur) && (v != cur ==> Worse(j.op, v, cur) != Worse(j.op, cur, v))
  {
  }
}
