/** Whole runs of the series state machine: what backs an incident that opens or recovers, how opens and
    resolves interleave, and what the bounded flapping history still knows. */
module SeriesRuns {
  import opened Base
  import opened Series

  // ----- runs -----

  /** Equality of everything a step reads to decide; labels, incident and notification bookkeeping may differ. */
  predicate SameCore(a: SeriesState, b: SeriesState) {
    && Current(a.phase) == Current(b.phase)
    && a.pendingSince == b.pendingSince
    && a.recoveringSince == b.recoveringSince
    && a.lastSeenAt == b.lastSeenAt
    && a.transitions == b.transitions
  }

  /** Evaluations that step the series, with increasing ends. Each is told the last committed end, which is the previous
      stepped one or, when evaluations failed in between, a later one. */
  predicate IsSchedule(ins: seq<StepInput>) {
    forall i :: 0 < i < |ins| ==>
      && ins[i - 1].end < ins[i].end
      && ins[i].prevEvalEnd.Some? && ins[i - 1].end <= ins[i].prevEvalEnd.value < ins[i].end
  }

  /** `st[i]` is the state before evaluation `i` and `outs[i]` its outcome; between steps only bookkeeping
      may be edited. */
  datatype Run = Run(cfg: StepConfig, ins: seq<StepInput>, st: seq<SeriesState>, outs: seq<StepOutcome>) {
    ghost predicate Valid() {
      && |st| == |ins| + 1 && |outs| == |ins|
      && IsSchedule(ins)
      && SameCore(st[0], NewSeries(""))
      && forall i :: 0 <= i < |ins| ==> Linked(i)
    }

    ghost predicate Linked(i: nat)
      requires i < |ins| && |st| == |ins| + 1 && |outs| == |ins|
    {
      outs[i] == Step(st[i], ins[i], cfg) && SameCore(st[i + 1], outs[i].next)
    }
  }

  lemma {:induction false} EndsIncrease(ins: seq<StepInput>, i: nat, j: nat)
    requires IsSchedule(ins) && i <= j < |ins|
    ensures ins[i].end <= ins[j].end
    ensures i < j ==> ins[i].end < ins[j].end
    decreases j
  {
    if i < j {
      EndsIncrease(ins, i, j - 1);
    }
  }

  // ----- what an evaluation says, from the input alone -----

  predicate Breaches(inp: StepInput, cfg: StepConfig) {
    if inp.present then cfg.judge.Breach(inp.value)
    else cfg.missing.AsBreach? || (cfg.missing.AsZero? && cfg.judge.Breach(Num(0.0)))
  }

  /** Recovered, and neither breaching nor inside the hysteresis band. */
  predicate Recovers(inp: StepInput, cfg: StepConfig) {
    && !Breaches(inp, cfg)
    && (if inp.present then cfg.judge.Recovered(inp.value)
        else cfg.missing.AsZero? && cfg.judge.Recovered(Num(0.0)))
  }

  /** Missing data that keeps the series as it is. */
  predicate Silent(inp: StepInput, cfg: StepConfig) {
    !inp.present && cfg.missing.Keep?
  }

  /** No step comes too long after the last committed window. */
  predicate GapFree(ins: seq<StepInput>, cfg: StepConfig, s: nat, k: nat)
    requires k < |ins|
  {
    forall i :: s < i <= k ==> !Gap(ins[i].prevEvalEnd, ins[i].end, cfg)
  }

  /** The last end before step `k` that had data. */
  function LatestPresent(ins: seq<StepInput>, k: nat): Option<Time>
    requires k <= |ins|
  {
    if k == 0 then None
    else if ins[k - 1].present then Some(ins[k - 1].end)
    else LatestPresent(ins, k - 1)
  }

  /** Keep mode gives up on step `i`: its data is missing, and the last data is too old. */
  predicate Expires(ins: seq<StepInput>, cfg: StepConfig, i: nat)
    requires i < |ins|
  {
    && Silent(ins[i], cfg) && cfg.expireAfter > 0
    && LatestPresent(ins, i).Some? && ins[i].end - LatestPresent(ins, i).value > cfg.expireAfter
  }

  predicate BreachStretch(ins: seq<StepInput>, cfg: StepConfig, s: nat, k: nat)
    requires s <= k < |ins|
  {
    && (forall i :: s <= i <= k ==> Breaches(ins[i], cfg) || Silent(ins[i], cfg))
    && GapFree(ins, cfg, s, k)
  }

  predicate RecoveryStretch(ins: seq<StepInput>, cfg: StepConfig, s: nat, k: nat)
    requires s <= k < |ins|
  {
    forall i :: s <= i <= k ==> Recovers(ins[i], cfg) || Silent(ins[i], cfg)
  }

  // ----- single steps of a run -----

  lemma PhaseLink(r: Run, i: nat)
    requires r.Valid() && i < |r.ins|
    ensures r.outs[i].open ==> !r.st[i].phase.Firing? && r.st[i + 1].phase.Firing? && r.outs[i].resolve.None?
    ensures r.outs[i].resolve.Some? ==> r.st[i].phase.Firing? && !r.st[i + 1].phase.Firing?
    ensures !r.outs[i].open && r.outs[i].resolve.None? ==> r.st[i].phase.Firing? == r.st[i + 1].phase.Firing?
  {
    assert r.Linked(i);
  }

  predicate TimerRuns(r: Run, i: nat)
    requires i < |r.ins| && i < |r.st|
  {
    r.st[i].phase.Pending? && !Gap(r.ins[i].prevEvalEnd, r.ins[i].end, r.cfg)
  }

  lemma PendingIsNoMiss(r: Run, i: nat)
    requires r.Valid() && i < |r.ins| && r.st[i + 1].phase.Pending?
    ensures Breaches(r.ins[i], r.cfg) || Silent(r.ins[i], r.cfg)
  {
    assert r.Linked(i);
  }

  lemma PendingLink(r: Run, i: nat)
    requires r.Valid() && i < |r.ins| && r.st[i + 1].phase.Pending?
    ensures r.st[i + 1].pendingSince == if TimerRuns(r, i) then r.st[i].pendingSince else Some(r.ins[i].end)
  {
    assert r.Linked(i);
  }

  lemma OpenLink(r: Run, i: nat)
    requires r.Valid() && i < |r.ins| && !r.st[i].phase.Firing? && Breaches(r.ins[i], r.cfg)
    ensures var since := if TimerRuns(r, i) then r.st[i].pendingSince else Some(r.ins[i].end);
            r.outs[i].open <==> Elapsed(r.ins[i].end, since) >= r.cfg.pendingFor
    ensures !r.outs[i].open ==> r.st[i + 1].phase.Pending?
  {
    assert r.Linked(i);
  }

  lemma OpenNeedsBreach(r: Run, i: nat)
    requires r.Valid() && i < |r.ins| && r.outs[i].open
    ensures Breaches(r.ins[i], r.cfg)
  {
    assert r.Linked(i);
  }

  lemma SeenLink(r: Run, i: nat)
    requires r.Valid() && i < |r.ins| && r.cfg.missing.Keep?
    ensures r.st[i + 1].lastSeenAt == if r.ins[i].present then Some(r.ins[i].end) else r.st[i].lastSeenAt
  {
    hide Prune, Capped;
    assert r.Linked(i);
  }

  lemma SilentLink(r: Run, i: nat)
    requires r.Valid() && i < |r.ins| && Silent(r.ins[i], r.cfg)
    ensures !HasExpired(r.st[i], r.ins[i].end, r.cfg) ==> Current(r.st[i + 1].phase) == Current(r.st[i].phase)
    ensures HasExpired(r.st[i], r.ins[i].end, r.cfg) && r.st[i].phase.Pending? ==>
              Current(r.st[i + 1].phase).Ok? && !r.outs[i].open
  {
    hide Prune, Capped;
    assert r.Linked(i);
  }

  lemma RecoveringLink(r: Run, i: nat)
    requires r.Valid() && i < |r.ins| && r.st[i + 1].phase.Firing? && r.st[i + 1].recoveringSince.Some?
    requires r.st[i].phase.Firing? && r.st[i].recoveringSince.Some? ==> r.st[i].recoveringSince.value <= r.ins[i].end
    ensures r.st[i].phase.Firing? && (Recovers(r.ins[i], r.cfg) || Silent(r.ins[i], r.cfg))
    ensures r.st[i].recoveringSince.None? ==> Recovers(r.ins[i], r.cfg)
    ensures r.st[i + 1].recoveringSince ==
            if r.st[i].recoveringSince.Some? then r.st[i].recoveringSince else Some(r.ins[i].end)
  {
    assert r.Linked(i);
  }

  function RecoveringFrom(r: Run, i: nat): Option<Time>
    requires i < |r.ins| && i < |r.st|
  {
    if r.st[i].recoveringSince.Some? then r.st[i].recoveringSince else Some(r.ins[i].end)
  }

  lemma ResolveLink(r: Run, i: nat)
    requires r.Valid() && i < |r.ins| && r.outs[i].resolve == Some(Recovered)
    ensures r.st[i].phase.Firing? && Recovers(r.ins[i], r.cfg)
    ensures Elapsed(r.ins[i].end, RecoveringFrom(r, i)) >= r.cfg.recoveryFor
    ensures r.outs[i].flapping ==> Elapsed(r.ins[i].end, RecoveringFrom(r, i)) >= r.cfg.flapping.holdSeconds * SECOND
  {
    assert r.Linked(i);
  }

  lemma HoldLink(r: Run, i: nat)
    requires r.Valid() && i < |r.ins| && r.st[i].phase.Firing? && r.outs[i].resolve.None?
    requires Recovers(r.ins[i], r.cfg) || (Silent(r.ins[i], r.cfg) && r.st[i].recoveringSince.Some?)
    ensures r.st[i + 1].phase.Firing? && r.st[i + 1].recoveringSince == RecoveringFrom(r, i)
    ensures Recovers(r.ins[i], r.cfg) ==> Elapsed(r.ins[i].end, RecoveringFrom(r, i)) < LongestHold(r.cfg)
  {
    assert r.Linked(i);
  }

  function LongestHold(cfg: StepConfig): int {
    if cfg.flapping.enabled then Max(cfg.recoveryFor, cfg.flapping.holdSeconds * SECOND) else cfg.recoveryFor
  }

  lemma HistoryLink(r: Run, i: nat)
    requires r.Valid() && i < |r.ins| && r.cfg.flapping.enabled
    ensures var kept := Prune(r.st[i].transitions, r.ins[i].end, r.cfg.flapping);
            r.st[i + 1].transitions == if r.outs[i].open then Capped(kept + [r.ins[i].end]) else kept
  {
    hide Prune, Capped;
    assert r.Linked(i);
  }

  // ----- timers are backed by the data -----

  lemma {:induction false} PendingIsBacked(r: Run, k: nat) returns (s: nat)
    requires r.Valid() && 0 < k < |r.st| && r.st[k].phase.Pending?
    ensures s < k && r.st[k].pendingSince == Some(r.ins[s].end) && BreachStretch(r.ins, r.cfg, s, k - 1)
  {
    PendingLink(r, k - 1);
    PendingIsNoMiss(r, k - 1);
    if k > 1 && TimerRuns(r, k - 1) {
      s := PendingIsBacked(r, k - 1);
    } else {
      s := k - 1;
    }
  }

  /** An incident with a for-duration opens only after that long a stretch in which every evaluation that stepped the
      series breached (or kept a missing value) and none came too long after the last committed window. */
  lemma OpenIsBacked(r: Run, k: nat) returns (s: nat)
    requires r.Valid() && k < |r.ins| && r.outs[k].open
    ensures Breaches(r.ins[k], r.cfg) && s <= k
    ensures r.cfg.pendingFor > 0 ==>
              && BreachStretch(r.ins, r.cfg, s, k)
              && r.ins[k].end - r.ins[s].end >= r.cfg.pendingFor
  {
    s := k;
    PhaseLink(r, k);
    OpenNeedsBreach(r, k);
    OpenLink(r, k);
    if k > 0 && TimerRuns(r, k) {
      s := PendingIsBacked(r, k);
    }
  }

  lemma {:induction false} RecoveringIsBacked(r: Run, k: nat) returns (s: nat)
    requires r.Valid() && 0 < k < |r.st| && r.st[k].phase.Firing? && r.st[k].recoveringSince.Some?
    ensures s < k && r.st[k].recoveringSince == Some(r.ins[s].end) && Recovers(r.ins[s], r.cfg)
    ensures RecoveryStretch(r.ins, r.cfg, s, k - 1)
  {
    s := k - 1;
    if k > 1 && r.st[k - 1].phase.Firing? && r.st[k - 1].recoveringSince.Some? {
      s := RecoveringIsBacked(r, k - 1);
      EndsIncrease(r.ins, s, k - 1);
    }
    RecoveringLink(r, k - 1);
  }

  /** A resolve as "recovered" is backed by a stretch of the recovery hold (the flapping hold when it was
      extended) without a breach and without a value in the hysteresis band. */
  lemma RecoveryIsBacked(r: Run, k: nat) returns (s: nat)
    requires r.Valid() && k < |r.ins| && r.outs[k].resolve == Some(Recovered)
    ensures s <= k && Recovers(r.ins[s], r.cfg) && Recovers(r.ins[k], r.cfg) && RecoveryStretch(r.ins, r.cfg, s, k)
    ensures r.ins[k].end - r.ins[s].end >= r.cfg.recoveryFor
    ensures r.outs[k].flapping ==> r.ins[k].end - r.ins[s].end >= r.cfg.flapping.holdSeconds * SECOND
  {
    ResolveLink(r, k);
    s := k;
    if k > 0 && r.st[k].recoveringSince.Some? {
      s := RecoveringIsBacked(r, k);
    }
  }

  // ----- and the data is enough -----

  /** In keep mode the stored time of the last data is the one in the input. */
  lemma {:induction false} SeenIsLatest(r: Run, k: nat)
    requires r.Valid() && k <= |r.ins| && r.cfg.missing.Keep?
    ensures r.st[k].lastSeenAt == LatestPresent(r.ins, k)
  {
    if k > 0 {
      SeenIsLatest(r, k - 1);
      SeenLink(r, k - 1);
    }
  }

  lemma PendingSinceBefore(r: Run, s: nat)
    requires r.Valid() && s < |r.ins| && TimerRuns(r, s)
    ensures r.st[s].pendingSince.Some? && r.st[s].pendingSince.value <= r.ins[s].end
  {
    var b := PendingIsBacked(r, s);
    EndsIncrease(r.ins, b, s);
  }

  /** Before opening, a breaching stretch keeps the series pending with a timer at least as old as its start. */
  lemma {:induction false} StretchKeepsPending(r: Run, s: nat, k: nat)
    requires r.Valid() && s < k <= |r.ins|
    requires Breaches(r.ins[s], r.cfg) && BreachStretch(r.ins, r.cfg, s, k - 1) && !r.st[s].phase.Firing?
    requires forall i :: s < i < k ==> !Expires(r.ins, r.cfg, i)
    requires forall i :: s <= i < k ==> !r.outs[i].open
    ensures r.st[k].phase.Pending? && r.st[k].pendingSince.Some? && r.st[k].pendingSince.value <= r.ins[s].end
    decreases k
  {
    EndsIncrease(r.ins, s, k - 1);
    assert !r.outs[k - 1].open;
    if k == s + 1 {
      OpenLink(r, s);
      PendingLink(r, s);
      PendingIsNoMiss(r, s);
      if TimerRuns(r, s) {
        PendingSinceBefore(r, s);
      }
    } else {
      EndsIncrease(r.ins, k - 2, k - 1);
      StretchKeepsPending(r, s, k - 1);
      if Breaches(r.ins[k - 1], r.cfg) {
        OpenLink(r, k - 1);
      } else {
        assert !Expires(r.ins, r.cfg, k - 1);
        SeenIsLatest(r, k - 1);
        SilentLink(r, k - 1);
      }
      PendingLink(r, k - 1);
      PendingIsNoMiss(r, k - 1);
    }
  }

  /** Conversely, a breaching stretch of the for-duration opens an incident no later than its end, unless keep mode
      gives up on a step of it. */
  lemma BreachStretchOpens(r: Run, s: nat, k: nat) returns (o: nat)
    requires r.Valid() && s <= k < |r.ins|
    requires Breaches(r.ins[s], r.cfg) && Breaches(r.ins[k], r.cfg) && BreachStretch(r.ins, r.cfg, s, k)
    requires !r.st[s].phase.Firing? && forall i :: s < i <= k ==> !Expires(r.ins, r.cfg, i)
    requires r.ins[k].end - r.ins[s].end >= r.cfg.pendingFor
    ensures s <= o <= k && r.outs[o].open
  {
    if i :| s <= i < k && r.outs[i].open {
      o := i;
    } else {
      o := k;
      if s < k {
        EndsIncrease(r.ins, k - 1, k);
        StretchKeepsPending(r, s, k);
      } else if TimerRuns(r, s) {
        PendingSinceBefore(r, s);
      }
      OpenLink(r, k);
    }
  }

  /** And a step that keep mode gives up on does end a pending series. */
  lemma ExpiryEndsPending(r: Run, i: nat)
    requires r.Valid() && i < |r.ins| && r.st[i].phase.Pending? && Expires(r.ins, r.cfg, i)
    ensures Current(r.st[i + 1].phase).Ok? && !r.outs[i].open
  {
    SeenIsLatest(r, i);
    SilentLink(r, i);
  }

  // ----- failed evaluations -----

  /** One committed evaluation of a rule as a series meets it. A failed one steps nothing. */
  datatype Evaluation = Failed(end: Time) | Evaluated(end: Time, present: bool, value: Value)

  /** The steps of a series over the evaluations of its rule: each is told the evaluation before it, failed or not. */
  function Steps(evs: seq<Evaluation>): seq<StepInput> {
    if evs == [] then []
    else
      var n := |evs| - 1;
      var before := if n == 0 then None else Some(evs[n - 1].end);
      Steps(evs[..n])
      + if evs[n].Failed? then [] else [StepInput(evs[n].end, before, evs[n].present, evs[n].value)]
  }

  lemma {:induction false} StepsAreASchedule(evs: seq<Evaluation>)
    requires forall i :: 0 < i < |evs| ==> evs[i - 1].end < evs[i].end
    ensures IsSchedule(Steps(evs))
    ensures forall i :: 0 <= i < |Steps(evs)| ==> Steps(evs)[i].end <= evs[|evs| - 1].end
  {
    if evs != [] {
      StepsAreASchedule(evs[..|evs| - 1]);
    }
  }

  /** Whether a pending timer goes on is decided by the last committed window alone. */
  lemma TimerGoesOnExactly(r: Run, i: nat)
    requires r.Valid() && 0 < i < |r.ins| && r.st[i].phase.Pending? && r.st[i + 1].phase.Pending?
    ensures r.st[i + 1].pendingSince == r.st[i].pendingSince <==> !Gap(r.ins[i].prevEvalEnd, r.ins[i].end, r.cfg)
  {
    PendingLink(r, i);
    var b := PendingIsBacked(r, i);
    EndsIncrease(r.ins, b, i);
  }

  /** So a timer outlives an outage of failed evaluations of any length: two breaching evaluations that far apart open
      an incident, although nothing was known in between. */
  lemma OutageKeepsTimer(cfg: StepConfig, v: Value, d: int) returns (r: Run)
    requires cfg.judge.Breach(v) && cfg.pendingFor > 0 && 2 * cfg.interval + cfg.delay >= 1
    requires d >= cfg.pendingFor && d > 1
    ensures r.Valid() && r.cfg == cfg
    ensures r.ins == Steps([Evaluated(0, true, v), Failed(d - 1), Evaluated(d, true, v)])
    ensures |r.ins| == 2 && r.ins[1].end - r.ins[0].end == d && r.outs[1].open
  {
    hide Prune, Capped;
    var evs := [Evaluated(0, true, v), Failed(d - 1), Evaluated(d, true, v)];
    var ins := [StepInput(0, None, true, v), StepInput(d, Some(d - 1), true, v)];
    assert Steps(evs[..1]) == [ins[0]] by {
      assert evs[..1][..0] == [];
    }
    assert evs[..2][..1] == evs[..1];
    assert Steps(evs[..2]) == Steps(evs[..1]) + [];
    assert Steps(evs) == ins;
    var first := Step(NewSeries(""), ins[0], cfg);
    var second := Step(first.next, ins[1], cfg);
    r := Run(cfg, ins, [NewSeries(""), first.next, second.next], [first, second]);
    assert r.Linked(0) && r.Linked(1);
  }

  lemma RecoveringFromBefore(r: Run, s: nat)
    requires r.Valid() && s < |r.ins| && r.st[s].phase.Firing?
    ensures RecoveringFrom(r, s).value <= r.ins[s].end
  {
    if r.st[s].recoveringSince.Some? {
      var b := RecoveringIsBacked(r, s);
      EndsIncrease(r.ins, b, s);
    }
  }

  lemma {:induction false} StretchKeepsRecovering(r: Run, s: nat, k: nat)
    requires r.Valid() && s < k <= |r.ins|
    requires Recovers(r.ins[s], r.cfg) && RecoveryStretch(r.ins, r.cfg, s, k - 1) && r.st[s].phase.Firing?
    requires forall i :: s <= i < k ==> r.outs[i].resolve.None?
    ensures r.st[k].phase.Firing? && r.st[k].recoveringSince.Some? && r.st[k].recoveringSince.value <= r.ins[s].end
    decreases k
  {
    if k == s + 1 {
      RecoveringFromBefore(r, s);
    } else {
      StretchKeepsRecovering(r, s, k - 1);
    }
    assert r.outs[k - 1].resolve.None?;
    HoldLink(r, k - 1);
  }

  /** A recovery stretch as long as the longest hold resolves the incident no later than its end. */
  lemma RecoveryStretchResolves(r: Run, s: nat, k: nat) returns (o: nat)
    requires r.Valid() && s <= k < |r.ins|
    requires Recovers(r.ins[s], r.cfg) && Recovers(r.ins[k], r.cfg) && RecoveryStretch(r.ins, r.cfg, s, k)
    requires r.st[s].phase.Firing? && r.ins[k].end - r.ins[s].end >= LongestHold(r.cfg)
    ensures s <= o <= k && r.outs[o].resolve.Some?
  {
    if i :| s <= i < k && r.outs[i].resolve.Some? {
      o := i;
    } else {
      o := k;
      if s < k {
        StretchKeepsRecovering(r, s, k);
      } else {
        RecoveringFromBefore(r, s);
      }
      if r.outs[k].resolve.None? {
        HoldLink(r, k);
      }
    }
  }

  // ----- opens and resolves alternate -----

  function Opens(r: Run, k: nat): nat
    requires k <= |r.outs|
  {
    if k == 0 then 0 else Opens(r, k - 1) + if r.outs[k - 1].open then 1 else 0
  }

  function Resolves(r: Run, k: nat): nat
    requires k <= |r.outs|
  {
    if k == 0 then 0 else Resolves(r, k - 1) + if r.outs[k - 1].resolve.Some? then 1 else 0
  }

  /** In every prefix the opens are one ahead of the resolves exactly while the series is firing, and no
      evaluation does both: opens and resolves strictly alternate, starting with an open. */
  lemma {:induction false} OpensAndResolvesAlternate(r: Run, k: nat)
    requires r.Valid() && k <= |r.ins|
    ensures Opens(r, k) == Resolves(r, k) + if r.st[k].phase.Firing? then 1 else 0
    ensures k < |r.ins| ==> !(r.outs[k].open && r.outs[k].resolve.Some?)
  {
    if k < |r.ins| {
      PhaseLink(r, k);
    }
    if k > 0 {
      OpensAndResolvesAlternate(r, k - 1);
      PhaseLink(r, k - 1);
    }
  }

  // ----- the bounded flapping history -----

  /** Every time the series entered firing before evaluation `k`, never forgotten. */
  function OpenedAt(r: Run, k: nat): seq<Time>
    requires k <= |r.outs| == |r.ins|
  {
    if k == 0 then []
    else OpenedAt(r, k - 1) + if r.outs[k - 1].open then [r.ins[k - 1].end] else []
  }

  predicate Increasing(ts: seq<Time>) {
    forall i, j :: 0 <= i < j < |ts| ==> ts[i] < ts[j]
  }

  lemma {:induction false} OpenedAtIncreases(r: Run, k: nat)
    requires r.Valid() && k <= |r.ins|
    ensures Increasing(OpenedAt(r, k))
    ensures OpenedAt(r, k) != [] ==> k > 0 && OpenedAt(r, k)[|OpenedAt(r, k)| - 1] <= r.ins[k - 1].end
  {
    if k > 0 {
      OpenedAtIncreases(r, k - 1);
      if k > 1 {
        EndsIncrease(r.ins, k - 2, k - 1);
      }
      Appended(OpenedAt(r, k - 1), r.ins[k - 1].end);
      assert OpenedAt(r, k - 1) + [] == OpenedAt(r, k - 1);
    }
  }

  lemma Appended(ts: seq<Time>, t: Time)
    requires Increasing(ts) && (ts != [] ==> ts[|ts| - 1] < t)
    ensures Increasing(ts + [t])
  {
    assert forall i :: 0 <= i < |ts| - 1 ==> ts[i] < ts[|ts| - 1];
  }

  /** Pruning an increasing history keeps one suffix of it; everything before is expired, nothing in it is. */
  lemma {:induction false} PruneIsSuffix(ts: seq<Time>, end: Time, f: Flapping) returns (n: nat)
    requires Increasing(ts)
    ensures n <= |ts| && Prune(ts, end, f) == ts[n..]
    ensures forall i :: 0 <= i < |ts| ==> (i < n <==> end - ts[i] > FlappingWindow(f))
  {
    if ts == [] {
      n := 0;
    } else if end - ts[0] <= FlappingWindow(f) {
      var m := PruneIsSuffix(ts[1..], end, f);
      assert forall i :: 0 <= i < |ts[1..]| ==> ts[1..][i] == ts[i + 1];
      assert ts[1..] != [] ==> end - ts[1..][0] <= FlappingWindow(f);
      assert ts[1..][0..] == ts[1..];
      n := 0;
    } else {
      var m := PruneIsSuffix(ts[1..], end, f);
      n := m + 1;
      assert ts[n..] == ts[1..][m..];
    }
  }

  /** What is left of the full history `all` in `kept`: a suffix of at most ten entries, and whatever is
      missing is expired at `end` unless the suffix is full. */
  predicate Remembers(kept: seq<Time>, all: seq<Time>, end: Time, f: Flapping) {
    && |kept| <= |all| && |kept| <= MAX_TRANSITIONS
    && kept == all[|all| - |kept|..]
    && (|kept| == MAX_TRANSITIONS || forall i :: 0 <= i < |all| - |kept| ==> end - all[i] > FlappingWindow(f))
  }

  lemma RemembersPrune(kept: seq<Time>, all: seq<Time>, e0: Time, end: Time, f: Flapping)
    requires Increasing(all) && e0 <= end && Remembers(kept, all, e0, f)
    ensures Remembers(Prune(kept, end, f), all, end, f)
  {
    var n := PruneIsSuffix(kept, end, f);
    var m := PruneIsSuffix(all, end, f);
    assert forall i :: 0 <= i < |kept| ==> kept[i] == all[|all| - |kept| + i];
    if n > 0 {
      assert end - all[|all| - |kept| + n - 1] > FlappingWindow(f);
    }
  }

  lemma RemembersFired(kept: seq<Time>, all: seq<Time>, end: Time, f: Flapping)
    requires Remembers(kept, all, end, f)
    ensures Remembers(Capped(kept + [end]), all + [end], end, f)
  {
    var k := Capped(kept + [end]);
    assert |kept| == MAX_TRANSITIONS ==> k == (kept + [end])[1..];
    assert k == (all + [end])[|all| + 1 - |k|..];
  }

  lemma RemembersStep(kept: seq<Time>, all: seq<Time>, e0: Time, end: Time, f: Flapping, open: bool)
    requires Increasing(all) && e0 <= end && Remembers(kept, all, e0, f)
    ensures Remembers(if open then Capped(Prune(kept, end, f) + [end]) else Prune(kept, end, f),
                      all + if open then [end] else [], end, f)
  {
    RemembersPrune(kept, all, e0, end, f);
    if open {
      RemembersFired(Prune(kept, end, f), all, end, f);
    } else {
      assert all + [] == all;
    }
  }

  lemma {:induction false} HistoryIsRemembered(r: Run, k: nat)
    requires r.Valid() && 0 < k <= |r.ins| && r.cfg.flapping.enabled
    ensures Remembers(r.st[k].transitions, OpenedAt(r, k), r.ins[k - 1].end, r.cfg.flapping)
  {
    hide Step, Prune, Capped, Increasing;
    var e0 := if k > 1 then r.ins[k - 2].end else r.ins[k - 1].end;
    HistoryLink(r, k - 1);
    OpenedAtIncreases(r, k - 1);
    if k > 1 {
      HistoryIsRemembered(r, k - 1);
      EndsIncrease(r.ins, k - 2, k - 1);
    }
    RemembersStep(r.st[k - 1].transitions, OpenedAt(r, k - 1), e0, r.ins[k - 1].end, r.cfg.flapping,
        r.outs[k - 1].open);
  }

  /** A recent-enough threshold is judged alike by the bounded and the full history. */
  lemma RememberedCount(kept: seq<Time>, all: seq<Time>, e0: Time, end: Time, f: Flapping, n: int)
    requires Increasing(all) && e0 <= end && Remembers(kept, all, e0, f)
    ensures |Prune(kept, end, f)| >= n <==> n <= MAX_TRANSITIONS && |Prune(all, end, f)| >= n
  {
    var a := PruneIsSuffix(kept, end, f);
    var b := PruneIsSuffix(all, end, f);
    assert forall i :: 0 <= i < |kept| ==> kept[i] == all[|all| - |kept| + i];
    var cut := |all| - |kept|;
    if b >= cut {
      if b < |all| {
        assert !(end - all[b] > FlappingWindow(f));
        assert kept[b - cut] == all[b];
      }
      if b > cut {
        assert kept[b - 1 - cut] == all[b - 1];
      }
      assert a == b - cut;
    } else {
      assert end - all[b] <= FlappingWindow(f);
      assert |kept| == MAX_TRANSITIONS;
      assert kept[0] == all[cut] > all[b];
    }
  }

  /** Flapping is reported exactly when the threshold is at most ten and the series entered firing that often
      within the window, over its whole history. Thresholds above ten are accepted by rule validation and
      never take effect. */
  lemma FlappingIsExact(r: Run, k: nat)
    requires r.Valid() && k < |r.ins|
    ensures var f := r.cfg.flapping;
            IsFlapping(r.st[k].transitions, r.ins[k].end, f) <==>
              f.enabled && 0 < f.transitions <= MAX_TRANSITIONS
              && |Prune(OpenedAt(r, k), r.ins[k].end, f)| >= f.transitions
  {
    if k > 0 && r.cfg.flapping.enabled {
      HistoryIsRemembered(r, k);
      OpenedAtIncreases(r, k);
      EndsIncrease(r.ins, k - 1, k);
      RememberedCount(r.st[k].transitions, OpenedAt(r, k), r.ins[k - 1].end, r.ins[k].end, r.cfg.flapping,
          r.cfg.flapping.transitions);
    }
  }
}
