/** The per-organization limit on evaluations (internal/alert/evaluator.go): a token bucket for the rate and a count of
    running evaluations. */
module TenantBudget {
  import opened Base

  datatype Bucket = Bucket(running: nat, tokens: real, last: Time)

  type Buckets = map<string, Bucket>

  /** Both limits are at least 1: smaller settings are replaced by defaults. */
  datatype Limits = Limits(maxRunning: nat, perMinute: nat)

  const MINUTE: int := 60 * SECOND

  /** Tokens that flow in during `d`. */
  function Refill(d: int, perMinute: nat): real {
    d as real / MINUTE as real * perMinute as real
  }

  function Current(b: Buckets, lim: Limits, tenant: string, now: Time): Bucket {
    if tenant in b then b[tenant] else Bucket(0, lim.perMinute as real, now)
  }

  function Refilled(b: Bucket, lim: Limits, now: Time): Bucket {
    var tokens := b.tokens + Refill(now - b.last, lim.perMinute);
    b.(tokens := if tokens < lim.perMinute as real then tokens else lim.perMinute as real, last := now)
  }

  predicate Grants(b: Bucket, lim: Limits) {
    b.running < lim.maxRunning && b.tokens >= 1.0
  }

  function Acquired(b: Buckets, lim: Limits, tenant: string, now: Time): (Buckets, bool) {
    var t := Refilled(Current(b, lim, tenant, now), lim, now);
    if Grants(t, lim) then (b[tenant := t.(running := t.running + 1, tokens := t.tokens - 1.0)], true)
    else (b[tenant := t], false)
  }

  function Released(b: Buckets, tenant: string): Buckets {
    if tenant in b && b[tenant].running > 0 then b[tenant := b[tenant].(running := b[tenant].running - 1)] else b
  }

  class Budget {
    const lim: Limits
    var tenants: Buckets

    constructor (maxRunning: nat, perMinute: nat)
      ensures tenants == map[] && lim == Limits(maxRunning, perMinute)
    {
      lim := Limits(maxRunning, perMinute);
      tenants := map[];
    }

    method Acquire(tenant: string, now: Time) returns (ok: bool)
      modifies this
      ensures (tenants, ok) == Acquired(old(tenants), lim, tenant, now)
    {
      if tenant !in tenants {
        tenants := tenants[tenant := Bucket(0, lim.perMinute as real, now)];
      }
      var t := tenants[tenant];
      var tokens := t.tokens + (now - t.last) as real / MINUTE as real * lim.perMinute as real;
      if tokens >= lim.perMinute as real {
        tokens := lim.perMinute as real;
      }
      t := t.(tokens := tokens, last := now);
      assert t == Refilled(Current(old(tenants), lim, tenant, now), lim, now);
      tenants := tenants[tenant := t];
      assert tenants == old(tenants)[tenant := t];
      if t.running >= lim.maxRunning || t.tokens < 1.0 {
        return false;
      }
      tenants := tenants[tenant := t.(running := t.running + 1, tokens := t.tokens - 1.0)];
      assert tenants == Acquired(old(tenants), lim, tenant, now).0;
      return true;
    }

    method Release(tenant: string)
      modifies this
      ensures tenants == Released(old(tenants), tenant)
    {
      if tenant in tenants && tenants[tenant].running > 0 {
        tenants := tenants[tenant := tenants[tenant].(running := tenants[tenant].running - 1)];
      }
    }
  }

  // ----- runs -----

  datatype Event = Acquire(tenant: string, at: Time) | Release(tenant: string, at: Time)

  function Next(b: Buckets, lim: Limits, ev: Event): Buckets {
    match ev
    case Acquire(t, at) => Acquired(b, lim, t, at).0
    case Release(t, _) => Released(b, t)
  }

  /** Calls of any number of organizations under a clock that never goes back. */
  datatype Run = Run(lim: Limits, states: seq<Buckets>, events: seq<Event>) {
    ghost predicate Valid() {
      && 1 <= lim.perMinute && |states| == |events| + 1 && states[0] == map[]
      && (forall i :: 0 < i < |events| ==> events[i - 1].at <= events[i].at)
      && forall n :: 0 <= n < |events| ==> StepAt(n)
    }

    ghost predicate StepAt(n: nat)
      requires n < |events| && |states| == |events| + 1
    {
      states[n + 1] == Next(states[n], lim, events[n])
    }

    predicate Granted(n: nat, tenant: string)
      requires n < |events| && |states| == |events| + 1
    {
      events[n].Acquire? && events[n].tenant == tenant && Acquired(states[n], lim, tenant, events[n].at).1
    }
  }

  /** Successful acquires of a tenant among the events [a, b). */
  function GrantedIn(run: Run, tenant: string, a: nat, b: nat): nat
    requires a <= b <= |run.events| && |run.states| == |run.events| + 1
  {
    if a == b then 0 else GrantedIn(run, tenant, a, b - 1) + if run.Granted(b - 1, tenant) then 1 else 0
  }

  function Releases(run: Run, tenant: string, b: nat): nat
    requires b <= |run.events|
  {
    if b == 0 then 0
    else Releases(run, tenant, b - 1) + if run.events[b - 1].Release? && run.events[b - 1].tenant == tenant then 1
        else 0
  }

  // ----- arithmetic of refills -----

  lemma RefillAdds(x: int, y: int, perMinute: nat)
    ensures Refill(x + y, perMinute) == Refill(x, perMinute) + Refill(y, perMinute)
  {
    var r := perMinute as real;
    var a, b := x as real / MINUTE as real, y as real / MINUTE as real;
    assert (x + y) as real / MINUTE as real == a + b;
    assert (a + b) * r == a * r + b * r;
  }

  lemma RefillNotNegative(d: int, perMinute: nat)
    requires d >= 0
    ensures Refill(d, perMinute) >= 0.0
  {
  }

  // ----- invariants -----

  lemma {:induction false} EventsInOrder(run: Run, i: nat, j: nat)
    requires run.Valid() && i <= j < |run.events|
    ensures run.events[i].at <= run.events[j].at
    decreases j
  {
    if i < j {
      EventsInOrder(run, i, j - 1);
    }
  }

  predicate BucketOk(b: Bucket, lim: Limits) {
    0.0 <= b.tokens <= lim.perMinute as real && b.running <= lim.maxRunning
  }

  /** Tokens stay between 0 and the rate, at most the allowed number runs, and the bucket was last touched by an
      earlier event. */
  lemma {:induction false} BucketsStayInBounds(run: Run, n: nat, tenant: string)
    requires run.Valid() && n < |run.states| && tenant in run.states[n]
    ensures BucketOk(run.states[n][tenant], run.lim)
    ensures n > 0 && run.states[n][tenant].last <= run.events[n - 1].at
  {
    var m := n - 1;
    assert run.StepAt(m);
    if tenant in run.states[m] {
      BucketsStayInBounds(run, m, tenant);
      EventsInOrder(run, m - 1, m);
      RefillNotNegative(run.events[m].at - run.states[m][tenant].last, run.lim.perMinute);
    }
    hide Refill;
    if run.events[m].Acquire? && run.events[m].tenant == tenant && tenant !in run.states[m] {
      NoRefill(run.lim.perMinute);
    }
  }

  lemma NoRefill(perMinute: nat)
    ensures Refill(0, perMinute) == 0.0
  {
  }

  // ----- the rate -----

  /** What a tenant has taken since event `a` and what it still has is covered by a full bucket and the inflow. */
  predicate Covered(run: Run, tenant: string, a: nat, n: nat)
    requires a <= n <= |run.events| && |run.states| == |run.events| + 1 && a < |run.events|
  {
    var taken := GrantedIn(run, tenant, a, n);
    var from := run.events[a].at;
    if tenant !in run.states[n] then taken == 0
    else
      var b := run.states[n][tenant];
      if b.last < from then taken == 0
      else taken as real + b.tokens <= run.lim.perMinute as real + Refill(b.last - from, run.lim.perMinute)
  }

  lemma AcquireCovered(run: Run, tenant: string, a: nat, n: nat)
    requires run.Valid() && a <= n < |run.events| && Covered(run, tenant, a, n)
    requires run.events[n] == Acquire(tenant, run.events[n].at)
    ensures Covered(run, tenant, a, n + 1)
  {
    hide Refill;
    assert run.StepAt(n);
    var from, now := run.events[a].at, run.events[n].at;
    EventsInOrder(run, a, n);
    RefillNotNegative(now - from, run.lim.perMinute);
    if tenant in run.states[n] {
      BucketsStayInBounds(run, n, tenant);
      var last := run.states[n][tenant].last;
      RefillAdds(last - from, now - last, run.lim.perMinute);
    }
  }

  lemma {:induction false} TakenIsCovered(run: Run, tenant: string, a: nat, n: nat)
    requires run.Valid() && a <= n <= |run.events| && a < |run.events|
    ensures Covered(run, tenant, a, n)
    decreases n
  {
    hide Refill;
    if a == n {
      if tenant in run.states[n] {
        BucketsStayInBounds(run, n, tenant);
        EventsInOrder(run, n - 1, n);
        NoRefill(run.lim.perMinute);
      }
    } else {
      TakenIsCovered(run, tenant, a, n - 1);
      assert run.StepAt(n - 1);
      if run.events[n - 1].Acquire? && run.events[n - 1].tenant == tenant {
        AcquireCovered(run, tenant, a, n - 1);
      }
    }
  }

  /** In any stretch of a run an organization gets at most its rate times the elapsed minutes, plus one full bucket. */
  lemma RateIsBounded(run: Run, tenant: string, a: nat, b: nat)
    requires run.Valid() && a < b <= |run.events|
    ensures GrantedIn(run, tenant, a, b) as real
         <= run.lim.perMinute as real + Refill(run.events[b - 1].at - run.events[a].at, run.lim.perMinute)
  {
    hide Refill;
    TakenIsCovered(run, tenant, a, b);
    var from, until := run.events[a].at, run.events[b - 1].at;
    EventsInOrder(run, a, b - 1);
    RefillNotNegative(until - from, run.lim.perMinute);
    if tenant in run.states[b] && run.states[b][tenant].last >= from {
      BucketsStayInBounds(run, b, tenant);
      var last := run.states[b][tenant].last;
      RefillAdds(last - from, until - last, run.lim.perMinute);
      RefillNotNegative(until - last, run.lim.perMinute);
    }
  }

  // ----- concurrency -----

  /** Every release belongs to an earlier acquire. */
  ghost predicate Paired(run: Run, tenant: string)
    requires |run.states| == |run.events| + 1
  {
    forall n :: 0 <= n <= |run.events| ==> Releases(run, tenant, n) <= GrantedIn(run, tenant, 0, n)
  }

  /** The running count is exactly the acquires not yet released, and never above the limit. */
  lemma {:induction false} RunningIsExact(run: Run, tenant: string, n: nat)
    requires run.Valid() && Paired(run, tenant) && n <= |run.events|
    ensures var running := if tenant in run.states[n] then run.states[n][tenant].running else 0;
            running == GrantedIn(run, tenant, 0, n) - Releases(run, tenant, n) && running <= run.lim.maxRunning
  {
    hide Refill;
    if n > 0 {
      RunningIsExact(run, tenant, n - 1);
      assert run.StepAt(n - 1);
      assert Releases(run, tenant, n) <= GrantedIn(run, tenant, 0, n);
      var ev := run.events[n - 1];
      if ev.Acquire? && ev.tenant == tenant {
        AcquireCounts(run.states[n - 1], run.lim, tenant, ev.at);
      }
    }
  }

  lemma AcquireCounts(b: Buckets, lim: Limits, tenant: string, now: Time)
    ensures var (after, ok) := Acquired(b, lim, tenant, now);
            var running := if tenant in b then b[tenant].running else 0;
            tenant in after && after[tenant].running == (running + if ok then 1 else 0)
                && (ok ==> running < lim.maxRunning)
  {
    hide Refill;
  }

  // ----- nothing is withheld -----

  /** A minute refills as many tokens as the rate says. */
  lemma MinuteRefillsRate(d: int, perMinute: nat)
    ensures Refill(MINUTE, perMinute) == perMinute as real
    ensures d >= MINUTE ==> Refill(d, perMinute) >= perMinute as real
  {
    if d >= MINUTE {
      RefillAdds(MINUTE, d - MINUTE, perMinute);
      RefillNotNegative(d - MINUTE, perMinute);
    }
  }

  function Least(x: real, y: real): real {
    if x < y then x else y
  }

  /** An acquire succeeds exactly when another evaluation may run and a whole token is there after the refill; then it
      takes both. A first acquire finds a full bucket. */
  lemma AcquireIsExact(b: Buckets, lim: Limits, tenant: string, now: Time)
    ensures var (after, ok) := Acquired(b, lim, tenant, now);
            var full := lim.perMinute as real;
            var tokens := if tenant in b then Least(full,
                b[tenant].tokens + Refill(now - b[tenant].last, lim.perMinute))
                          else full;
            var running := if tenant in b then b[tenant].running else 0;
            && (ok <==> running < lim.maxRunning && tokens >= 1.0)
            && after.Keys == b.Keys + {tenant} && (forall t :: t in b && t != tenant ==> after[t] == b[t])
            && after[tenant] == Bucket(running + if ok then 1 else 0, tokens - if ok then 1.0 else 0.0, now)
  {
    MinuteRefillsRate(0, lim.perMinute);
    NoRefill(lim.perMinute);
    hide Refill;
  }

  /** What a tenant has is at least what flowed in since event `a`, up to a full bucket, less what it took since. */
  predicate Owed(run: Run, tenant: string, a: nat, n: nat)
    requires a <= n <= |run.events| && |run.states| == |run.events| + 1 && a < |run.events|
  {
    tenant in run.states[n] && run.states[n][tenant].last >= run.events[a].at ==>
      var b := run.states[n][tenant];
      b.tokens >= Least(run.lim.perMinute as real, Refill(b.last - run.events[a].at, run.lim.perMinute))
                  - GrantedIn(run, tenant, a, n) as real
  }

  lemma AcquireOwed(run: Run, tenant: string, a: nat, n: nat)
    requires run.Valid() && a <= n < |run.events| && Owed(run, tenant, a, n)
    requires run.events[n] == Acquire(tenant, run.events[n].at)
    ensures Owed(run, tenant, a, n + 1)
  {
    assert run.StepAt(n);
    var from, now := run.events[a].at, run.events[n].at;
    EventsInOrder(run, a, n);
    TakenIsCovered(run, tenant, a, n);
    AcquireIsExact(run.states[n], run.lim, tenant, now);
    if tenant in run.states[n] {
      BucketsStayInBounds(run, n, tenant);
      var last := run.states[n][tenant].last;
      RefillAdds(last - from, now - last, run.lim.perMinute);
      if last < from {
        RefillAdds(now - from, from - last, run.lim.perMinute);
        RefillNotNegative(from - last, run.lim.perMinute);
      } else {
        RefillNotNegative(now - last, run.lim.perMinute);
      }
    }
    hide Refill, Acquired;
  }

  lemma {:induction false} TokensAreOwed(run: Run, tenant: string, a: nat, n: nat)
    requires run.Valid() && a <= n <= |run.events| && a < |run.events|
    ensures Owed(run, tenant, a, n)
    decreases n
  {
    hide Refill;
    if a == n {
      if tenant in run.states[n] {
        BucketsStayInBounds(run, n, tenant);
        EventsInOrder(run, n - 1, n);
        NoRefill(run.lim.perMinute);
      }
    } else {
      TokensAreOwed(run, tenant, a, n - 1);
      assert run.StepAt(n - 1);
      if run.events[n - 1].Acquire? && run.events[n - 1].tenant == tenant {
        AcquireOwed(run, tenant, a, n - 1);
      }
    }
  }

  /** An organization that may run another evaluation is refused only when it took its whole rate within the last
      minute: since any event at least a minute ago, it was granted at least as many as its rate. */
  lemma RefusedOnlyWhenSpent(run: Run, tenant: string, a: nat, n: nat)
    requires run.Valid() && a <= n < |run.events| && run.events[n] == Acquire(tenant, run.events[n].at)
    requires !run.Granted(n, tenant) && tenant in run.states[n] && run.states[n][tenant].running < run.lim.maxRunning
    requires run.events[n].at - run.events[a].at >= MINUTE
    ensures GrantedIn(run, tenant, a, n) >= run.lim.perMinute
  {
    assert run.StepAt(n);
    TokensAreOwed(run, tenant, a, n + 1);
    AcquireIsExact(run.states[n], run.lim, tenant, run.events[n].at);
    MinuteRefillsRate(run.events[n].at - run.events[a].at, run.lim.perMinute);
    hide Refill, Acquired;
  }

  /** And a first acquire is always granted. */
  lemma FirstIsGranted(run: Run, tenant: string, n: nat)
    requires run.Valid() && n < |run.events| && run.events[n] == Acquire(tenant, run.events[n].at)
    requires tenant !in run.states[n] && run.lim.maxRunning > 0
    ensures run.Granted(n, tenant)
  {
    AcquireIsExact(run.states[n], run.lim, tenant, run.events[n].at);
  }
}
