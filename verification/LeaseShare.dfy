/** Fair sharing of rule leases among evaluators (internal/alert/lease.go over the lease statements of
    internal/alert/pgstore_eval.go). */
module LeaseShare {
  import opened Base
  import opened Arithmetic
  import opened Tables

  function EnabledRules(db: Db): set<RuleId> {
    set r | r in db.rules && db.rules[r].enabled
  }

  function Held(db: Db, inst: Instance): set<RuleId> {
    set r | r in db.rules && db.rules[r].lease.owner == inst
  }

  function HeldEnabled(db: Db, inst: Instance): set<RuleId> {
    set r | r in db.rules && db.rules[r].lease.owner == inst && db.rules[r].enabled
  }

  function ClaimableRules(db: Db): set<RuleId> {
    set r | r in db.rules && Claimable(db, r)
  }

  /** Both statements of a renewal, as the protocol's steps state them. */
  function Renewed(db: Db, inst: Instance, ttl: int): Db {
    RenewExtend(RenewDrop(db, inst), inst, ttl)
  }

  /** A renewal keeps exactly the leases of enabled rules, and they are not up for grabs while they last. */
  lemma RenewedHeld(db: Db, inst: Instance, ttl: int)
    requires inst != "" && ttl >= 0
    ensures Held(Renewed(db, inst, ttl), inst) == HeldEnabled(db, inst)
    ensures EnabledRules(Renewed(db, inst, ttl)) == EnabledRules(db)
    ensures Held(Renewed(db, inst, ttl), inst) !! ClaimableRules(Renewed(db, inst, ttl))
  {
    var after := Renewed(db, inst, ttl);
    forall r
      ensures r in Held(after, inst) <==> r in HeldEnabled(db, inst)
      ensures r in Held(after, inst) ==> r !in ClaimableRules(after)
    {
    }
  }

  lemma ReleasedHeld(db: Db, inst: Instance, picked: set<RuleId>)
    requires inst != "" && picked <= Held(db, inst)
    ensures Held(Release(db, inst, picked), inst) == Held(db, inst) - picked
  {
  }

  lemma ClaimedHeld(db: Db, inst: Instance, picked: set<RuleId>, ttl: int)
    requires picked <= ClaimableRules(db)
    ensures Held(Claim(db, inst, picked, ttl), inst) == Held(db, inst) + picked
  {
  }

  /** Every element of `first` comes before, or with, every other element of `s`. */
  predicate ComesFirst(first: set<RuleId>, s: set<RuleId>, key: RuleId -> int) {
    forall p, r :: p in first && r in s - first ==> key(p) <= key(r)
  }

  function Reversed(key: RuleId -> int): RuleId -> int {
    r => -key(r)
  }

  method Least(s: set<RuleId>, key: RuleId -> int) returns (least: RuleId)
    requires s != {}
    ensures least in s && forall r :: r in s ==> key(least) <= key(r)
  {
    least :| least in s;
    var rest := s - {least};
    while rest != {}
      invariant rest <= s && least in s
      invariant forall r :: r in s - rest ==> key(least) <= key(r)
      decreases rest
    {
      var r :| r in rest;
      if key(r) < key(least) {
        least := r;
      }
      rest := rest - {r};
    }
  }

  /** The first `n` elements of a set, or all when it has fewer. */
  method PickFirst(s: set<RuleId>, n: nat, key: RuleId -> int) returns (picked: set<RuleId>)
    ensures picked <= s && |picked| == Min(n, |s|) && ComesFirst(picked, s, key)
  {
    picked := {};
    var rest := s;
    while rest != {} && |picked| < n
      invariant picked <= s && rest == s - picked && |picked| <= n && |picked| + |rest| == |s|
      invariant ComesFirst(picked, s, key)
      decreases rest
    {
      var r := Least(rest, key);
      picked := picked + {r};
      rest := rest - {r};
    }
  }

  predicate Disabled(e: RuleEntry, inst: Instance) {
    e.lease.owner == inst && !e.enabled
  }

  predicate Mine(e: RuleEntry, inst: Instance) {
    e.lease.owner == inst && e.enabled
  }

  /** The first statement of a renewal, row by row. */
  method FreeDisabled(before: map<RuleId, RuleEntry>, inst: Instance) returns (rules: map<RuleId, RuleEntry>)
    ensures rules.Keys == before.Keys
    ensures forall r :: r in before ==> rules[r] == if Disabled(before[r], inst) then Freed(before[r]) else before[r]
  {
    rules := before;
    var rest := set r | r in before && Disabled(before[r], inst);
    hide Freed;
    while rest != {}
      invariant rest <= before.Keys && rules.Keys == before.Keys
      invariant forall r :: r in rest ==> Disabled(before[r], inst)
      invariant forall r :: r in before ==>
        rules[r] == if Disabled(before[r], inst) && r !in rest then Freed(before[r]) else before[r]
      decreases rest
    {
      var r :| r in rest;
      rules := rules[r := Freed(rules[r])];
      rest := rest - {r};
    }
  }

  /** The second statement, which returns the leases it extended. */
  method ExtendEnabled(before: map<RuleId, RuleEntry>, inst: Instance, until: Time)
    returns (rules: map<RuleId, RuleEntry>, held: set<RuleId>)
    ensures rules.Keys == before.Keys && held == set r | r in before && Mine(before[r], inst)
    ensures forall r :: r in before ==>
      rules[r] == if r in held then before[r].(lease := before[r].lease.(until := Some(until))) else before[r]
  {
    rules, held := before, {};
    var mine := set r | r in before && Mine(before[r], inst);
    var rest := mine;
    while rest != {}
      invariant rest <= mine && held == mine - rest && rules.Keys == before.Keys
      invariant forall r :: r in before ==>
        rules[r] == if r in held then before[r].(lease := before[r].lease.(until := Some(until))) else before[r]
      decreases rest
    {
      var r :| r in rest;
      rules := rules[r := rules[r].(lease := rules[r].lease.(until := Some(until)))];
      held := held + {r};
      rest := rest - {r};
    }
  }

  /** The lease table; one method per store call. No row is locked by another session. */
  class LeaseTable {
    var db: Db

    /** The `next_eval_at` column. */
    var next: RuleId -> Time

    constructor (db: Db, next: RuleId -> Time)
      ensures this.db == db && this.next == next
    {
      this.db, this.next := db, next;
    }

    /** The evaluator keeps exactly the leases of enabled rules, which last `ttl` from now, and gives up those of
        disabled rules. Nothing else of a rule changes, and nothing of a rule it did not hold. */
    method Renew(inst: Instance, ttl: int) returns (held: set<RuleId>)
      modifies this`db
      ensures held == HeldEnabled(old(db), inst)
      ensures db == old(db).(rules := db.rules) && db.rules.Keys == old(db).rules.Keys
      ensures forall r :: r in db.rules ==> db.rules[r] == old(db).rules[r].(lease := db.rules[r].lease)
      ensures forall r :: r in held ==> db.rules[r].lease == old(db).rules[r].lease.(until := Some(db.now + ttl))
      ensures forall r :: r in Held(old(db), inst) - held ==> db.rules[r] == Freed(old(db).rules[r])
      ensures forall r :: r in db.rules && r !in Held(old(db), inst) ==> db.rules[r] == old(db).rules[r]
    {
      var freed := FreeDisabled(db.rules, inst);
      var after, mine := ExtendEnabled(freed, inst, db.now + ttl);
      held := mine;
      db := db.(rules := after);
    }

    method CountEnabled() returns (n: nat)
      ensures n == |EnabledRules(db)|
    {
      n := |EnabledRules(db)|;
    }

    /** Claims the rules that are due first. */
    method ClaimRules(inst: Instance, n: nat, ttl: int) returns (claimed: set<RuleId>)
      modifies this`db
      ensures ComesFirst(claimed, ClaimableRules(old(db)), next)
      ensures claimed <= ClaimableRules(old(db)) && |claimed| == Min(n, |ClaimableRules(old(db))|)
      ensures db == Claim(old(db), inst, claimed, ttl)
    {
      claimed := PickFirst(ClaimableRules(db), n, next);
      db := Claim(db, inst, claimed, ttl);
    }

    /** Releases the rules that are due last. */
    method ReleaseRules(inst: Instance, n: nat) returns (released: set<RuleId>)
      modifies this`db
      ensures ComesFirst(released, Held(old(db), inst), Reversed(next))
      ensures released <= Held(old(db), inst) && |released| == Min(n, |Held(old(db), inst)|)
      ensures db == Release(old(db), inst, released)
    {
      released := PickFirst(Held(db, inst), n, Reversed(next));
      db := Release(db, inst, released);
    }
  }

  /** What a renewal leaves is what the two statements leave. */
  lemma RenewIsRenewed(before: Db, after: Db, inst: Instance, ttl: int)
    requires after == before.(rules := after.rules) && after.rules.Keys == before.rules.Keys
    requires forall r :: r in after.rules ==> after.rules[r] == before.rules[r].(lease := after.rules[r].lease)
    requires forall r :: r in HeldEnabled(before, inst) ==>
      after.rules[r].lease == before.rules[r].lease.(until := Some(after.now + ttl))
    requires forall r :: r in Held(before, inst) - HeldEnabled(before, inst) ==>
      after.rules[r] == Freed(before.rules[r])
    requires forall r :: r in after.rules && r !in Held(before, inst) ==> after.rules[r] == before.rules[r]
    ensures after == Renewed(before, inst, ttl)
  {
    var t := Renewed(before, inst, ttl);
    forall r | r in after.rules ensures after.rules[r] == t.rules[r] {
      if r in HeldEnabled(before, inst) {
        assert r in Held(before, inst);
      } else if r in Held(before, inst) {
        assert r in Held(before, inst) - HeldEnabled(before, inst);
      }
    }
    assert after.rules == t.rules;
  }

  /** The leases an evaluator may hold. */
  function Share(total: nat, live: int): int {
    CeilDiv(total, Max(live, 1))
  }

  lemma ShareNotNegative(total: nat, live: int)
    ensures Share(total, live) >= 0
  {
    CeilDivCovers(total, Max(live, 1));
  }

  /** The share is the least number of leases with which the live evaluators hold all rules. */
  lemma ShareIsLeast(total: nat, live: int, s: nat)
    ensures Share(total, live) <= s <==> total <= s * Max(live, 1)
  {
    var n := Max(live, 1);
    CeilDivCovers(total, n);
    var share := Share(total, live);
    if share <= s {
      MulLe(share, s, n);
    } else {
      MulLe(s, share - 1, n);
      assert (share - 1) * n == share * n - n;
    }
  }

  /** What an evaluator knows of a rule it holds. */
  datatype LocalLease = LocalLease(next: Time, lastEnd: Option<Time>, until: Option<Time>)

  function LeaseOf(db: Db, next: RuleId -> Time, r: RuleId): LocalLease
    requires r in db.rules
  {
    LocalLease(next(r), db.rules[r].lease.lastEnd, db.rules[r].lease.until)
  }

  /** The leases a round returns. */
  function Returned(db: Db, next: RuleId -> Time, held: set<RuleId>): map<RuleId, LocalLease>
    requires held <= db.rules.Keys
  {
    map r | r in held :: LeaseOf(db, next, r)
  }

  /** A schedule that is known locally wins while it is the later one: it is newer than the row. */
  function Later(known: map<RuleId, LocalLease>, r: RuleId, l: LocalLease): LocalLease {
    if r in known && known[r].next > l.next then l.(next := known[r].next, lastEnd := known[r].lastEnd) else l
  }

  function Merged(known: map<RuleId, LocalLease>, rows: map<RuleId, LocalLease>): map<RuleId, LocalLease> {
    map r | r in rows :: Later(known, r, rows[r])
  }

  lemma HeldAreRules(db: Db, inst: Instance)
    ensures Held(db, inst) <= db.rules.Keys
  {
  }

  lemma ReturnedKeys(db: Db, next: RuleId -> Time, held: set<RuleId>)
    requires held <= db.rules.Keys
    ensures Returned(db, next, held).Keys == held
  {
  }

  lemma MergedKeys(known: map<RuleId, LocalLease>, rows: map<RuleId, LocalLease>)
    ensures Merged(known, rows).Keys == rows.Keys
  {
  }

  method Soonest(owned: map<RuleId, LocalLease>, s: set<RuleId>) returns (best: RuleId)
    requires s != {} && s <= owned.Keys
    ensures best in s && forall r :: r in s ==> owned[best].next <= owned[r].next
  {
    best :| best in s;
    var rest := s - {best};
    while rest != {}
      invariant rest <= s && best in s
      invariant forall r :: r in s - rest ==> owned[best].next <= owned[r].next
      decreases rest
    {
      var r :| r in rest;
      if owned[r].next < owned[best].next {
        best := r;
      }
      rest := rest - {r};
    }
  }

  method SoonestFirst(owned: map<RuleId, LocalLease>, s: set<RuleId>) returns (out: seq<RuleId>)
    requires s <= owned.Keys
    ensures forall r :: r in out <==> r in s
    ensures forall i, j :: 0 <= i < j < |out| ==> out[i] != out[j] && owned[out[i]].next <= owned[out[j]].next
  {
    out := [];
    var rest := s;
    while rest != {}
      invariant rest <= s && forall r :: r in s ==> r in rest || r in out
      invariant forall i :: 0 <= i < |out| ==> out[i] in s && out[i] !in rest
      invariant forall i, j :: 0 <= i < j < |out| ==> out[i] != out[j] && owned[out[i]].next <= owned[out[j]].next
      invariant forall i, r :: 0 <= i < |out| && r in rest ==> owned[out[i]].next <= owned[r].next
      decreases rest
    {
      var r := Soonest(owned, rest);
      out := out + [r];
      rest := rest - {r};
    }
  }

  /** A rule keeps the time its lease ends from the store. Its schedule is the one that lies further ahead, the store's
      when both are the same. */
  lemma MergedIsExact(known: map<RuleId, LocalLease>, rows: map<RuleId, LocalLease>, r: RuleId)
    requires r in rows
    ensures var l := Merged(known, rows)[r];
            && l.until == rows[r].until
            && (r !in known || known[r].next <= rows[r].next ==> l == rows[r])
            && (r in known && known[r].next >= rows[r].next ==> l.next == known[r].next)
            && (r in known && known[r].next > rows[r].next ==> l.lastEnd == known[r].lastEnd)
  {
  }

  method MergeLocal(known: map<RuleId, LocalLease>, rows: map<RuleId, LocalLease>)
    returns (held: map<RuleId, LocalLease>)
    ensures held == Merged(known, rows)
  {
    held := rows;
    var rest := rows.Keys;
    while rest != {}
      invariant rest <= rows.Keys == held.Keys
      invariant forall r :: r in rows ==> held[r] == if r in rest then rows[r] else Later(known, r, rows[r])
      decreases rest
    {
      var r :| r in rest;
      if r in known && known[r].next > held[r].next {
        held := held[r := held[r].(next := known[r].next, lastEnd := known[r].lastEnd)];
      }
      rest := rest - {r};
    }
    assert held == Merged(known, rows);
  }

  class LeaseManager {
    const inst: Instance
    const ttl: int
    var owned: map<RuleId, LocalLease>
    var live: int

    constructor (inst: Instance, ttl: int)
      ensures this.inst == inst && this.ttl == (if ttl <= 0 then 30 * SECOND else ttl) && owned == map[] && live == 0
    {
      this.inst, this.ttl := inst, if ttl <= 0 then 30 * SECOND else ttl;
      owned, live := map[], 0;
    }

    /** One renew and rebalance round: what it leaves the evaluator with is what the table says it holds, never more
        than its share, and exactly its share when there is enough to claim. */
    method Tick(store: LeaseTable, seen: int)
      requires inst != "" && ttl > 0
      modifies this`owned, this`live, store`db
      ensures owned == Merged(old(owned), Returned(store.db, store.next, Held(store.db, inst))) && live == Max(seen, 1)
      ensures var share := Share(|EnabledRules(old(store.db))|, seen);
              var kept := HeldEnabled(old(store.db), inst);
              var free := ClaimableRules(Renewed(old(store.db), inst, ttl));
              && |owned.Keys| <= share
              && (|kept| >= share ==> owned.Keys <= kept && |owned.Keys| == share)
              && (|kept| < share ==> kept <= owned.Keys && |owned.Keys| == Min(share, |kept| + |free|))
    {
      hide Renewed, ClaimableRules, Held, HeldEnabled, EnabledRules, Merged, Returned;
      var liveNow := Max(seen, 1);
      ghost var before := store.db;
      var held := KeepAlive(store);
      ghost var kept := held;
      ghost var free := ClaimableRules(Renewed(before, inst, ttl));
      ShareNotNegative(|EnabledRules(before)|, seen);
      var total := store.CountEnabled();
      var share := (total + liveNow - 1) / liveNow;
      assert share == Share(|EnabledRules(before)|, seen);
      hide Share;
      held := Rebalance(store, held, share);
      HeldAreRules(store.db, inst);
      owned := MergeLocal(owned, Returned(store.db, store.next, held));
      live := liveNow;
      MergedKeys(old(owned), Returned(store.db, store.next, held));
      ReturnedKeys(store.db, store.next, held);
      assert owned.Keys == held && kept == HeldEnabled(before, inst);
      assert |kept| >= share ==> held <= kept && |held| == share;
      assert |kept| < share ==> kept <= held && |held| == Min(share, |kept| + |free|);
    }

    method KeepAlive(store: LeaseTable) returns (held: set<RuleId>)
      requires inst != "" && ttl > 0
      modifies store`db
      ensures store.db == Renewed(old(store.db), inst, ttl)
      ensures held == Held(store.db, inst) == HeldEnabled(old(store.db), inst)
      ensures held !! ClaimableRules(store.db) && EnabledRules(store.db) == EnabledRules(old(store.db))
    {
      RenewedHeld(store.db, inst, ttl);
      hide Renewed, ClaimableRules, EnabledRules, Freed;
      ghost var before := store.db;
      held := store.Renew(inst, ttl);
      RenewIsRenewed(before, store.db, inst, ttl);
    }

    /** Gives up what is above the share, or claims what is missing to it. */
    method Rebalance(store: LeaseTable, held: set<RuleId>, share: nat) returns (after: set<RuleId>)
      requires inst != "" && held == Held(store.db, inst) && held !! ClaimableRules(store.db)
      modifies store`db
      ensures after == Held(store.db, inst)
      ensures |held| >= share ==> after <= held && |after| == share
      ensures |held| < share ==> held <= after && |after| == Min(share, |held| + |ClaimableRules(old(store.db))|)
    {
      hide Claim, Release, ClaimableRules;
      after := held;
      ghost var before := store.db;
      if |held| > share {
        var released := store.ReleaseRules(inst, |held| - share);
        ReleasedHeld(before, inst, released);
        after := held - released;
      } else if |held| < share {
        var claimed := store.ClaimRules(inst, share - |held|, ttl);
        ClaimedHeld(before, inst, claimed, ttl);
        after := held + claimed;
      }
    }

    /** Notes the next evaluation of a rule; a skipped or failed one leaves the last end as it is. */
    method Scheduled(r: RuleId, next: Time, lastEnd: Option<Time>)
      modifies this`owned
      ensures owned.Keys == old(owned).Keys
      ensures forall q :: q in owned && q != r ==> owned[q] == old(owned)[q]
      ensures r in owned ==>
                && owned[r].next == next && owned[r].until == old(owned)[r].until
                && owned[r].lastEnd == if lastEnd.Some? then lastEnd else old(owned)[r].lastEnd
    {
      if r in owned {
        var l := owned[r].(next := next);
        if lastEnd.Some? {
          l := l.(lastEnd := lastEnd);
        }
        owned := owned[r := l];
      }
    }

    method Drop(r: RuleId)
      modifies this`owned
      ensures owned == old(owned) - {r}
    {
      if r in owned {
        owned := owned - {r};
      }
    }

    /** The leases that still last, those to be evaluated first in front. */
    method Owned(now: Time) returns (out: seq<RuleId>)
      ensures forall r :: r in out <==> r in owned && owned[r].until.Some? && owned[r].until.value > now
      ensures forall i, j :: 0 <= i < j < |out| ==> out[i] != out[j] && owned[out[i]].next <= owned[out[j]].next
    {
      out := SoonestFirst(owned, set r | r in owned && owned[r].until.Some? && owned[r].until.value > now);
    }
  }

  // ----- nobody starves -----

  function HeldByAny(db: Db, insts: set<Instance>): set<RuleId> {
    set r | r in db.rules && db.rules[r].enabled && db.rules[r].lease.owner in insts
  }

  lemma HeldSplit(db: Db, insts: set<Instance>, i: Instance)
    requires i in insts
    ensures HeldByAny(db, insts) == HeldByAny(db, insts - {i}) + HeldEnabled(db, i)
    ensures HeldByAny(db, insts - {i}) !! HeldEnabled(db, i)
  {
  }

  /** If everyone holds at least `share` enabled rules, together they hold that many times `share`. */
  lemma {:induction false} EveryoneFull(db: Db, insts: set<Instance>, share: nat)
    requires forall i :: i in insts ==> |HeldEnabled(db, i)| >= share
    ensures |HeldByAny(db, insts)| >= |insts| * share
  {
    if insts != {} {
      var i :| i in insts;
      var rest := insts - {i};
      HeldSplit(db, insts, i);
      hide HeldByAny, HeldEnabled;
      EveryoneFull(db, rest, share);
      assert |insts| * share == |rest| * share + share;
    }
  }

  lemma SubsetSize<T>(a: set<T>, b: set<T>)
    requires a <= b
    ensures |a| <= |b|
  {
    assert b == a + (b - a);
  }

  /** While an enabled rule is held by nobody and no dead evaluator holds an enabled rule, some live evaluator is below
      its share. */
  lemma SomeoneIsBelowShare(db: Db, live: set<Instance>, idle: RuleId) returns (inst: Instance)
    requires live != {} && "" !in live
    requires idle in db.rules && db.rules[idle].enabled && db.rules[idle].lease.owner == ""
    requires forall r :: r in db.rules && db.rules[r].enabled ==>
        db.rules[r].lease.owner == "" || db.rules[r].lease.owner in live
    ensures inst in live && |HeldEnabled(db, inst)| < Share(|EnabledRules(db)|, |live|)
  {
    var total := |EnabledRules(db)|;
    var share := Share(total, |live|);
    ShareNotNegative(total, |live|);
    CeilDivCovers(total, |live|);
    if forall i :: i in live ==> |HeldEnabled(db, i)| >= share {
      EveryoneFull(db, live, share);
      assert HeldByAny(db, live) <= EnabledRules(db) - {idle};
      SubsetSize(HeldByAny(db, live), EnabledRules(db) - {idle});
      assert false;
    }
    inst :| inst in live && |HeldEnabled(db, inst)| < share;
  }

  /** Its next round claims a rule: with an accurate live count, no rule stays idle while every evaluator ticks. */
  lemma IdleRuleLeadsToClaim(db: Db, live: set<Instance>, idle: RuleId, ttl: int) returns (inst: Instance)
    requires live != {} && "" !in live && ttl > 0 && Claimable(db, idle) && db.rules[idle].lease.owner == ""
    requires forall r :: r in db.rules && db.rules[r].enabled ==>
        db.rules[r].lease.owner == "" || db.rules[r].lease.owner in live
    ensures inst in live
    ensures var kept, free := HeldEnabled(db, inst), ClaimableRules(Renewed(db, inst, ttl));
            |kept| < Min(Share(|EnabledRules(db)|, |live|), |kept| + |free|)
  {
    inst := SomeoneIsBelowShare(db, live, idle);
    assert idle in ClaimableRules(Renewed(db, inst, ttl));
  }
}
