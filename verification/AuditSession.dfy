/**
  The locked section of one audit operation as the program runs it: search, merge, decide, fence, write, and try
  again when a fence is refused. Nobody else touches the comments meanwhile; the clock is arbitrary, so fences
  may be refused, and any comment write may fail.
 */
module AuditSession {
  import opened Wrappers
  import opened AuditCodec
  import opened AuditStore
  import opened AuditOps
  import opened AuditRecorders
  import Lock = AuditLock

  lemma PerformConcat(store: Store, writes: seq<Write>, n: nat)
    requires n < |writes|
    ensures PerformAll(store, writes[..n + 1]) == Perform(PerformAll(store, writes[..n]), writes[n])
  {
    assert writes[..n + 1][..n] == writes[..n];
  }

  lemma TakeAll(writes: seq<Write>, n: nat)
    requires n <= |writes|
    ensures Take(writes, n) == writes[..n]
  {}

  /** No two readings of the clock are further apart than the lease is long. */
  ghost predicate Steady(clock: nat -> int) { forall m, n :: clock(n) <= clock(m) + Lock.AUDIT_LOCK_TTL_SECONDS }

  /** The row carries the tenure, and no reading of the clock is past its expiry. */
  ghost predicate Live(row: Lock.Item, holder: string, version: int, clock: nat -> int) {
    Lock.Tenure(row, holder, version) && forall n :: clock(n) <= row.value.expiresAt
  }

  /** The operation fails on these comments: they cannot be merged, or it rejects what it finds. */
  predicate Refusing(env: Env, op: Op, store: Store) {
    var ids := Listing(store, env.target);
    if ids == [] then Decide(env, op, None) == Reject
    else if |ids| == 1 then Decide(env, op, Some(BodyAt(store.bodies, ids[0]))) == Reject
    else
      var text := TextFor(env.scrub, store.bodies, ids, env.derive, env.target);
      text.Err? || Decide(env, op, Some(text.value)) == Reject
  }

  class AuditSession {
    var row: Lock.Item
    var store: Store
    /** How many clock readings were taken. */
    var ticks: nat
    /** How many more comment writes succeed. */
    var writes: nat

    constructor (row: Lock.Item, store: Store, writes: nat)
      ensures this.row == row && this.store == store && this.writes == writes
    {
      this.row, this.store, this.writes, ticks := row, store, writes, 0;
    }

    method Lease(holder: string, clock: nat -> int) returns (version: Option<int>)
      modifies this`row, this`ticks
      ensures version.Some? ==> Lock.Tenure(row, holder, version.value)
      ensures version.None? ==> row == old(row)
      ensures version.None? ==> forall n :: old(ticks) <= n < old(ticks) + ACQUIRE_TRIES ==> !Lock.AcquireAllowed(row, clock(n))
      ensures Steady(clock) && Lock.AcquireAllowed(old(row), clock(old(ticks))) ==> version.Some? && Live(row, holder, version.value, clock)
    {
      version := None;
      var tries := 0;
      while tries < ACQUIRE_TRIES && version.None?
        invariant tries <= ACQUIRE_TRIES
        invariant version.Some? ==> Lock.Tenure(row, holder, version.value)
        invariant version.None? ==> row == old(row) && ticks == old(ticks) + tries
        invariant version.None? ==> forall n :: old(ticks) <= n < ticks ==> !Lock.AcquireAllowed(row, clock(n))
        invariant Steady(clock) && version.Some? ==> Live(row, holder, version.value, clock)
        decreases ACQUIRE_TRIES - tries, version.None?
      {
        var call := Lock.Acquire(holder, clock(ticks), Lock.AUDIT_LOCK_TTL_SECONDS);
        var reply := Lock.ReplyTo(row, call);
        row, ticks := Lock.After(row, call), ticks + 1;
        if reply.Granted? {
          version := Some(reply.version);
        } else {
          tries := tries + 1;
        }
      }
    }

    method Fence(holder: string, version: int, clock: nat -> int) returns (next: Option<int>)
      modifies this`row, this`ticks
      ensures next.Some? ==> Lock.Tenure(old(row), holder, version) && next.value == version + 1 && Lock.Tenure(row, holder, next.value)
      ensures next.None? ==> row == old(row)
      ensures next.Some? <==> Lock.FenceAllowed(old(row), holder, version, clock(old(ticks)))
      ensures Steady(clock) && Live(old(row), holder, version, clock) ==> next.Some? && Live(row, holder, next.value, clock)
    {
      var call := Lock.Fence(holder, version, clock(ticks), Lock.AUDIT_LOCK_TTL_SECONDS);
      var reply := Lock.ReplyTo(row, call);
      row, ticks := Lock.After(row, call), ticks + 1;
      next := if reply.Granted? then Some(reply.version) else None;
    }

    method Release(holder: string)
      modifies this`row
      ensures !Lock.HeldBy(row, holder)
    {
      row := Lock.After(row, Lock.Release(holder));
    }

    /** Make the given writes until one fails. */
    method WriteAll(todo: seq<Write>) returns (done: nat)
      modifies this`store, this`writes
      ensures done <= |todo| && store == PerformAll(old(store), todo[..done])
      ensures done == (if |todo| < old(writes) then |todo| else old(writes)) && writes == old(writes) - done
    {
      done := 0;
      while done < |todo| && writes > 0
        invariant done <= |todo| && store == PerformAll(old(store), todo[..done]) && writes == old(writes) - done
      {
        PerformConcat(old(store), todo, done);
        store, writes, done := Perform(store, todo[done]), writes - 1, done + 1;
      }
    }

    /**
      Run the operation under the lock. `log` says what it did: one entry for each attempt that read the comments,
      each from the comments the previous attempt left. Success means the last attempt completed its plan.
     */
    method Run(env: Env, op: Op, who: nat, holder: string, clock: nat -> int) returns (ok: bool, ghost log: seq<Tx>)
      requires store.Valid()
      modifies this
      ensures |log| <= MAX_ATTEMPTS && forall k :: 0 <= k < |log| ==> log[k].who == who && log[k].op == op
      ensures store == Serial(env, old(store), log)
      ensures ok ==> log != [] && Complete(env, old(store), log, |log| - 1)
      ensures ok ==> !Lock.HeldBy(row, holder)
      ensures Promising(env, op, old(store), old(row), clock, old(ticks), old(writes)) ==> ok && |log| == 1
    {
      hide *;
      ok, log := false, [];
      ghost var init := store;
      SerialNone(env, init);
      PromisingIs(env, op, init, row, clock, ticks, writes);
      SeveralAttempts();
      var lease := Lease(holder, clock);
      var attempt := 0;
      while attempt < MAX_ATTEMPTS && lease.Some?
        invariant attempt <= MAX_ATTEMPTS && |log| == attempt && store.Valid() && !ok
        invariant forall k :: 0 <= k < |log| ==> log[k].who == who && log[k].op == op
        invariant store == Serial(env, init, log)
        invariant Promising(env, op, init, old(row), clock, old(ticks), old(writes)) ==>
                    attempt == 0 && store == init && writes == old(writes) && lease.Some? && Live(row, holder, lease.value, clock)
      {
        ghost var before := store;
        var done, result := Attempt(env, op, holder, lease.value, clock);
        SerialSnoc(env, init, log, Tx(who, op, done));
        SerialValid(env, init, log + [Tx(who, op, done)]);
        RunTxIs(env, before, Tx(who, op, done));
        if result != Again {
          CompleteSnoc(env, init, log, Tx(who, op, done));
          log := log + [Tx(who, op, done)];
          Release(holder);
          return result == Success, log;
        }
        log := log + [Tx(who, op, done)];
        attempt := attempt + 1;
        if attempt < MAX_ATTEMPTS {
          lease := Lease(holder, clock);
        }
      }
      Release(holder);
    }

    /** One attempt: the writes it makes are the first `done` of the plan for the comments it starts from. */
    method Attempt(env: Env, op: Op, holder: string, lease: int, clock: nat -> int) returns (done: nat, result: Ending)
      requires store.Valid()
      modifies this
      ensures store == PerformAll(old(store), Take(Plan(env, op, old(store)), done))
      ensures done <= |Plan(env, op, old(store))|
      ensures result == Success ==> done == |Plan(env, op, old(store))| && !Refusing(env, op, old(store))
      ensures Steady(clock) && Live(old(row), holder, lease, clock) && old(writes) >= |Plan(env, op, old(store))| ==>
                (result == Success <==> !Refusing(env, op, old(store)))
    {
      hide *;
      PlanIs(env, op, store);
      PlanNone(env, op, store);
      RefusingIs(env, op, store);
      var ids := Listing(store, env.target);
      var version := lease;
      done, result := 0, Failure;
      if |ids| > 1 {
        var fence := Fence(holder, version, clock);
        if fence.None? {
          return 0, Again;
        }
        version := fence.value;
        var found := Candidates(store.bodies, ids);
        ListingIs(store, env.target);
        ListedAreCandidates(store.bodies, ids, env.target);
        var text := TextFor(env.scrub, store.bodies, found, env.derive, env.target);
        if text.Err? {
          return;
        }
        var merge := MergeWrites(found, text.value);
        ghost var base, plan := store, Plan(env, op, store);
        var merged := WriteAll(merge);
        assert plan[..merged] == merge[..merged];
        TakeAll(plan, merged);
        done := merged;
        if merged < |merge| {
          return;
        }
        var more;
        more, result := Finish(env, op, Some(ids[0]), Some(text.value), holder, version, clock);
        ghost var last := FinalWrites(env, op, Some(ids[0]), Some(text.value));
        assert plan == merge + last && merge[..merged] == merge;
        PerformThen(base, merge, last, more);
        assert plan[..merged + more] == merge + last[..more];
        TakeAll(plan, merged + more);
        TakeAll(last, more);
        done := merged + more;
      } else if |ids| == 1 {
        done, result := Finish(env, op, Some(ids[0]), Some(BodyAt(store.bodies, ids[0])), holder, version, clock);
      } else {
        done, result := Finish(env, op, None, None, holder, version, clock);
      }
    }

    /** Decide, fence and make the last write. */
    method Finish(env: Env, op: Op, id: Option<nat>, existing: Option<string>, holder: string, version: int, clock: nat -> int)
      returns (done: nat, result: Ending)
      modifies this
      ensures done <= |FinalWrites(env, op, id, existing)|
      ensures store == PerformAll(old(store), Take(FinalWrites(env, op, id, existing), done))
      ensures result == Success ==> done == |FinalWrites(env, op, id, existing)| && Decide(env, op, existing) != Reject
      ensures Steady(clock) && Live(old(row), holder, version, clock) && old(writes) >= |FinalWrites(env, op, id, existing)| ==>
                (result == Success <==> Decide(env, op, existing) != Reject)
    {
      hide *;
      FinalIs(env, op, id, existing);
      ghost var last := FinalWrites(env, op, id, existing);
      TakeAll(last, 0);
      NoWrites(store);
      assert last[..0] == [];
      done := 0;
      var decision := Decide(env, op, existing);
      match decision
      case Reject => result := Failure;
      case Keep => result := Success;
      case Replace(body) =>
        var fence := Fence(holder, version, clock);
        if fence.None? {
          return 0, if id.None? then Failure else Again;
        }
        var write := if id.Some? then Put(id.value, body) else Add(body);
        done := WriteAll([write]);
        assert last == [write];
        TakeAll(last, done);
        result := if done == 1 then Success else Failure;
    }
  }

  /** Everything is there for the operation to succeed at its first attempt. */
  ghost predicate Promising(env: Env, op: Op, store: Store, row: Lock.Item, clock: nat -> int, tick: nat, writes: nat) {
    Steady(clock) && Lock.AcquireAllowed(row, clock(tick)) && writes >= |Plan(env, op, store)| && !Refusing(env, op, store)
  }

  lemma PromisingIs(env: Env, op: Op, store: Store, row: Lock.Item, clock: nat -> int, tick: nat, writes: nat)
    ensures Promising(env, op, store, row, clock, tick, writes) <==>
              Steady(clock) && Lock.AcquireAllowed(row, clock(tick)) && writes >= |Plan(env, op, store)| && !Refusing(env, op, store)
  {
    hide Plan, Refusing, Steady, Lock.AcquireAllowed;
  }

  lemma SeveralAttempts()
    ensures MAX_ATTEMPTS > 0
  {}

  lemma RefusingIs(env: Env, op: Op, store: Store)
    ensures var ids := Listing(store, env.target);
            && (ids == [] ==> (Refusing(env, op, store) <==> Decide(env, op, None) == Reject))
            && (|ids| == 1 ==> (Refusing(env, op, store) <==> Decide(env, op, Some(BodyAt(store.bodies, ids[0]))) == Reject))
            && (|ids| > 1 ==>
                  var text := TextFor(env.scrub, store.bodies, ids, env.derive, env.target);
                  Refusing(env, op, store) <==> text.Err? || Decide(env, op, Some(text.value)) == Reject)
  {
    hide Listing, Decide, TextFor, BodyAt;
  }

  datatype Ending = Success | Failure | Again

  lemma SerialNone(env: Env, init: Store)
    ensures Serial(env, init, []) == init
  {}

  lemma NoWrites(store: Store)
    ensures PerformAll(store, []) == store
  {}

  lemma PlanNone(env: Env, op: Op, store: Store)
    ensures PerformAll(store, Take(Plan(env, op, store), 0)) == store
  {
    hide Plan;
    assert Take(Plan(env, op, store), 0) == [];
  }

  lemma RunTxIs(env: Env, store: Store, tx: Tx)
    ensures RunTx(env, store, tx) == PerformAll(store, Take(Plan(env, tx.op, store), tx.done))
  {
    hide Plan;
  }

  lemma CompleteSnoc(env: Env, init: Store, log: seq<Tx>, tx: Tx)
    ensures Complete(env, init, log + [tx], |log|) <==> tx.done >= |Plan(env, tx.op, Serial(env, init, log))|
  {
    hide Plan, Serial;
    assert (log + [tx])[..|log|] == log;
  }

  lemma FinalIs(env: Env, op: Op, id: Option<nat>, existing: Option<string>)
    ensures var decision := Decide(env, op, existing);
            FinalWrites(env, op, id, existing) ==
              if decision.Replace? then [if id.Some? then Put(id.value, decision.body) else Add(decision.body)] else []
  {
    hide Decide;
  }

  lemma {:induction false} PerformThen(store: Store, first: seq<Write>, second: seq<Write>, n: nat)
    requires n <= |second|
    ensures PerformAll(store, first + second[..n]) == PerformAll(PerformAll(store, first), second[..n])
  {
    if n == 0 {
      assert first + second[..0] == first;
    } else {
      PerformThen(store, first, second, n - 1);
      PerformConcat(PerformAll(store, first), second, n - 1);
      var all := first + second[..n];
      assert all[..|all| - 1] == first + second[..n - 1];
    }
  }
}
