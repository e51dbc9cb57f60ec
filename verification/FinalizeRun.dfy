/**
  Closing a failed run: record an outcome for every folder, release the run's locks, and move its status. Each of
  these retries; the whole is repeated by its caller until all three have worked.
 */
module FinalizeRun {
  import opened Wrappers
  import opened RunStatus
  import opened RunLocks
  import opened RunLockTable

  const MAX_FINALIZE_ATTEMPTS: nat := 3

  /** A folder outcome as it arrives, after normalization; parts may be missing. */
  datatype Item = Item(folder: Option<string>, exec: Option<string>, attempt: nat, status: string)

  datatype Row = Row(exec: string, status: string)

  /** How a call ends: it works, or fails in a way that is worth another try, or fails for good. */
  datatype Fault = Works | Transient | Final

  type Rows = map<(string, nat), Row>

  function ExecFor(run: string, item: Item): Option<string> {
    if item.exec.Some? && item.exec.value != "" then item.exec
    else if item.folder == Some("config") then Some("config-" + run)
    else None
  }

  /** The record that the item asks for is there. */
  predicate Recorded(rows: Rows, run: string, item: Item) {
    && item.folder.Some? && ExecFor(run, item).Some?
    && (item.folder.value, item.attempt) in rows && rows[(item.folder.value, item.attempt)].exec == ExecFor(run, item).value
  }

  /** Rows are only added, never changed. */
  ghost predicate Extends(before: Rows, after: Rows) { forall key :: key in before ==> key in after && after[key] == before[key] }

  /** What is recorded for a map item that has no outcome. */
  function Synthesized(item: Item): Item {
    var folder := if item.folder.Some? then item.folder.value else "";
    Item(item.folder, if item.exec.Some? && item.exec.value != "" then item.exec else Some("missing-" + folder), item.attempt, "failed")
  }

  /** Every outcome is recorded, and every map item's folder has an outcome or a failure record. */
  ghost predicate AllRecorded(rows: Rows, run: string, outcomes: seq<Item>, items: seq<Item>) {
    && (forall k :: 0 <= k < |outcomes| ==> Recorded(rows, run, outcomes[k]))
    && (forall k :: 0 <= k < |items| && items[k].folder.Some? ==>
          Reported(outcomes, items[k].folder.value) || Recorded(rows, run, Synthesized(items[k])))
  }

  predicate Reported(outcomes: seq<Item>, folder: string) { exists k :: 0 <= k < |outcomes| && outcomes[k].folder == Some(folder) }

  /** The item is complete and nothing is recorded under its folder and attempt. */
  predicate Recordable(rows: Rows, run: string, item: Item) {
    item.folder.Some? && ExecFor(run, item).Some? && (item.folder.value, item.attempt) !in rows
  }

  // ---------------------------------------------------------------------------------------------
  // What can be recorded
  // ---------------------------------------------------------------------------------------------

  /** A call that is tried several times works in time: it fails only in ways worth another try, and then works. */
  predicate WorksWithin(faults: nat -> Fault, from: nat, tries: nat)
    decreases tries
  {
    tries > 0 && (faults(from) == Works || (faults(from) == Transient && WorksWithin(faults, from + 1, tries - 1)))
  }

  /** From this call on everything works. */
  ghost predicate AllWork(faults: nat -> Fault, from: nat) { forall n :: n >= from ==> faults(n) == Works }

  /** The failure records for the map items whose folders have no outcome. */
  function Missing(outcomes: seq<Item>, items: seq<Item>): seq<Item> {
    if items == [] then []
    else
      var last := items[|items| - 1];
      Missing(outcomes, items[..|items| - 1])
      + if last.folder.Some? && !Reported(outcomes, last.folder.value) then [Synthesized(last)] else []
  }

  /** Everything that closing the run wants recorded. */
  function Wanted(outcomes: seq<Item>, items: seq<Item>): seq<Item> { outcomes + Missing(outcomes, items) }

  predicate SameRecord(a: Item, b: Item) { a.folder == b.folder && a.attempt == b.attempt }

  /** The item is complete, and what is recorded under its folder and attempt, if anything, is its own execution. */
  predicate Fits(rows: Rows, run: string, item: Item) {
    && item.folder.Some? && ExecFor(run, item).Some?
    && ((item.folder.value, item.attempt) in rows ==> rows[(item.folder.value, item.attempt)].exec == ExecFor(run, item).value)
  }

  /** Every item fits, and no two ask for one record with different executions. */
  ghost predicate Consistent(rows: Rows, run: string, wanted: seq<Item>) {
    && (forall k :: 0 <= k < |wanted| ==> Fits(rows, run, wanted[k]))
    && (forall j, k :: 0 <= j < k < |wanted| && SameRecord(wanted[j], wanted[k]) ==> ExecFor(run, wanted[j]) == ExecFor(run, wanted[k]))
  }

  /** Rows that were added were asked for by one of the first n items. */
  ghost predicate AskedFor(before: Rows, rows: Rows, run: string, wanted: seq<Item>, n: nat)
    requires n <= |wanted|
  {
    forall key :: key in rows && key !in before ==> exists k :: 0 <= k < n && Asks(wanted[k], run, key, rows[key].exec)
  }

  predicate Asks(item: Item, run: string, key: (string, nat), exec: string) {
    item.folder == Some(key.0) && item.attempt == key.1 && ExecFor(run, item) == Some(exec)
  }

  /** What consistent items have added so far fits the next one. */
  lemma NextFits(before: Rows, rows: Rows, run: string, wanted: seq<Item>, n: nat)
    requires n < |wanted| && Extends(before, rows) && AskedFor(before, rows, run, wanted, n) && Consistent(before, run, wanted)
    ensures Fits(rows, run, wanted[n])
  {
    hide ExecFor;
    assert Fits(before, run, wanted[n]);
    var key := (wanted[n].folder.value, wanted[n].attempt);
    if key in rows && key !in before {
      var k :| 0 <= k < n && Asks(wanted[k], run, key, rows[key].exec);
      assert SameRecord(wanted[k], wanted[n]);
    }
  }

  /** Recording an item keeps that. */
  lemma AskedForGrows(before: Rows, rows: Rows, after: Rows, run: string, wanted: seq<Item>, n: nat)
    requires n < |wanted| && AskedFor(before, rows, run, wanted, n) && Added(rows, after, run, wanted[n])
    ensures AskedFor(before, after, run, wanted, n + 1)
  {
    hide ExecFor;
    forall key | key in after && key !in before ensures exists k :: 0 <= k < n + 1 && Asks(wanted[k], run, key, after[key].exec) {
      if key in rows && rows[key] == after[key] {
        var k :| 0 <= k < n && Asks(wanted[k], run, key, rows[key].exec);
        assert Asks(wanted[k], run, key, after[key].exec);
      } else {
        assert Asks(wanted[n], run, key, after[key].exec);
      }
    }
  }

  /** At most the item's own record was added. */
  ghost predicate Added(rows: Rows, after: Rows, run: string, item: Item) {
    after != rows ==>
      && item.folder.Some? && ExecFor(run, item).Some? && (item.folder.value, item.attempt) !in rows
      && after == rows[(item.folder.value, item.attempt) := Row(ExecFor(run, item).value, item.status)]
  }

  /** What was all recorded in the end was consistent to begin with. */
  lemma RecordedIsConsistent(before: Rows, rows: Rows, run: string, wanted: seq<Item>)
    requires Extends(before, rows) && forall k :: 0 <= k < |wanted| ==> Recorded(rows, run, wanted[k])
    ensures Consistent(before, run, wanted)
  {
    hide ExecFor;
    forall k | 0 <= k < |wanted| ensures Fits(before, run, wanted[k]) {
      assert Recorded(rows, run, wanted[k]);
    }
    forall j, k | 0 <= j < k < |wanted| && SameRecord(wanted[j], wanted[k])
      ensures ExecFor(run, wanted[j]) == ExecFor(run, wanted[k])
    {
      assert Recorded(rows, run, wanted[j]) && Recorded(rows, run, wanted[k]);
    }
  }

  /** The records wanted are those of the outcomes and of the unreported map items. */
  lemma {:induction false} MissingRecorded(rows: Rows, run: string, outcomes: seq<Item>, items: seq<Item>)
    ensures (forall k :: 0 <= k < |Missing(outcomes, items)| ==> Recorded(rows, run, Missing(outcomes, items)[k]))
       <==> (forall k :: 0 <= k < |items| && items[k].folder.Some? ==>
               Reported(outcomes, items[k].folder.value) || Recorded(rows, run, Synthesized(items[k])))
  {
    hide Recorded, Reported, Synthesized;
    if items != [] {
      var rest, n := items[..|items| - 1], |items| - 1;
      var before, all := Missing(outcomes, rest), Missing(outcomes, items);
      MissingRecorded(rows, run, outcomes, rest);
      assert forall k :: 0 <= k < n ==> rest[k] == items[k];
      assert forall k :: 0 <= k < |before| ==> all[k] == before[k];
      assert |all| > |before| ==> all[|before|] == Synthesized(items[n]);
    }
  }

  lemma WantedRecorded(rows: Rows, run: string, outcomes: seq<Item>, items: seq<Item>)
    ensures AllRecorded(rows, run, outcomes, items)
       <==> forall k :: 0 <= k < |Wanted(outcomes, items)| ==> Recorded(rows, run, Wanted(outcomes, items)[k])
  {
    hide Recorded, Reported, Synthesized, Missing;
    MissingRecorded(rows, run, outcomes, items);
    var missing, wanted := Missing(outcomes, items), Wanted(outcomes, items);
    assert forall k :: 0 <= k < |outcomes| ==> wanted[k] == outcomes[k];
    assert forall k :: 0 <= k < |missing| ==> wanted[|outcomes| + k] == missing[k];
  }

  /** Where recording stands after the first n wanted items; `fine` says that nothing could go wrong. */
  ghost predicate Progress(before: Rows, rows: Rows, run: string, wanted: seq<Item>, n: nat, errors: nat, fine: bool)
    requires n <= |wanted|
  {
    && Extends(before, rows) && AskedFor(before, rows, run, wanted, n)
    && (fine ==> errors == 0 && Consistent(before, run, wanted))
    && (errors == 0 ==> forall k :: 0 <= k < n ==> Recorded(rows, run, wanted[k]))
    && ((forall k :: 0 <= k < |wanted| ==> Recorded(before, run, wanted[k])) ==> rows == before)
  }

  lemma NoProgress(rows: Rows, run: string, wanted: seq<Item>, fine: bool)
    requires fine ==> Consistent(rows, run, wanted)
    ensures Progress(rows, rows, run, wanted, 0, 0, fine)
  {
    hide Recorded, Consistent;
  }

  lemma ProgressStep(before: Rows, rows: Rows, after: Rows, run: string, wanted: seq<Item>, n: nat, errors: nat, error: bool, fine: bool)
    requires n < |wanted| && Progress(before, rows, run, wanted, n, errors, fine) && Added(rows, after, run, wanted[n])
    requires Fits(rows, run, wanted[n]) && fine ==> !error
    requires !error ==> Recorded(after, run, wanted[n])
    requires Recorded(rows, run, wanted[n]) ==> after == rows
    ensures Progress(before, after, run, wanted, n + 1, if error then errors + 1 else errors, fine)
  {
    AskedForGrows(before, rows, after, run, wanted, n);
    AddedExtends(rows, after, run, wanted[n]);
    hide Recorded, Fits, Consistent, AskedFor, Added;
    if fine {
      NextFits(before, rows, run, wanted, n);
    }
    forall k | 0 <= k < n && Recorded(rows, run, wanted[k]) ensures Recorded(after, run, wanted[k]) {
      RecordedStays(rows, after, run, wanted[k]);
    }
  }

  lemma AddedExtends(rows: Rows, after: Rows, run: string, item: Item)
    requires Added(rows, after, run, item)
    ensures Extends(rows, after)
  {
    hide ExecFor;
  }

  lemma WorkLater(faults: nat -> Fault, from: nat, later: nat)
    requires from <= later
    ensures AllWork(faults, from) ==> AllWork(faults, later)
  {}

  /** One of the tries to release the locks has enough working calls. */
  ghost predicate EnoughCalls(budget: nat -> nat, owners: nat) {
    exists n :: 0 <= n < MAX_FINALIZE_ATTEMPTS && budget(n) >= 5 * owners + 1
  }

  lemma WantedAt(outcomes: seq<Item>, items: seq<Item>, k: nat)
    requires k < |outcomes|
    ensures k < |Wanted(outcomes, items)| && Wanted(outcomes, items)[k] == outcomes[k]
  {
    hide Missing;
  }

  lemma NoneMissing(outcomes: seq<Item>, items: seq<Item>)
    ensures items[..0] == [] && Missing(outcomes, []) == [] && |outcomes| <= |Wanted(outcomes, items)|
  {
    hide Reported;
  }

  lemma {:induction false} MissingPrefix(outcomes: seq<Item>, items: seq<Item>, n: nat)
    requires n <= |items|
    ensures Missing(outcomes, items[..n]) <= Missing(outcomes, items)
  {
    hide Reported, Synthesized;
    if n == |items| {
      assert items[..n] == items;
    } else {
      MissingPrefix(outcomes, items[..|items| - 1], n);
      assert items[..|items| - 1][..n] == items[..n];
    }
  }

  /** The next map item adds one wanted record, or none. */
  lemma MissingAt(outcomes: seq<Item>, items: seq<Item>, k: nat)
    requires k < |items|
    ensures var n := |outcomes| + |Missing(outcomes, items[..k])|;
            if items[k].folder.Some? && !Reported(outcomes, items[k].folder.value)
            then n < |Wanted(outcomes, items)| && Wanted(outcomes, items)[n] == Synthesized(items[k])
                 && |outcomes| + |Missing(outcomes, items[..k + 1])| == n + 1
            else |outcomes| + |Missing(outcomes, items[..k + 1])| == n
    ensures |outcomes| + |Missing(outcomes, items[..k + 1])| <= |Wanted(outcomes, items)|
  {
    hide Reported, Synthesized;
    assert items[..k + 1][..k] == items[..k];
    MissingPrefix(outcomes, items, k + 1);
    var missing, upTo := Missing(outcomes, items), Missing(outcomes, items[..k + 1]);
    assert |upTo| > |Missing(outcomes, items[..k])| ==> missing[|upTo| - 1] == upTo[|upTo| - 1] == Synthesized(items[k]);
  }

  lemma SeenReported(outcomes: seq<Item>, seen: set<string>)
    requires seen == set k | 0 <= k < |outcomes| && outcomes[k].folder.Some? :: outcomes[k].folder.value
    ensures forall folder :: folder in seen <==> Reported(outcomes, folder)
  {}

  lemma WholeProgress(before: Rows, rows: Rows, run: string, outcomes: seq<Item>, items: seq<Item>, errors: nat, fine: bool)
    requires Progress(before, rows, run, Wanted(outcomes, items), |Wanted(outcomes, items)|, errors, fine)
    ensures Extends(before, rows) && (fine ==> errors == 0)
    ensures errors == 0 ==> AllRecorded(rows, run, outcomes, items) && Consistent(before, run, Wanted(outcomes, items))
    ensures AllRecorded(before, run, outcomes, items) ==> rows == before
  {
    hide Recorded, AllRecorded, Consistent, AskedFor, Wanted, Extends;
    WantedRecorded(rows, run, outcomes, items);
    WantedRecorded(before, run, outcomes, items);
    if errors == 0 {
      RecordedIsConsistent(before, rows, run, Wanted(outcomes, items));
    }
  }

  lemma RecordedStays(before: Rows, after: Rows, run: string, item: Item)
    requires Extends(before, after) && Recorded(before, run, item)
    ensures Recorded(after, run, item)
  {}

  class Registry {
    var rows: Rows
    var status: Stored
    /** How many calls were made. */
    var calls: nat

    constructor (rows: Rows, status: Stored)
      ensures this.rows == rows && this.status == status && calls == 0
    {
      this.rows, this.status, calls := rows, status, 0;
    }

    /** Record one folder unless it is recorded already; another execution's record is an error. */
    method PersistOne(run: string, item: Item, faults: nat -> Fault) returns (error: bool)
      modifies this`rows, this`calls
      ensures Extends(old(rows), rows)
      ensures Added(old(rows), rows, run, item)
      ensures !error ==> Recorded(rows, run, item)
      ensures Recorded(old(rows), run, item) ==> rows == old(rows) && (error <==> faults(old(calls)) != Works)
      ensures Recordable(old(rows), run, item) ==>
                (error <==> faults(old(calls)) != Works || !WorksWithin(faults, old(calls) + 1, MAX_FINALIZE_ATTEMPTS))
      ensures AllWork(faults, old(calls)) && Fits(old(rows), run, item) ==> !error
      ensures calls >= old(calls)
    {
      var exec := ExecFor(run, item);
      if item.folder.None? || exec.None? {
        return true;
      }
      var key := (item.folder.value, item.attempt);
      var read := faults(calls);
      calls := calls + 1;
      if read != Works {
        return true;
      }
      if key in rows {
        return rows[key].exec != exec.value;
      }
      var n := 0;
      while n < MAX_FINALIZE_ATTEMPTS
        invariant rows == old(rows) && key !in rows && calls == old(calls) + 1 + n
        invariant n <= MAX_FINALIZE_ATTEMPTS
        invariant WorksWithin(faults, calls, MAX_FINALIZE_ATTEMPTS - n)
             <==> WorksWithin(faults, old(calls) + 1, MAX_FINALIZE_ATTEMPTS)
      {
        var fault := faults(calls);
        calls := calls + 1;
        if fault == Works {
          rows := rows[key := Row(exec.value, item.status)];
          return false;
        }
        if fault == Final {
          return true;
        }
        n := n + 1;
      }
      error := true;
    }

    /**
      Record all outcomes, and a failure for each map item whose folder has none. When all calls work this makes no
      error exactly when what is wanted fits what is recorded and itself.
     */
    method PersistOutcomes(run: string, outcomes: seq<Item>, items: seq<Item>, faults: nat -> Fault) returns (errors: nat)
      modifies this`rows, this`calls
      ensures Extends(old(rows), rows)
      ensures errors == 0 ==> AllRecorded(rows, run, outcomes, items)
      ensures AllRecorded(old(rows), run, outcomes, items) ==> rows == old(rows)
      ensures calls >= old(calls)
      ensures AllWork(faults, old(calls)) ==> (errors == 0 <==> Consistent(old(rows), run, Wanted(outcomes, items)))
    {
      hide Recorded, ExecFor, Synthesized, Consistent, Missing, Progress, AllWork, Added, Fits, Extends, AllRecorded, Reported;
      errors := 0;
      var seen: set<string> := {};
      ghost var wanted := Wanted(outcomes, items);
      ghost var fine := AllWork(faults, calls) && Consistent(rows, run, wanted);
      NoProgress(rows, run, wanted, fine);
      var i := 0;
      while i < |outcomes|
        invariant 0 <= i <= |outcomes| && calls >= old(calls) && (fine ==> AllWork(faults, calls))
        invariant seen == set k | 0 <= k < i && outcomes[k].folder.Some? :: outcomes[k].folder.value
        invariant Progress(old(rows), rows, run, wanted, i, errors, fine)
      {
        if outcomes[i].folder.Some? {
          seen := seen + {outcomes[i].folder.value};
        }
        ghost var before, was := rows, calls;
        WantedAt(outcomes, items, i);
        var error := PersistOne(run, outcomes[i], faults);
        WorkLater(faults, was, calls);
        ProgressStep(old(rows), before, rows, run, wanted, i, errors, error, fine);
        if error {
          errors := errors + 1;
        }
        i := i + 1;
      }
      SeenReported(outcomes, seen);
      i := 0;
      NoneMissing(outcomes, items);
      while i < |items|
        invariant 0 <= i <= |items| && calls >= old(calls) && (fine ==> AllWork(faults, calls))
        invariant |outcomes| + |Missing(outcomes, items[..i])| <= |wanted|
        invariant Progress(old(rows), rows, run, wanted, |outcomes| + |Missing(outcomes, items[..i])|, errors, fine)
      {
        ghost var n := |outcomes| + |Missing(outcomes, items[..i])|;
        MissingAt(outcomes, items, i);
        if items[i].folder.Some? && items[i].folder.value !in seen {
          ghost var before, was := rows, calls;
          var error := PersistOne(run, Synthesized(items[i]), faults);
          WorkLater(faults, was, calls);
          ProgressStep(old(rows), before, rows, run, wanted, n, errors, error, fine);
          if error {
            errors := errors + 1;
          }
        }
        i := i + 1;
      }
      assert items[..i] == items;
      WholeProgress(old(rows), rows, run, outcomes, items, errors, fine);
    }

    /** Move the status to failed unless it is final; a refused update counts as done. */
    method MarkFailed(faults: nat -> Fault) returns (ok: bool)
      modifies this`status, this`calls
      ensures status == old(status) || status == Update(old(status), "failed")
      ensures ok ==> status == Update(old(status), "failed")
      ensures ok <==> exists n :: old(calls) <= n < old(calls) + MAX_FINALIZE_ATTEMPTS && faults(n) == Works
      ensures old(status).rank.Some? && old(status).rank.value >= TERMINAL_RANK ==> status == old(status)
    {
      ok := false;
      var n := 0;
      while n < MAX_FINALIZE_ATTEMPTS && !ok
        invariant !ok ==> status == old(status) && n <= MAX_FINALIZE_ATTEMPTS && calls == old(calls) + n
        invariant !ok ==> forall m :: old(calls) <= m < calls ==> faults(m) != Works
        invariant ok ==> exists m :: old(calls) <= m < old(calls) + MAX_FINALIZE_ATTEMPTS && faults(m) == Works
        invariant ok ==> status == Update(old(status), "failed")
        decreases MAX_FINALIZE_ATTEMPTS - n, !ok
      {
        ok := faults(calls) == Works;
        calls := calls + 1;
        if ok {
          status := Update(status, "failed");
        } else {
          n := n + 1;
        }
      }
    }

    /**
      The handler: all three parts run whatever the others did. Success means that every folder is recorded, no
      lock and no ownership row of the run is left, and the run has its terminal status. When all registry calls work
      and one of the lock releases has enough working calls, success comes exactly when what is wanted is consistent.
    */
    method Finalize(run: string, outcomes: seq<Item>, items: seq<Item>, locks: RunLockTable, size: nat,
                    faults: nat -> Fault, budget: nat -> nat)
      returns (finalized: bool)
      requires size > 0 && IndexOk(locks.tables) && FullyIndexed(locks.tables, run)
      modifies this, locks
      ensures Extends(old(rows), rows) && OnlyClosed(old(locks.tables), locks.tables, run)
      ensures IndexOk(locks.tables) && FullyIndexed(locks.tables, run)
      ensures AllWork(faults, old(calls)) && EnoughCalls(budget, |old(locks.tables).owners|) ==>
                (finalized <==> Consistent(old(rows), run, Wanted(outcomes, items)))
      ensures finalized ==>
                && AllRecorded(rows, run, outcomes, items)
                && (forall key :: key in locks.tables.owners ==> key.0 != run)
                && (forall place :: !HeldByRun(locks.tables, place, run))
                && status == Update(old(status), "failed")
    {
      hide AllRecorded, Extends, OnlyClosed, IndexOk, FullyIndexed, HeldByRun, Consistent, Wanted;
      var errors := PersistOutcomes(run, outcomes, items, faults);
      assert AllWork(faults, old(calls)) ==> faults(calls) == Works;
      var released := locks.FinalizeLocks(run, size, MAX_FINALIZE_ATTEMPTS, budget);
      var marked := MarkFailed(faults);
      finalized := errors == 0 && released && marked;
    }
  }
}
