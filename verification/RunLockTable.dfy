/** The lock table as its callers use it: each method makes its calls one after the other, and any call may fail. */
module RunLockTable {
  import opened Wrappers
  import opened RunLocks

  /** The index agrees with the locks: a run's lock that is indexed is indexed under its execution. */
  ghost predicate IndexOk(tables: Tables) {
    forall place :: place in tables.locks && tables.locks[place].run.Some? ==>
      var key := (tables.locks[place].run.value, place);
      key in tables.owners ==> tables.owners[key] == Ownership(tables.locks[place].exec, tables.locks[place].expiresAt)
  }

  /** Every lock of the run is in its index. */
  ghost predicate FullyIndexed(tables: Tables, run: string) {
    forall place :: place in tables.locks && tables.locks[place].run == Some(run) ==> (run, place) in tables.owners
  }

  /** The outcome of releasing one execution's lock, when no call fails. */
  function ReleasedTables(tables: Tables, claim: Claim): Tables {
    if !HeldByExec(tables, claim.place, claim.exec) then tables
    else
      var run := RunAt(tables, claim.place);
      Tables(tables.locks - {claim.place}, if run.Some? && run.value != "" then tables.owners - {(run.value, claim.place)} else tables.owners)
  }

  function RowKeys(tables: Tables, run: string): set<(string, string)> { set key | key in tables.owners && key.0 == run }

  /** The lock is deleted and its index row is still there. */
  predicate Unlocked(before: Tables, after: Tables, place: string, exec: string) {
    HeldByExec(before, place, exec) && after == before.(locks := before.locks - {place})
  }

  /** What a closer may do to the locks: remove some whose execution its index rows name, and nothing else. */
  ghost predicate OnlyClosed(before: Tables, after: Tables, run: string) {
    && (forall place :: place in after.locks ==> place in before.locks && after.locks[place] == before.locks[place])
    && (forall place :: place in before.locks && place !in after.locks ==> IsRow(before, run, Claim(place, before.locks[place].exec)))
    && (forall key :: key in after.owners ==> key in before.owners && after.owners[key] == before.owners[key])
    && (forall key :: key in before.owners && key !in after.owners ==>
          key.0 == run || (key.1 in before.locks && key.1 !in after.locks && before.locks[key.1].run == Some(key.0)))
  }

  class RunLockTable {
    var tables: Tables
    /** How many more calls to the store succeed. */
    var calls: nat

    constructor (tables: Tables, calls: nat)
      ensures this.tables == tables && this.calls == calls
    {
      this.tables, this.calls := tables, calls;
    }

    method Acquire(request: Request) returns (answer: Answer)
      modifies this`tables
      ensures answer == AnswerTo(old(tables), request)
      ensures tables == if answer == Taken then Granted(old(tables), request) else old(tables)
      ensures answer == Taken ==> HeldByExec(tables, request.place, request.exec)
      ensures answer == Taken && request.run.Some? ==>
                && tables.locks[request.place].expiresAt >= request.run.value.1 + LOCK_CLOSER_MARGIN_SECONDS
                && IsRow(tables, request.run.value.0, Claim(request.place, request.exec))
      ensures old(IndexOk(tables)) ==> IndexOk(tables)
    {
      if request.ttl <= 0 {
        return BadTtl;
      }
      if request.run.Some? && request.run.value.1 <= request.now {
        return DeadlinePassed;
      }
      if request.place in tables.locks && tables.locks[request.place].expiresAt >= request.now {
        return Answer.Held(tables.locks[request.place].exec);
      }
      tables := Granted(tables, request);
      answer := Taken;
    }

    /** Release one execution's lock; false when a call failed on the way. */
    method Release(place: string, exec: string) returns (ok: bool)
      modifies this
      ensures ok ==> tables == ReleasedTables(old(tables), Claim(place, exec))
      ensures ok ==> !HeldByExec(tables, place, exec)
      ensures !ok ==> calls == 0 && (tables == old(tables) || Unlocked(old(tables), tables, place, exec))
      ensures old(calls) >= 3 ==> ok && calls >= old(calls) - 3
      ensures calls <= old(calls)
    {
      if calls == 0 {
        return false;
      }
      calls := calls - 1;
      var seen := RunAt(tables, place);
      if calls == 0 {
        return false;
      }
      calls := calls - 1;
      if !HeldByExec(tables, place, exec) {
        return true;
      }
      tables := tables.(locks := tables.locks - {place});
      if seen.Some? && seen.value != "" {
        if calls == 0 {
          return false;
        }
        calls := calls - 1;
        tables := tables.(owners := tables.owners - {(seen.value, place)});
      }
      ok := true;
    }

    /** One page: at most `size` of the rows not read yet. */
    method ReadPage(run: string, size: nat, claims: seq<Claim>, left: set<(string, string)>, ghost all: set<(string, string)>)
      returns (more: seq<Claim>, rest: set<(string, string)>)
      requires size > 0 && ReadSoFar(tables, run, claims, left, all)
      ensures ReadSoFar(tables, run, more, rest, all)
      ensures rest <= left && |more| >= |claims| && (left != {} ==> |more| > |claims|)
    {
      hide ReadSoFar;
      more, rest := claims, left;
      var n := 0;
      while n < size && rest != {}
        invariant n <= size && rest <= left && ReadSoFar(tables, run, more, rest, all)
        invariant |more| == |claims| + n && (n == 0 ==> rest == left)
      {
        var key :| key in rest;
        ReadOneMore(tables, run, more, rest, all, key);
        more := more + [Claim(key.1, tables.owners[key].exec)];
        rest := rest - {key};
        n := n + 1;
      }
    }

    /** The run's ownership rows, read page by page; `size` rows at most on each page. */
    method OwnershipsForRun(run: string, size: nat) returns (claims: seq<Claim>, ok: bool)
      requires size > 0
      modifies this`calls
      ensures forall claim :: claim in claims ==> IsRow(tables, run, claim)
      ensures ok ==> forall key :: key in tables.owners && key.0 == run ==> Claim(key.1, tables.owners[key].exec) in claims
      ensures forall i, j :: 0 <= i < j < |claims| ==> claims[i].place != claims[j].place
      ensures ok ==> |claims| == |RowKeys(tables, run)|
      ensures calls <= old(calls) && |claims| <= |tables.owners|
      ensures old(calls) >= |tables.owners| + 1 ==> ok && calls >= old(calls) - (|tables.owners| + 1)
    {
      hide ReadSoFar, RowKeys, IsRow;
      claims := [];
      var left := RowKeys(tables, run);
      ghost var all := left;
      NothingRead(tables, run);
      while true
        invariant ReadSoFar(tables, run, claims, left, all)
        invariant calls <= old(calls) && calls + |claims| >= old(calls)
        decreases |left|
      {
        ReadMeans(tables, run, claims, left, all);
        if calls == 0 {
          return claims, false;
        }
        calls := calls - 1;
        var more, rest := ReadPage(run, size, claims, left, all);
        ReadMeans(tables, run, more, rest, all);
        if rest == {} {
          return more, true;
        }
        claims, left := more, rest;
      }
    }

    /**
      Close a run: release every claim of its index and drop its row. Whether or not a call fails, only locks of
      executions named by the run's rows are removed and the index stays right, so a later call can resume.
     */
    method ReleaseAll(run: string, size: nat) returns (released: nat, ok: bool)
      requires size > 0 && IndexOk(tables) && FullyIndexed(tables, run)
      modifies this
      ensures OnlyClosed(old(tables), tables, run)
      ensures IndexOk(tables) && FullyIndexed(tables, run)
      ensures ok ==> (forall key :: key in tables.owners ==> key.0 != run) && forall place :: !HeldByRun(tables, place, run)
      ensures ok ==> released == |RowKeys(old(tables), run)|
      ensures old(calls) >= 5 * |old(tables).owners| + 1 ==> ok
      ensures calls <= old(calls)
    {
      hide *;
      NothingClosed(tables, run);
      var claims, read := OwnershipsForRun(run, size);
      if !read {
        return 0, false;
      }
      StartPending(tables, run, claims);
      released, ok := ReleaseClaims(run, claims, tables);
    }

    /** Release the claims one after the other, and drop each one's row after its lock. */
    method ReleaseClaims(run: string, claims: seq<Claim>, ghost before: Tables) returns (released: nat, ok: bool)
      requires before == tables && IndexOk(tables) && FullyIndexed(tables, run) && Pending(tables, run, claims, 0)
      modifies this
      ensures OnlyClosed(before, tables, run) && IndexOk(tables) && FullyIndexed(tables, run)
      ensures ok ==> (forall key :: key in tables.owners ==> key.0 != run) && forall place :: !HeldByRun(tables, place, run)
      ensures ok ==> released == |claims|
      ensures old(calls) >= 4 * |claims| ==> ok
      ensures calls <= old(calls)
    {
      hide *;
      released := 0;
      NothingClosed(tables, run);
      ghost var start := calls;
      var i := 0;
      while i < |claims|
        invariant 0 <= i <= |claims| && calls <= start && calls + 4 * i >= start && released == i
        invariant OnlyClosed(before, tables, run) && IndexOk(tables) && FullyIndexed(tables, run)
        invariant Pending(tables, run, claims, i)
      {
        var claim := claims[i];
        ghost var was := tables;
        PendingRow(was, run, claims, i);
        var done := Release(claim.place, claim.exec);
        ReleaseKeepsIndex(before, was, tables, run, claim, done);
        if !done || calls == 0 {
          return released, false;
        }
        calls := calls - 1;
        ghost var mid := tables;
        tables := tables.(owners := tables.owners - {(run, claim.place)});
        DropKeepsIndex(before, mid, tables, run, claim);
        NextPending(was, mid, tables, run, claims, i);
        released := released + 1;
        i := i + 1;
      }
      EndPending(tables, run, claims);
      ok := true;
    }

    /** The finalizer's loop: try the closer up to `attempts` times; `budget(n)` calls succeed on try n. */
    method FinalizeLocks(run: string, size: nat, attempts: nat, budget: nat -> nat) returns (ok: bool)
      requires size > 0 && IndexOk(tables) && FullyIndexed(tables, run)
      modifies this
      ensures OnlyClosed(old(tables), tables, run)
      ensures IndexOk(tables) && FullyIndexed(tables, run)
      ensures ok ==> (forall key :: key in tables.owners ==> key.0 != run) && forall place :: !HeldByRun(tables, place, run)
      ensures (exists n :: 0 <= n < attempts && budget(n) >= 5 * |old(tables).owners| + 1) ==> ok
    {
      ok := false;
      ghost var before := tables;
      var n := 0;
      while n < attempts && !ok
        invariant 0 <= n <= attempts
        invariant OnlyClosed(before, tables, run) && IndexOk(tables) && FullyIndexed(tables, run)
        invariant ok ==> (forall key :: key in tables.owners ==> key.0 != run) && forall place :: !HeldByRun(tables, place, run)
        invariant !ok ==> forall m :: 0 <= m < n ==> budget(m) < 5 * |before.owners| + 1
        decreases attempts - n, !ok
      {
        calls := budget(n);
        ghost var was := tables;
        FewerOwners(before, was, run);
        var released;
        released, ok := ReleaseAll(run, size);
        ClosedTwice(before, was, tables, run);
        n := n + 1;
      }
    }
  }

  /** The claims are the rows of the run that are not left, each once. */
  ghost predicate ReadSoFar(tables: Tables, run: string, claims: seq<Claim>, left: set<(string, string)>, all: set<(string, string)>) {
    && all == RowKeys(tables, run) && left <= all && |claims| + |left| == |all|
    && (forall k :: 0 <= k < |claims| ==> (run, claims[k].place) in all - left && tables.owners[(run, claims[k].place)].exec == claims[k].exec)
    && (forall key :: key in all && key !in left ==> Claim(key.1, tables.owners[key].exec) in claims)
    && (forall i, j :: 0 <= i < j < |claims| ==> claims[i].place != claims[j].place)
  }

  lemma NothingRead(tables: Tables, run: string)
    ensures ReadSoFar(tables, run, [], RowKeys(tables, run), RowKeys(tables, run))
  {}

  lemma ReadOneMore(tables: Tables, run: string, claims: seq<Claim>, left: set<(string, string)>, all: set<(string, string)>, key: (string, string))
    requires ReadSoFar(tables, run, claims, left, all) && key in left
    ensures key in tables.owners
    ensures ReadSoFar(tables, run, claims + [Claim(key.1, tables.owners[key].exec)], left - {key}, all)
  {
    assert key == (run, key.1);
  }

  lemma ReadMeans(tables: Tables, run: string, claims: seq<Claim>, left: set<(string, string)>, all: set<(string, string)>)
    requires ReadSoFar(tables, run, claims, left, all)
    ensures forall claim :: claim in claims ==> IsRow(tables, run, claim)
    ensures left == {} ==> forall key :: key in tables.owners && key.0 == run ==> Claim(key.1, tables.owners[key].exec) in claims
    ensures forall i, j :: 0 <= i < j < |claims| ==> claims[i].place != claims[j].place
    ensures left == {} ==> |claims| == |RowKeys(tables, run)|
    ensures |claims| <= |tables.owners| && |claims| + |left| == |all|
  {
    SubsetSize(all, tables.owners.Keys);
    forall claim | claim in claims ensures IsRow(tables, run, claim) {
      var k :| 0 <= k < |claims| && claims[k] == claim;
      assert (run, claims[k].place) in all;
    }
  }

  /** The claims from i on still stand in the index, and no other row of the run does. */
  ghost predicate Pending(tables: Tables, run: string, claims: seq<Claim>, i: nat) {
    && (forall k, l :: 0 <= k < l < |claims| ==> claims[k].place != claims[l].place)
    && (forall k :: i <= k < |claims| ==> (run, claims[k].place) in tables.owners && tables.owners[(run, claims[k].place)].exec == claims[k].exec)
    && (forall key :: key in tables.owners && key.0 == run ==> exists k :: i <= k < |claims| && claims[k].place == key.1)
  }

  lemma NothingClosed(tables: Tables, run: string)
    ensures OnlyClosed(tables, tables, run)
  {}

  lemma StartPending(tables: Tables, run: string, claims: seq<Claim>)
    requires forall claim :: claim in claims ==> IsRow(tables, run, claim)
    requires forall key :: key in tables.owners && key.0 == run ==> Claim(key.1, tables.owners[key].exec) in claims
    requires forall i, j :: 0 <= i < j < |claims| ==> claims[i].place != claims[j].place
    ensures Pending(tables, run, claims, 0)
  {
    forall k | 0 <= k < |claims|
      ensures (run, claims[k].place) in tables.owners && tables.owners[(run, claims[k].place)].exec == claims[k].exec
    {
      assert claims[k] in claims;
      assert IsRow(tables, run, claims[k]);
    }
    forall key | key in tables.owners && key.0 == run ensures exists k :: 0 <= k < |claims| && claims[k].place == key.1 {
      var k :| 0 <= k < |claims| && claims[k] == Claim(key.1, tables.owners[key].exec);
      assert claims[k].place == key.1;
    }
  }

  lemma PendingRow(tables: Tables, run: string, claims: seq<Claim>, i: nat)
    requires Pending(tables, run, claims, i) && i < |claims|
    ensures IsRow(tables, run, claims[i])
  {}

  lemma NextPending(was: Tables, mid: Tables, after: Tables, run: string, claims: seq<Claim>, i: nat)
    requires i < |claims| && Pending(was, run, claims, i)
    requires forall other, p: string :: p != claims[i].place && (other, p) in was.owners ==>
               (other, p) in mid.owners && mid.owners[(other, p)] == was.owners[(other, p)]
    requires forall key :: key in mid.owners ==> key in was.owners
    requires after == mid.(owners := mid.owners - {(run, claims[i].place)})
    ensures Pending(after, run, claims, i + 1)
  {
    forall k | i + 1 <= k < |claims|
      ensures (run, claims[k].place) in after.owners && after.owners[(run, claims[k].place)].exec == claims[k].exec
    {
      assert claims[i].place != claims[k].place;
    }
    forall key | key in after.owners && key.0 == run ensures exists k :: i + 1 <= k < |claims| && claims[k].place == key.1 {
      var k :| i <= k < |claims| && claims[k].place == key.1;
      assert k != i;
    }
  }

  lemma EndPending(tables: Tables, run: string, claims: seq<Claim>)
    requires Pending(tables, run, claims, |claims|) && FullyIndexed(tables, run)
    ensures forall key :: key in tables.owners ==> key.0 != run
    ensures forall place :: !HeldByRun(tables, place, run)
  {}

  lemma ReleaseKeepsIndex(before: Tables, was: Tables, after: Tables, run: string, claim: Claim, done: bool)
    requires OnlyClosed(before, was, run) && IndexOk(was) && FullyIndexed(was, run) && IsRow(was, run, claim)
    requires if done then after == ReleasedTables(was, claim) else after == was || Unlocked(was, after, claim.place, claim.exec)
    ensures OnlyClosed(before, after, run) && IndexOk(after) && FullyIndexed(after, run)
    ensures done ==> !HeldByRun(after, claim.place, run)
    ensures forall other, p: string :: p != claim.place && (other, p) in was.owners ==>
              (other, p) in after.owners && after.owners[(other, p)] == was.owners[(other, p)]
    ensures forall key :: key in after.owners ==> key in was.owners
  {
    assert (run, claim.place) in was.owners;
    assert IsRow(before, run, claim);
  }

  lemma DropKeepsIndex(before: Tables, was: Tables, after: Tables, run: string, claim: Claim)
    requires OnlyClosed(before, was, run) && IndexOk(was) && FullyIndexed(was, run) && !HeldByRun(was, claim.place, run)
    requires after == was.(owners := was.owners - {(run, claim.place)})
    ensures OnlyClosed(before, after, run) && IndexOk(after) && FullyIndexed(after, run)
  {}

  lemma FewerOwners(before: Tables, after: Tables, run: string)
    requires OnlyClosed(before, after, run)
    ensures |after.owners| <= |before.owners|
  {
    SubsetSize(after.owners.Keys, before.owners.Keys);
  }

  lemma ClosedTwice(a: Tables, b: Tables, c: Tables, run: string)
    requires OnlyClosed(a, b, run) && OnlyClosed(b, c, run)
    ensures OnlyClosed(a, c, run)
  {
    forall place | place in a.locks && place !in c.locks ensures IsRow(a, run, Claim(place, a.locks[place].exec)) {
      if place in b.locks {
        assert IsRow(b, run, Claim(place, b.locks[place].exec));
      }
    }
  }

  lemma SubsetSize<T>(a: set<T>, b: set<T>)
    requires a <= b
    ensures |a| <= |b|
  {
    assert b == a + (b - a);
  }
}
