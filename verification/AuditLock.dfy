/**
  The per-pull-request audit lock: one row that carries a holder, an expiry and a version that only grows.
  Every call is one conditional update of the row, so a run of the system is a sequence of calls by any
  holders with any clock readings.
 */
module AuditLock {
  import opened Wrappers

  const AUDIT_LOCK_TTL_SECONDS: int := 60

  datatype Row = Row(holder: Option<string>, expiresAt: int, version: int)

  /** What is stored under one key: nothing until the first acquire. */
  type Item = Option<Row>

  datatype Call =
    | Acquire(holder: string, now: int, ttl: int)
    | Fence(holder: string, version: int, now: int, ttl: int)
    | Release(holder: string)

  datatype Reply = BadTtl | Held | Granted(version: int) | Done

  /** ADD on a missing attribute starts from zero. */
  function VersionOf(item: Item): int {
    if item.Some? then item.value.version else 0
  }

  predicate HeldBy(item: Item, holder: string) {
    item.Some? && item.value.holder == Some(holder)
  }

  /** The row carries this holder at this version: the tenure that a grant opened is still unbroken. */
  predicate Tenure(item: Item, holder: string, version: int) {
    HeldBy(item, holder) && item.value.version == version
  }

  predicate AcquireAllowed(item: Item, now: int) {
    item.None? || item.value.holder.None? || item.value.expiresAt < now
  }

  predicate FenceAllowed(item: Item, holder: string, version: int, now: int) {
    Tenure(item, holder, version) && item.value.expiresAt >= now
  }

  function ReplyTo(item: Item, call: Call): Reply {
    match call
    case Acquire(_, now, ttl) =>
      if ttl <= 0 then BadTtl else if AcquireAllowed(item, now) then Granted(VersionOf(item) + 1) else Held
    case Fence(holder, version, now, ttl) =>
      if ttl <= 0 then BadTtl else if FenceAllowed(item, holder, version, now) then Granted(version + 1) else Held
    case Release(_) => Done
  }

  function After(item: Item, call: Call): Item {
    match call
    case Acquire(holder, now, ttl) =>
      if ttl > 0 && AcquireAllowed(item, now) then Some(Row(Some(holder), now + ttl, VersionOf(item) + 1)) else item
    case Fence(holder, version, now, ttl) =>
      if ttl > 0 && FenceAllowed(item, holder, version, now)
      then Some(item.value.(expiresAt := now + ttl, version := version + 1))
      else item
    case Release(holder) =>
      if HeldBy(item, holder) then Some(item.value.(holder := None, expiresAt := 0)) else item
  }

  // ---------------------------------------------------------------------------------------------
  // Whole runs
  // ---------------------------------------------------------------------------------------------

  function Run(item: Item, calls: seq<Call>): Item {
    if calls == [] then item
    else After(Run(item, calls[..|calls| - 1]), calls[|calls| - 1])
  }

  /** The row as call k finds it. */
  function Before(item: Item, calls: seq<Call>, k: nat): Item
    requires k <= |calls|
  {
    Run(item, calls[..k])
  }

  predicate GrantedAt(item: Item, calls: seq<Call>, k: nat)
    requires k < |calls|
  {
    ReplyTo(Before(item, calls, k), calls[k]).Granted?
  }

  function Grants(item: Item, calls: seq<Call>): (n: nat)
    ensures n <= |calls|
  {
    if calls == [] then 0
    else
      var last := |calls| - 1;
      Grants(item, calls[..last]) + if ReplyTo(Run(item, calls[..last]), calls[last]).Granted? then 1 else 0
  }

  lemma BeforeStep(item: Item, calls: seq<Call>, k: nat)
    requires k < |calls|
    ensures Before(item, calls, k + 1) == After(Before(item, calls, k), calls[k])
    ensures Grants(item, calls[..k + 1]) == Grants(item, calls[..k]) + if GrantedAt(item, calls, k) then 1 else 0
  {
    assert calls[..k + 1][..k] == calls[..k];
  }

  /** The version counts grants: it never falls, and every grant returns a number never returned before. */
  lemma {:induction false} VersionCountsGrants(item: Item, calls: seq<Call>)
    ensures VersionOf(Run(item, calls)) == VersionOf(item) + Grants(item, calls)
  {
    if calls != [] {
      VersionCountsGrants(item, calls[..|calls| - 1]);
    }
  }

  lemma {:induction false} VersionMonotone(item: Item, calls: seq<Call>, i: nat, j: nat)
    requires i <= j <= |calls|
    ensures VersionOf(Before(item, calls, i)) <= VersionOf(Before(item, calls, j))
    ensures (exists k: nat :: i <= k < j && GrantedAt(item, calls, k))
        ==> VersionOf(Before(item, calls, i)) < VersionOf(Before(item, calls, j))
    decreases j
  {
    if i < j {
      VersionMonotone(item, calls, i, j - 1);
      BeforeStep(item, calls, j - 1);
    }
  }

  lemma {:induction false} GrantedVersionsDistinct(item: Item, calls: seq<Call>, i: nat, j: nat)
    requires i < j < |calls| && GrantedAt(item, calls, i) && GrantedAt(item, calls, j)
    ensures ReplyTo(Before(item, calls, i), calls[i]).version < ReplyTo(Before(item, calls, j), calls[j]).version
  {
    BeforeStep(item, calls, i);
    VersionMonotone(item, calls, i + 1, j);
  }

  /** Without a grant in between, the row can only lose its holder: a tenure seen later was there all along. */
  lemma {:induction false} TenureReachesBack(item: Item, calls: seq<Call>, i: nat, j: nat, k: nat, holder: string, version: int)
    requires i <= k <= j <= |calls|
    requires Tenure(Before(item, calls, j), holder, version)
    requires VersionOf(Before(item, calls, i)) == version
    ensures Tenure(Before(item, calls, k), holder, version)
    decreases j - k
  {
    if k < j {
      TenureReachesBack(item, calls, i, j, k + 1, holder, version);
      BeforeStep(item, calls, k);
      VersionMonotone(item, calls, i, k);
      VersionMonotone(item, calls, k, k + 1);
    }
  }

  /**
    The fencing guarantee. Call i gave `holder` the version that call j later fences with. If the fence is
    granted, then at every call in between the row still carried that holder and that version, no call in
    between was granted to anybody, and the holder had not released.
   */
  lemma FenceExcludesOthers(item: Item, calls: seq<Call>, i: nat, j: nat, k: nat)
    requires i < j < |calls| && i < k <= j
    requires GrantedAt(item, calls, i)
    requires calls[j].Fence? && calls[j].version == ReplyTo(Before(item, calls, i), calls[i]).version
    requires GrantedAt(item, calls, j)
    ensures Tenure(Before(item, calls, k), calls[j].holder, calls[j].version)
    ensures calls[i].holder == calls[j].holder
    ensures k < j ==> !GrantedAt(item, calls, k) && calls[k] != Release(calls[j].holder)
  {
    var holder, version := calls[j].holder, calls[j].version;
    BeforeStep(item, calls, i);
    TenureReachesBack(item, calls, i + 1, j, k, holder, version);
    TenureReachesBack(item, calls, i + 1, j, i + 1, holder, version);
    if k < j {
      TenureReachesBack(item, calls, i + 1, j, k + 1, holder, version);
      BeforeStep(item, calls, k);
    }
  }

  /** A section opened by grant i and confirmed by fence j cannot overlap one opened by i' and confirmed by j'. */
  lemma FencedSectionsDisjoint(item: Item, calls: seq<Call>, i: nat, j: nat, i': nat, j': nat)
    requires i < j < |calls| && i' < j' < |calls| && i < i'
    requires GrantedAt(item, calls, i) && GrantedAt(item, calls, j)
    requires GrantedAt(item, calls, i') && GrantedAt(item, calls, j')
    requires calls[j].Fence? && calls[j].version == ReplyTo(Before(item, calls, i), calls[i]).version
    requires calls[j'].Fence? && calls[j'].version == ReplyTo(Before(item, calls, i'), calls[i']).version
    ensures j <= i'
  {
    if i' < j {
      FenceExcludesOthers(item, calls, i, j, i');
    }
  }

  // ---------------------------------------------------------------------------------------------
  // The table
  // ---------------------------------------------------------------------------------------------

  type Key = (string, int)

  function Lookup(rows: map<Key, Row>, key: Key): Item {
    if key in rows then Some(rows[key]) else None
  }

  function Store(rows: map<Key, Row>, key: Key, item: Item): map<Key, Row> {
    if item.Some? then rows[key := item.value] else rows
  }

  /** The row as attempt n finds it when all earlier attempts were refused. */
  function Contended(item: Item, rivals: nat -> seq<Call>, n: nat): Item {
    Run(if n == 0 then item else Contended(item, rivals, n - 1), rivals(n))
  }

  /** The first n attempts were each refused by the row they found. */
  predicate RefusedBefore(item: Item, rivals: nat -> seq<Call>, clock: nat -> int, n: nat) {
    n == 0 || (!AcquireAllowed(Contended(item, rivals, n - 1), clock(n - 1)) && RefusedBefore(item, rivals, clock, n - 1))
  }

  lemma {:induction false} RowsStay(item: Item, calls: seq<Call>)
    ensures item.Some? ==> Run(item, calls).Some?
  {
    if calls != [] {
      RowsStay(item, calls[..|calls| - 1]);
    }
  }

  /** The locks table, reached by several callers; each method is one conditional update. */
  class LocksTable {
    var rows: map<Key, Row>

    constructor ()
      ensures rows == map[]
    {
      rows := map[];
    }

    method Acquire(repo: string, pr: int, holder: string, now: int, ttl: int) returns (reply: Reply)
      modifies this
      ensures reply == ReplyTo(Lookup(old(rows), (repo, pr)), Call.Acquire(holder, now, ttl))
      ensures rows == Store(old(rows), (repo, pr), After(Lookup(old(rows), (repo, pr)), Call.Acquire(holder, now, ttl)))
      ensures reply.Granted? ==> Tenure(Lookup(rows, (repo, pr)), holder, reply.version)
      ensures !reply.Granted? ==> rows == old(rows)
    {
      if ttl <= 0 {
        return BadTtl;
      }
      var key := (repo, pr);
      if key !in rows {
        rows := rows[key := Row(Some(holder), now + ttl, 1)];
      } else if rows[key].holder.None? || rows[key].expiresAt < now {
        rows := rows[key := Row(Some(holder), now + ttl, rows[key].version + 1)];
      } else {
        assert rows == rows[key := rows[key]];
        return Held;
      }
      reply := Granted(rows[key].version);
    }

    method Fence(repo: string, pr: int, holder: string, version: int, now: int, ttl: int) returns (reply: Reply)
      modifies this
      ensures reply == ReplyTo(Lookup(old(rows), (repo, pr)), Call.Fence(holder, version, now, ttl))
      ensures rows == Store(old(rows), (repo, pr), After(Lookup(old(rows), (repo, pr)), Call.Fence(holder, version, now, ttl)))
      ensures reply.Granted? ==> Tenure(Lookup(rows, (repo, pr)), holder, reply.version) && reply.version == version + 1
      ensures !reply.Granted? ==> rows == old(rows)
    {
      var key := (repo, pr);
      if key in rows {
        assert rows == rows[key := rows[key]];
      }
      if ttl <= 0 {
        return BadTtl;
      }
      if key in rows && rows[key].holder == Some(holder) && rows[key].version == version && rows[key].expiresAt >= now {
        rows := rows[key := rows[key].(expiresAt := now + ttl, version := version + 1)];
        return Granted(version + 1);
      }
      reply := Held;
    }

    method Release(repo: string, pr: int, holder: string)
      modifies this
      ensures rows == Store(old(rows), (repo, pr), After(Lookup(old(rows), (repo, pr)), Call.Release(holder)))
      ensures !HeldBy(Lookup(rows, (repo, pr)), holder)
      ensures VersionOf(Lookup(rows, (repo, pr))) == VersionOf(Lookup(old(rows), (repo, pr)))
    {
      var key := (repo, pr);
      if key in rows {
        assert rows == rows[key := rows[key]];
        if rows[key].holder == Some(holder) {
          rows := rows[key := rows[key].(holder := None, expiresAt := 0)];
        }
      }
    }

    /** Other callers use the row: any calls they make, in their order. */
    method Interfere(repo: string, pr: int, calls: seq<Call>)
      modifies this
      ensures Lookup(rows, (repo, pr)) == Run(Lookup(old(rows), (repo, pr)), calls)
      ensures rows == Store(old(rows), (repo, pr), Run(Lookup(old(rows), (repo, pr)), calls))
    {
      var key := (repo, pr);
      var item := Lookup(rows, key);
      RowsStay(item, calls);
      rows := Store(rows, key, Run(item, calls));
    }

    /**
      Retry an acquire with a sleep between attempts. `clock(i)` is the clock reading of attempt i and
      `rivals(i)` is what other callers do to the row before it; the last attempt has no sleep after it.
      A refused attempt changes nothing, and only the last one may be refused for good.
     */
    method AcquireWithBackoff(repo: string, pr: int, holder: string, clock: nat -> int, rivals: nat -> seq<Call>,
                              sleeps: seq<real>)
      returns (reply: Reply, last: nat)
      modifies this
      ensures last <= |sleeps|
      ensures RefusedBefore(Lookup(old(rows), (repo, pr)), rivals, clock, last)
      ensures var found := Contended(Lookup(old(rows), (repo, pr)), rivals, last);
              var call := Call.Acquire(holder, clock(last), AUDIT_LOCK_TTL_SECONDS);
              reply == ReplyTo(found, call) && Lookup(rows, (repo, pr)) == After(found, call)
      ensures reply.Granted? || last == |sleeps|
    {
      ghost var start := Lookup(rows, (repo, pr));
      last := 0;
      while true
        invariant last <= |sleeps|
        invariant RefusedBefore(start, rivals, clock, last)
        invariant Lookup(rows, (repo, pr)) == if last == 0 then start else Contended(start, rivals, last - 1)
        decreases |sleeps| - last
      {
        Interfere(repo, pr, rivals(last));
        ghost var found := Lookup(rows, (repo, pr));
        assert found == Contended(start, rivals, last);
        reply := Acquire(repo, pr, holder, clock(last), AUDIT_LOCK_TTL_SECONDS);
        if reply.Granted? || last == |sleeps| {
          return;
        }
        assert !AcquireAllowed(found, clock(last));
        last := last + 1;
      }
    }
  }
}
