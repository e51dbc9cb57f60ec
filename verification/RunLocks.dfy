/**
  Folder locks and the index of locks that each run holds. Acquiring writes both rows at once; releasing takes
  several calls. A run of the system interleaves acquires, releases and run closers call by call; any of them may
  stop after any call, and the store removes rows some time after they expire.
 */
module RunLocks {
  import opened Wrappers

  const LOCK_CLOSER_MARGIN_SECONDS: int := 3600

  datatype FolderLock = FolderLock(exec: string, run: Option<string>, deadline: int, expiresAt: int)
  datatype Ownership = Ownership(exec: string, expiresAt: int)

  /** The lock rows by place, that is repository and folder, and the ownership rows by run and place. */
  datatype Tables = Tables(locks: map<string, FolderLock>, owners: map<(string, string), Ownership>)

  datatype Request = Request(place: string, exec: string, now: int, ttl: int, run: Option<(string, int)>)

  datatype Answer = Taken | Held(exec: string) | BadTtl | DeadlinePassed

  function Max(a: int, b: int): int { if a < b then b else a }

  predicate Free(tables: Tables, place: string, now: int) {
    place !in tables.locks || tables.locks[place].expiresAt < now
  }

  function AnswerTo(tables: Tables, request: Request): Answer {
    if request.ttl <= 0 then BadTtl
    else if request.run.Some? && request.run.value.1 <= request.now then DeadlinePassed
    else if !Free(tables, request.place, request.now) then Held(tables.locks[request.place].exec)
    else Taken
  }

  function ExpiryFor(request: Request): int {
    if request.run.None? then request.now + request.ttl
    else Max(request.now + request.ttl, request.run.value.1) + LOCK_CLOSER_MARGIN_SECONDS
  }

  function Granted(tables: Tables, request: Request): Tables {
    var until := ExpiryFor(request);
    match request.run
    case None => tables.(locks := tables.locks[request.place := FolderLock(request.exec, None, 0, until)])
    case Some((run, deadline)) =>
      Tables(tables.locks[request.place := FolderLock(request.exec, Some(run), deadline, until)],
             tables.owners[(run, request.place) := Ownership(request.exec, until)])
  }

  function RunAt(tables: Tables, place: string): Option<string> {
    if place in tables.locks then tables.locks[place].run else None
  }

  predicate HeldByRun(tables: Tables, place: string, run: string) { RunAt(tables, place) == Some(run) }

  predicate HeldByExec(tables: Tables, place: string, exec: string) {
    place in tables.locks && tables.locks[place].exec == exec
  }

  // ---------------------------------------------------------------------------------------------
  // Releasing, call by call
  // ---------------------------------------------------------------------------------------------

  datatype Claim = Claim(place: string, exec: string)

  /** Where one release stands: read the lock, delete it if its holder matches, drop the ownership read at first. */
  datatype Releasing = ToRead | ToDelete(seen: Option<string>) | ToDrop(run: string) | Released

  function ReleaseStep(tables: Tables, claim: Claim, step: Releasing): (Tables, Releasing) {
    match step
    case ToRead => (tables, ToDelete(RunAt(tables, claim.place)))
    case ToDelete(seen) =>
      if !HeldByExec(tables, claim.place, claim.exec) then (tables, Released)
      else (tables.(locks := tables.locks - {claim.place}), if seen.Some? && seen.value != "" then ToDrop(seen.value) else Released)
    case ToDrop(run) => (tables.(owners := tables.owners - {(run, claim.place)}), Released)
    case Released => (tables, Released)
  }

  /**
    A closer for one execution, or for a whole run. The latter reads the run's ownership rows page by page
    (`covered` are the places read so far), and then releases each claim and drops its row.
   */
  datatype Closer =
    | One(claim: Claim, step: Releasing)
    | All(run: string, paging: bool, covered: set<string>, queue: seq<Claim>, step: Releasing)

  function ClaimsIn(tables: Tables, run: string, places: seq<string>): seq<Claim> {
    if places == [] then []
    else
      (if (run, places[0]) in tables.owners then [Claim(places[0], tables.owners[(run, places[0])].exec)] else [])
      + ClaimsIn(tables, run, places[1..])
  }

  function Members(places: seq<string>): set<string> { set place | place in places }

  /** Every ownership row of the run lies in the places read. */
  ghost predicate Covers(tables: Tables, run: string, covered: set<string>) {
    forall key :: key in tables.owners && key.0 == run ==> key.1 in covered
  }

  function CloserStep(tables: Tables, closer: Closer): (Tables, Closer) {
    match closer
    case One(claim, step) =>
      var (after, next) := ReleaseStep(tables, claim, step);
      (after, One(claim, next))
    case All(run, paging, covered, queue, step) =>
      if paging || queue == [] then (tables, closer)
      else if step.Released? then
        (tables.(owners := tables.owners - {(run, queue[0].place)}), All(run, false, covered, queue[1..], ToRead))
      else
        var (after, next) := ReleaseStep(tables, queue[0], step);
        (after, All(run, false, covered, queue, next))
  }

  // ---------------------------------------------------------------------------------------------
  // Whole runs
  // ---------------------------------------------------------------------------------------------

  /** `issued` records what each execution id was used for; `latest` is the highest clock reading so far. */
  datatype System = System(tables: Tables, closers: map<nat, Closer>, issued: map<string, (Option<string>, string)>, latest: int)

  datatype Event =
    | Acquire(request: Request)
    | StartOne(id: nat, claim: Claim)
    | StartAll(id: nat, run: string)
    | Page(id: nat, places: seq<string>, last: bool)
    | Step(id: nat)
    | Crash(id: nat)
    | ExpireLock(place: string, clock: int)
    | ExpireOwner(run: string, place: string, clock: int)

  /** A release of this run, or of its lock on this place, is in flight. */
  ghost predicate Closing(sys: System, run: string, place: string) {
    exists id :: id in sys.closers && ClosesFor(sys, sys.closers[id], run, place)
  }

  ghost predicate ClosesFor(sys: System, closer: Closer, run: string, place: string) {
    match closer
    case One(claim, _) => claim.place == place && claim.exec in sys.issued && sys.issued[claim.exec].0 == Some(run)
    case All(other, _, _, _, _) => other == run
  }

  /** Execution ids are used once, and a run does not take a place while one of its own releases is in flight. */
  ghost predicate MayAcquire(sys: System, request: Request) {
    request.exec !in sys.issued && (request.run.Some? ==> !Closing(sys, request.run.value.0, request.place))
  }

  ghost function Next(sys: System, event: Event): System {
    match event
    case Acquire(request) =>
      if !MayAcquire(sys, request) then sys
      else if AnswerTo(sys.tables, request) != Taken then sys.(latest := Max(sys.latest, request.now))
      else sys.(tables := Granted(sys.tables, request), latest := Max(sys.latest, request.now),
                issued := sys.issued[request.exec := (if request.run.Some? then Some(request.run.value.0) else None, request.place)])
    case StartOne(id, claim) =>
      if id in sys.closers || claim.exec !in sys.issued || sys.issued[claim.exec].1 != claim.place then sys
      else sys.(closers := sys.closers[id := One(claim, ToRead)])
    case StartAll(id, run) =>
      if id in sys.closers then sys else sys.(closers := sys.closers[id := All(run, true, {}, [], ToRead)])
    case Page(id, places, last) =>
      if id !in sys.closers || !sys.closers[id].All? || !sys.closers[id].paging then sys
      else
        var closer := sys.closers[id];
        var covered := closer.covered + Members(places);
        if last && !Covers(sys.tables, closer.run, covered) then sys
        else
          var queue := closer.queue + ClaimsIn(sys.tables, closer.run, places);
          sys.(closers := sys.closers[id := closer.(paging := !last, covered := covered, queue := queue)])
    case Step(id) =>
      if id !in sys.closers then sys
      else
        var (tables, closer) := CloserStep(sys.tables, sys.closers[id]);
        sys.(tables := tables, closers := sys.closers[id := closer])
    case Crash(id) => sys.(closers := sys.closers - {id})
    case ExpireLock(place, clock) =>
      if place !in sys.tables.locks || sys.tables.locks[place].expiresAt >= clock then sys
      else sys.(tables := sys.tables.(locks := sys.tables.locks - {place}), latest := Max(sys.latest, clock))
    case ExpireOwner(run, place, clock) =>
      if (run, place) !in sys.tables.owners || sys.tables.owners[(run, place)].expiresAt >= clock then sys
      else sys.(tables := sys.tables.(owners := sys.tables.owners - {(run, place)}), latest := Max(sys.latest, clock))
  }

  ghost function Run(sys: System, events: seq<Event>): System {
    if events == [] then sys else Next(Run(sys, events[..|events| - 1]), events[|events| - 1])
  }

  // ---------------------------------------------------------------------------------------------
  // The index
  // ---------------------------------------------------------------------------------------------

  /** A lock held by a run is in that run's index with the same execution and expiry, unless it had expired. */
  predicate Indexed(tables: Tables, place: string, latest: int)
    requires place in tables.locks
  {
    var held := tables.locks[place];
    held.run.Some? ==>
      var key := (held.run.value, place);
      if key in tables.owners then tables.owners[key] == Ownership(held.exec, held.expiresAt) else held.expiresAt < latest
  }

  predicate IssuedFor(issued: map<string, (Option<string>, string)>, exec: string, run: Option<string>, place: string) {
    exec in issued && issued[exec] == (run, place)
  }

  ghost predicate TablesOk(sys: System) {
    && (forall place :: place in sys.tables.locks ==>
          && Indexed(sys.tables, place, sys.latest)
          && IssuedFor(sys.issued, sys.tables.locks[place].exec, sys.tables.locks[place].run, place)
          && (sys.tables.locks[place].run.Some? ==>
                sys.tables.locks[place].expiresAt >= sys.tables.locks[place].deadline + LOCK_CLOSER_MARGIN_SECONDS))
    && (forall key :: key in sys.tables.owners ==> IssuedFor(sys.issued, sys.tables.owners[key].exec, Some(key.0), key.1))
  }

  /** How far the release of one claim is, and what that says about the lock. */
  ghost predicate ReleaseOk(sys: System, claim: Claim, step: Releasing) {
    && claim.exec in sys.issued && sys.issued[claim.exec].1 == claim.place
    && match step
       case ToRead => true
       case ToDelete(seen) => HeldByExec(sys.tables, claim.place, claim.exec) ==> seen == sys.issued[claim.exec].0
       case ToDrop(run) => sys.issued[claim.exec].0 == Some(run) && !HeldByRun(sys.tables, claim.place, run)
       case Released => !HeldByExec(sys.tables, claim.place, claim.exec)
  }

  /** The claim is of this run, and if the run holds the place at all, it is by this execution. */
  ghost predicate ClaimOk(sys: System, run: string, claim: Claim) {
    && IssuedFor(sys.issued, claim.exec, Some(run), claim.place)
    && (HeldByRun(sys.tables, claim.place, run) ==> HeldByExec(sys.tables, claim.place, claim.exec))
  }

  ghost predicate Queued(queue: seq<Claim>, place: string) { exists k :: 0 <= k < |queue| && queue[k].place == place }

  ghost predicate CloserOk(sys: System, closer: Closer) {
    match closer
    case One(claim, step) => ReleaseOk(sys, claim, step)
    case All(run, paging, covered, queue, step) =>
      && (forall k :: 0 <= k < |queue| ==> ClaimOk(sys, run, queue[k]))
      && (paging || queue == [] ==> step == ToRead)
      && (queue != [] ==> ReleaseOk(sys, queue[0], step))
      && (forall key :: key in sys.tables.owners && key.0 == run && key.1 in covered ==> Queued(queue, key.1))
      && (!paging ==> Covers(sys.tables, run, covered))
  }

  ghost predicate Inv(sys: System) {
    TablesOk(sys) && forall id :: id in sys.closers ==> CloserOk(sys, sys.closers[id])
  }

  /** Rows only disappeared. */
  ghost predicate Shrunk(before: Tables, after: Tables) {
    && (forall place :: place in after.locks ==> place in before.locks && after.locks[place] == before.locks[place])
    && (forall key :: key in after.owners ==> key in before.owners && after.owners[key] == before.owners[key])
  }

  lemma CloserShrinks(sys: System, after: System, closer: Closer)
    requires CloserOk(sys, closer) && Shrunk(sys.tables, after.tables) && after.issued == sys.issued
    ensures CloserOk(after, closer)
  {}

  /** Rows of the index that go away belong to no lock, or to an expired one. */
  lemma TablesShrink(sys: System, after: System)
    requires TablesOk(sys) && Shrunk(sys.tables, after.tables) && after.issued == sys.issued && after.latest >= sys.latest
    requires forall place :: place in after.tables.locks && after.tables.locks[place].run.Some? ==>
               var key := (after.tables.locks[place].run.value, place);
               key in sys.tables.owners && key !in after.tables.owners ==> after.tables.locks[place].expiresAt < after.latest
    ensures TablesOk(after)
  {}

  lemma AcquireKeeps(sys: System, request: Request)
    requires Inv(sys)
    ensures Inv(Next(sys, Acquire(request)))
  {
    hide CloserOk, ClosesFor, IssuedFor;
    var after := Next(sys, Acquire(request));
    if MayAcquire(sys, request) && AnswerTo(sys.tables, request) == Taken {
      AcquireKeepsTables(sys, request);
      forall id | id in after.closers ensures CloserOk(after, after.closers[id]) {
        AcquireKeepsCloser(sys, request, id);
      }
    } else {
      forall id | id in after.closers ensures CloserOk(after, after.closers[id]) {
        CloserShrinks(sys, after, sys.closers[id]);
      }
    }
  }

  lemma AcquireKeepsTables(sys: System, request: Request)
    requires TablesOk(sys) && MayAcquire(sys, request) && AnswerTo(sys.tables, request) == Taken
    ensures TablesOk(Next(sys, Acquire(request)))
  {
    hide Closing;
  }

  lemma AcquireKeepsCloser(sys: System, request: Request, id: nat)
    requires Inv(sys) && id in sys.closers
    requires MayAcquire(sys, request) && AnswerTo(sys.tables, request) == Taken
    ensures CloserOk(Next(sys, Acquire(request)), sys.closers[id])
  {
    var after := Next(sys, Acquire(request));
    var closer := sys.closers[id];
    assert CloserOk(sys, closer);
    if request.run.Some? {
      assert !ClosesFor(sys, closer, request.run.value.0, request.place);
    }
    match closer
    case One(claim, step) => ReleaseAfterAcquire(sys, request, claim, step);
    case All(run, paging, covered, queue, step) =>
      if queue != [] {
        ReleaseAfterAcquire(sys, request, queue[0], step);
      }
      forall k | 0 <= k < |queue| ensures ClaimOk(after, run, queue[k]) {
        assert ClaimOk(sys, run, queue[k]);
      }
  }

  lemma ReleaseAfterAcquire(sys: System, request: Request, claim: Claim, step: Releasing)
    requires TablesOk(sys) && ReleaseOk(sys, claim, step)
    requires MayAcquire(sys, request) && AnswerTo(sys.tables, request) == Taken
    requires request.run.Some? && claim.place == request.place ==> sys.issued[claim.exec].0 != Some(request.run.value.0)
    ensures ReleaseOk(Next(sys, Acquire(request)), claim, step)
  {}

  lemma ReleaseKeeps(sys: System, claim: Claim, step: Releasing, after: System)
    requires TablesOk(sys) && ReleaseOk(sys, claim, step)
    requires after.tables == ReleaseStep(sys.tables, claim, step).0 && after.issued == sys.issued && after.latest == sys.latest
    ensures Shrunk(sys.tables, after.tables) && TablesOk(after) && ReleaseOk(after, claim, ReleaseStep(sys.tables, claim, step).1)
  {
    TablesShrink(sys, after);
  }

  lemma StepKeeps(sys: System, id: nat)
    requires Inv(sys)
    ensures Inv(Next(sys, Step(id)))
  {
    if id in sys.closers {
      var after := Next(sys, Step(id));
      var closer := sys.closers[id];
      assert CloserOk(sys, closer);
      match closer {
        case One(claim, step) =>
          ReleaseKeeps(sys, claim, step, after);
        case All(run, paging, covered, queue, step) =>
          if !paging && queue != [] {
            assert ClaimOk(sys, run, queue[0]);
            if step.Released? {
              TablesShrink(sys, after);
              DequeueKeeps(sys, after, run, covered, queue);
            } else {
              ReleaseKeeps(sys, queue[0], step, after);
              QueueShrinks(sys, after, run, paging, covered, queue, step);
            }
          }
      }
      forall other | other in after.closers ensures CloserOk(after, after.closers[other]) {
        if other != id {
          CloserShrinks(sys, after, sys.closers[other]);
        }
      }
    }
  }

  lemma QueueShrinks(sys: System, after: System, run: string, paging: bool, covered: set<string>, queue: seq<Claim>, step: Releasing)
    requires CloserOk(sys, All(run, paging, covered, queue, step)) && Shrunk(sys.tables, after.tables) && after.issued == sys.issued
    ensures forall k :: 0 <= k < |queue| ==> ClaimOk(after, run, queue[k])
    ensures forall key :: key in after.tables.owners && key.0 == run && key.1 in covered ==> Queued(queue, key.1)
    ensures !paging ==> Covers(after.tables, run, covered)
  {}

  lemma DequeueKeeps(sys: System, after: System, run: string, covered: set<string>, queue: seq<Claim>)
    requires queue != [] && CloserOk(sys, All(run, false, covered, queue, Released)) && after.issued == sys.issued
    requires after.tables == sys.tables.(owners := sys.tables.owners - {(run, queue[0].place)})
    ensures CloserOk(after, All(run, false, covered, queue[1..], ToRead))
  {
    var rest := queue[1..];
    forall k | 0 <= k < |rest| ensures ClaimOk(after, run, rest[k]) {
      assert ClaimOk(sys, run, queue[k + 1]);
    }
    forall key | key in after.tables.owners && key.0 == run && key.1 in covered ensures Queued(rest, key.1) {
      var k :| 0 <= k < |queue| && queue[k].place == key.1;
      assert k > 0 && rest[k - 1].place == key.1;
    }
  }

  /** The claim is what the run's ownership row for the place says. */
  predicate IsRow(tables: Tables, run: string, claim: Claim) {
    (run, claim.place) in tables.owners && tables.owners[(run, claim.place)].exec == claim.exec
  }

  lemma {:induction false} ClaimsAre(tables: Tables, run: string, places: seq<string>)
    ensures var claims := ClaimsIn(tables, run, places);
            && (forall claim :: claim in claims ==> IsRow(tables, run, claim))
            && (forall place :: place in places && (run, place) in tables.owners ==> Queued(claims, place))
  {
    if places != [] {
      ClaimsAre(tables, run, places[1..]);
      var claims, rest := ClaimsIn(tables, run, places), ClaimsIn(tables, run, places[1..]);
      forall place | place in places && (run, place) in tables.owners ensures Queued(claims, place) {
        if place == places[0] {
          assert claims[0].place == place;
        } else {
          assert place in places[1..];
          var k :| 0 <= k < |rest| && rest[k].place == place;
          assert claims[|claims| - |rest| + k].place == place;
        }
      }
    }
  }

  /** A row of the run is a claim under which the run holds its place, if it holds it at all. */
  lemma RowsAreClaims(sys: System, run: string, claim: Claim)
    requires TablesOk(sys) && IsRow(sys.tables, run, claim)
    ensures ClaimOk(sys, run, claim)
  {
    assert (run, claim.place) in sys.tables.owners;
  }

  lemma QueuedEither(a: seq<Claim>, b: seq<Claim>, place: string)
    requires Queued(a, place) || Queued(b, place)
    ensures Queued(a + b, place)
  {
    if Queued(a, place) {
      var k :| 0 <= k < |a| && a[k].place == place;
      assert (a + b)[k].place == place;
    } else {
      var k :| 0 <= k < |b| && b[k].place == place;
      assert (a + b)[|a| + k].place == place;
    }
  }

  lemma PageGrows(sys: System, run: string, covered: set<string>, queue: seq<Claim>, places: seq<string>)
    requires TablesOk(sys) && CloserOk(sys, All(run, true, covered, queue, ToRead))
    ensures CloserOk(sys, All(run, true, covered + Members(places), queue + ClaimsIn(sys.tables, run, places), ToRead))
  {
    var claims, more := ClaimsIn(sys.tables, run, places), queue + ClaimsIn(sys.tables, run, places);
    ClaimsAre(sys.tables, run, places);
    hide TablesOk, ClaimOk, IsRow, Queued, IssuedFor;
    forall k | 0 <= k < |more| ensures ClaimOk(sys, run, more[k]) {
      if k >= |queue| {
        assert more[k] in claims;
        RowsAreClaims(sys, run, more[k]);
      }
    }
    forall key | key in sys.tables.owners && key.0 == run && key.1 in covered + Members(places)
      ensures Queued(more, key.1)
    {
      assert key == (run, key.1);
      QueuedEither(queue, claims, key.1);
    }
    if more != [] {
      ClaimIsReadable(sys, run, more[0]);
    }
  }

  lemma ClaimIsReadable(sys: System, run: string, claim: Claim)
    requires ClaimOk(sys, run, claim)
    ensures ReleaseOk(sys, claim, ToRead)
  {}

  lemma SameTables(sys: System, after: System, closer: Closer)
    requires CloserOk(sys, closer) && after.tables == sys.tables && after.issued == sys.issued
    ensures CloserOk(after, closer)
  {}

  lemma PageKeeps(sys: System, id: nat, places: seq<string>, last: bool)
    requires Inv(sys)
    ensures Inv(Next(sys, Page(id, places, last)))
  {
    var after := Next(sys, Page(id, places, last));
    hide ClaimOk, ReleaseOk, Indexed, IssuedFor, Queued;
    if after != sys {
      var closer, more := sys.closers[id], after.closers[id];
      assert CloserOk(sys, closer);
      PageGrows(sys, closer.run, closer.covered, closer.queue, places);
      hide CloserOk;
      PageEnds(sys, more.run, more.covered, more.queue, last);
      forall other | other in after.closers ensures CloserOk(after, after.closers[other]) {
        SameTables(sys, after, after.closers[other]);
      }
    }
  }

  lemma PageEnds(sys: System, run: string, covered: set<string>, queue: seq<Claim>, last: bool)
    requires CloserOk(sys, All(run, true, covered, queue, ToRead)) && (last ==> Covers(sys.tables, run, covered))
    ensures CloserOk(sys, All(run, !last, covered, queue, ToRead))
  {}

  /** Starting, stopping and expiring only remove rows, and expired rows at that. */
  lemma OthersShrink(sys: System, event: Event)
    requires TablesOk(sys) && !event.Acquire? && !event.Page? && !event.Step?
    ensures var after := Next(sys, event);
            Shrunk(sys.tables, after.tables) && after.issued == sys.issued && after.latest >= sys.latest
    ensures var after := Next(sys, event);
            forall place :: place in after.tables.locks && after.tables.locks[place].run.Some? ==>
              var key := (after.tables.locks[place].run.value, place);
              key in sys.tables.owners && key !in after.tables.owners ==> after.tables.locks[place].expiresAt < after.latest
  {}

  lemma StartedOk(sys: System, event: Event)
    requires !event.Acquire? && !event.Page? && !event.Step?
    ensures var after := Next(sys, event);
            forall id :: id in after.closers && id !in sys.closers ==> CloserOk(after, after.closers[id])
    ensures var after := Next(sys, event);
            forall id :: id in after.closers && id in sys.closers ==> after.closers[id] == sys.closers[id]
  {}

  lemma OthersKeep(sys: System, event: Event)
    requires Inv(sys) && !event.Acquire? && !event.Page? && !event.Step?
    ensures Inv(Next(sys, event))
  {
    hide CloserOk, Indexed, IssuedFor, Closing;
    var after := Next(sys, event);
    OthersShrink(sys, event);
    TablesShrink(sys, after);
    StartedOk(sys, event);
    forall id | id in after.closers ensures CloserOk(after, after.closers[id]) {
      if id in sys.closers {
        CloserShrinks(sys, after, sys.closers[id]);
      }
    }
  }

  lemma InvStays(sys: System, event: Event)
    requires Inv(sys)
    ensures Inv(Next(sys, event))
  {
    hide *;
    match event
    case Acquire(request) => AcquireKeeps(sys, request);
    case Page(id, places, last) => PageKeeps(sys, id, places, last);
    case Step(id) => StepKeeps(sys, id);
    case _ => OthersKeep(sys, event);
  }

  lemma {:induction false} InvHolds(sys: System, events: seq<Event>)
    requires Inv(sys)
    ensures Inv(Run(sys, events))
  {
    if events != [] {
      hide Inv, Next;
      InvHolds(sys, events[..|events| - 1]);
      InvStays(Run(sys, events[..|events| - 1]), events[|events| - 1]);
    }
  }

  // ---------------------------------------------------------------------------------------------
  // What holds over whole runs
  // ---------------------------------------------------------------------------------------------

  /** Nothing is in flight; the tables may hold what earlier runs left. */
  ghost predicate Initial(sys: System) { TablesOk(sys) && sys.closers == map[] }

  /**
    The ownership index: whatever acquires, releases, closers, stops and expirations came before, a lock held by
    a run has an ownership row of that run for the same execution, or it had already expired.
   */
  lemma IndexHolds(sys: System, events: seq<Event>, place: string)
    requires Initial(sys) && place in Run(sys, events).tables.locks
    ensures Indexed(Run(sys, events).tables, place, Run(sys, events).latest)
  {
    hide Run, Indexed;
    InvHolds(sys, events);
  }

  /** The closer is at work on this very execution's lock; a run closer, moreover, on its own run's. */
  predicate ClosesExec(closer: Closer, place: string, held: FolderLock) {
    match closer
    case One(claim, _) => claim == Claim(place, held.exec)
    case All(run, _, _, queue, _) => queue != [] && queue[0] == Claim(place, held.exec) && held.run == Some(run)
  }

  /** Why a lock is gone or replaced: its own release, or a clock past its expiry. */
  ghost predicate Ends(sys: System, event: Event, place: string, held: FolderLock) {
    match event
    case Acquire(request) => request.place == place && request.now > held.expiresAt
    case ExpireLock(gone, clock) => gone == place && clock > held.expiresAt
    case Step(id) => id in sys.closers && ClosesExec(sys.closers[id], place, held)
    case _ => false
  }

  /** Late closers are harmless: a step of a closer removes only a lock held by the execution it closes. */
  lemma OnlyEndsRemove(sys: System, event: Event, place: string)
    requires Inv(sys) && place in sys.tables.locks
    requires place !in Next(sys, event).tables.locks || Next(sys, event).tables.locks[place] != sys.tables.locks[place]
    ensures Ends(sys, event, place, sys.tables.locks[place])
  {
    if event.Step? && event.id in sys.closers {
      var closer := sys.closers[event.id];
      assert CloserOk(sys, closer);
      if closer.All? && closer.queue != [] {
        assert ClaimOk(sys, closer.run, closer.queue[0]);
      }
    }
  }

  /** After the first n events the place still carries this very lock. */
  ghost predicate Standing(sys: System, events: seq<Event>, n: nat, place: string, held: FolderLock)
    requires n <= |events|
  {
    var locks := Run(sys, events[..n]).tables.locks; place in locks && locks[place] == held
  }

  /**
    Mutual exclusion up to the deadline: when a lock is no longer there, there is an event before which it stood
    unchanged all the time and after which it was gone or replaced, and that event is a call of a closer of its own
    execution, or one with a clock past its expiry, which for a run's lock is at least an hour past the deadline.
   */
  lemma HeldUntil(sys: System, events: seq<Event>, place: string) returns (k: nat)
    requires Inv(sys) && place in sys.tables.locks
    requires !Standing(sys, events, |events|, place, sys.tables.locks[place])
    ensures k < |events| && forall j :: 0 <= j <= k ==> Standing(sys, events, j, place, sys.tables.locks[place])
    ensures !Standing(sys, events, k + 1, place, sys.tables.locks[place])
    ensures Ends(Run(sys, events[..k]), events[k], place, sys.tables.locks[place])
    ensures var held := sys.tables.locks[place];
            held.run.Some? ==> held.expiresAt >= held.deadline + LOCK_CLOSER_MARGIN_SECONDS
  {
    MarginHolds(sys, place);
    assert events[..0] == [];
    hide Inv, Next, Ends, TablesOk;
    k := FirstEnd(sys, events, place, 0);
  }

  /** The first event that ends the lock, sought from the nth on. */
  lemma {:induction false} FirstEnd(sys: System, events: seq<Event>, place: string, n: nat) returns (k: nat)
    requires Inv(sys) && place in sys.tables.locks && n <= |events|
    requires forall j :: 0 <= j <= n ==> Standing(sys, events, j, place, sys.tables.locks[place])
    requires !Standing(sys, events, |events|, place, sys.tables.locks[place])
    ensures k < |events| && forall j :: 0 <= j <= k ==> Standing(sys, events, j, place, sys.tables.locks[place])
    ensures !Standing(sys, events, k + 1, place, sys.tables.locks[place])
    ensures Ends(Run(sys, events[..k]), events[k], place, sys.tables.locks[place])
    decreases |events| - n
  {
    hide Inv, Next, Ends, Standing;
    assert n < |events|;
    if Standing(sys, events, n + 1, place, sys.tables.locks[place]) {
      k := FirstEnd(sys, events, place, n + 1);
    } else {
      k := n;
      InvHolds(sys, events[..n]);
      LastEvent(sys, events, n, place, sys.tables.locks[place]);
      OnlyEndsRemove(Run(sys, events[..n]), events[n], place);
    }
  }

  lemma LastEvent(sys: System, events: seq<Event>, n: nat, place: string, held: FolderLock)
    requires n < |events| && Standing(sys, events, n, place, held) && !Standing(sys, events, n + 1, place, held)
    ensures var before := Run(sys, events[..n]);
            var after := Next(before, events[n]).tables;
            && place in before.tables.locks && before.tables.locks[place] == held
            && (place !in after.locks || after.locks[place] != held)
  {
    hide Next;
    assert events[..n + 1][..n] == events[..n];
  }

  lemma MarginHolds(sys: System, place: string)
    requires Inv(sys) && place in sys.tables.locks
    ensures var held := sys.tables.locks[place];
            held.run.Some? ==> held.expiresAt >= held.deadline + LOCK_CLOSER_MARGIN_SECONDS
  {
    hide Indexed, CloserOk;
  }

  ghost predicate ClosedOut(sys: System, run: string) {
    && (forall key :: key in sys.tables.owners ==> key.0 != run)
    && (forall place :: place in sys.tables.locks && HeldByRun(sys.tables, place, run) ==> sys.tables.locks[place].expiresAt < sys.latest)
  }

  /**
    A run closer that reached its end has closed the run out, whatever happened meanwhile and whatever earlier
    closers of the run left half done: no ownership row of the run, and no lock of the run that has not expired.
   */
  lemma CloserClosesOut(sys: System, events: seq<Event>, id: nat, run: string)
    requires Initial(sys) && id in Run(sys, events).closers
    requires var closer := Run(sys, events).closers[id]; closer.All? && closer.run == run && !closer.paging && closer.queue == []
    ensures ClosedOut(Run(sys, events), run)
  {
    InvHolds(sys, events);
    hide Run;
    var end := Run(sys, events);
    assert CloserOk(end, end.closers[id]);
  }

  // ---------------------------------------------------------------------------------------------
  // A closer that is left alone comes to its end
  // ---------------------------------------------------------------------------------------------

  function CallsLeft(step: Releasing): nat {
    match step
    case ToRead => 4
    case ToDelete(_) => 3
    case ToDrop(_) => 2
    case Released => 1
  }

  function Work(closer: Closer): nat {
    if closer.One? || closer.queue == [] then 0 else 4 * (|closer.queue| - 1) + CallsLeft(closer.step)
  }

  function Steps(id: nat, n: nat): seq<Event> { seq(n, _ => Step(id)) }

  lemma {:induction false} StepsFinish(sys: System, id: nat, n: nat)
    requires id in sys.closers && sys.closers[id].All? && !sys.closers[id].paging && Work(sys.closers[id]) <= n
    ensures var end := Run(sys, Steps(id, n));
            && id in end.closers && end.closers[id].All? && end.closers[id].run == sys.closers[id].run
            && !end.closers[id].paging && end.closers[id].queue == []
  {
    StepsWork(sys, id, n);
  }

  lemma {:induction false} StepsWork(sys: System, id: nat, n: nat)
    requires id in sys.closers && sys.closers[id].All? && !sys.closers[id].paging
    ensures var end := Run(sys, Steps(id, n));
            && id in end.closers && end.closers[id].All? && end.closers[id].run == sys.closers[id].run
            && !end.closers[id].paging
            && (Work(sys.closers[id]) <= n ==> Work(end.closers[id]) == 0)
            && (Work(sys.closers[id]) > n ==> Work(end.closers[id]) <= Work(sys.closers[id]) - n)
            && (Work(end.closers[id]) == 0 ==> end.closers[id].queue == [])
  {
    if n > 0 {
      StepsWork(sys, id, n - 1);
      assert Steps(id, n)[..n - 1] == Steps(id, n - 1) && Steps(id, n)[n - 1] == Step(id);
      OneStepWorks(Run(sys, Steps(id, n - 1)), id);
    }
  }

  lemma OneStepWorks(sys: System, id: nat)
    requires id in sys.closers && sys.closers[id].All? && !sys.closers[id].paging
    ensures var after := Next(sys, Step(id));
            && id in after.closers && after.closers[id].All? && after.closers[id].run == sys.closers[id].run
            && !after.closers[id].paging
            && (Work(sys.closers[id]) > 0 ==> Work(after.closers[id]) < Work(sys.closers[id]))
            && (Work(sys.closers[id]) == 0 ==> Work(after.closers[id]) == 0)
  {}

  lemma {:induction false} RunConcat(sys: System, a: seq<Event>, b: seq<Event>)
    ensures Run(sys, a + b) == Run(Run(sys, a), b)
  {
    hide Next;
    if b == [] {
      assert a + b == a;
    } else {
      RunConcat(sys, a, b[..|b| - 1]);
      assert (a + b)[..|a + b| - 1] == a + b[..|b| - 1];
    }
  }

  /**
    Retries finish: from any state a run can get into, after any failures of earlier closers, one more closer
    that is not interrupted reads the index and closes the run out in four calls for each row it read.
   */
  lemma RetryClosesOut(start: System, events: seq<Event>, id: nat, run: string, places: seq<string>, n: nat)
    requires Initial(start) && id !in Run(start, events).closers
    requires Covers(Run(start, events).tables, run, Members(places))
    requires n >= 4 * |ClaimsIn(Run(start, events).tables, run, places)|
    ensures ClosedOut(Run(start, events + ([StartAll(id, run), Page(id, places, true)] + Steps(id, n))), run)
  {
    var sys := Run(start, events);
    var opening := [StartAll(id, run), Page(id, places, true)];
    var all := events + (opening + Steps(id, n));
    hide Initial, Steps, ClosedOut, Covers, ClaimsIn;
    RunConcat(start, events, opening + Steps(id, n));
    RunConcat(sys, opening, Steps(id, n));
    Opening(sys, id, run, places);
    StepsFinish(Run(sys, opening), id, n);
    CloserClosesOut(start, all, id, run);
  }

  lemma Opening(sys: System, id: nat, run: string, places: seq<string>)
    requires id !in sys.closers && Covers(sys.tables, run, Members(places))
    ensures var after := Run(sys, [StartAll(id, run), Page(id, places, true)]);
            && id in after.closers && after.closers[id].All? && after.closers[id].run == run && !after.closers[id].paging
            && Work(after.closers[id]) <= 4 * |ClaimsIn(sys.tables, run, places)|
  {
    var opening := [StartAll(id, run), Page(id, places, true)];
    var covered := Members(places);
    assert opening[..1] == [StartAll(id, run)] && opening[..1][..0] == [];
    var first := Next(sys, opening[0]);
    assert Run(sys, opening[..1]) == first;
    assert {} + covered == covered;
    assert [] + ClaimsIn(sys.tables, run, places) == ClaimsIn(sys.tables, run, places);
    assert Run(sys, opening) == Next(first, opening[1]);
  }
}
