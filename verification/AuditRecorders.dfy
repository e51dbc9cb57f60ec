/**
  Several recorders work on the audit comments of one pull request. Each is a small program over the lock row
  and the comments; a run interleaves their steps in any order, with any clock readings, calls that fail, calls
  whose answer is lost, and recorders that stop for good. The one thing taken from the code's own premise is
  that a comment write lands only while the writer's tenure of the lock is unbroken.
 */
module AuditRecorders {
  import opened Wrappers
  import opened AuditStore
  import opened AuditOps
  import AuditCodec
  import AuditComment
  import AuditMerge
  import Text
  import Lock = AuditLock

  const MAX_ATTEMPTS: nat := 3
  const ACQUIRE_TRIES: nat := 6

  datatype Step =
    | Leasing(tries: nat)
    | Searching
    | Reading(ids: seq<nat>)
    | MergeFencing(ids: seq<nat>)
    | MergeReading(ids: seq<nat>, got: Comments, k: nat, again: bool)
    | Merging(todo: seq<Write>, id: nat, text: string, again: bool)
    | Fencing(write: Write, collapse: bool)
    | Writing(write: Write, collapse: bool)
    | Collapsing(id: nat)
    | Releasing(ok: bool)
    | Finished(ok: bool)

  /** `base` and `done` are history: the comments when the lease was taken, and the writes made since. */
  datatype Recorder = Recorder(op: Op, holder: string, version: int, attempt: nat, step: Step, base: Store, done: nat)

  /** A call is answered, or refused without effect, or takes effect while its answer is lost. */
  datatype Fault = Answered | Refused | Unanswered

  datatype Event = Event(who: nat, now: int, fault: Fault)

  datatype Shared = Shared(row: Lock.Item, store: Store)

  /** Where a recorder goes when an exception leaves its current step. */
  function Fail(p: Recorder): Recorder {
    p.(step := if p.step.Leasing? && p.attempt == 0 then Finished(false) else Releasing(false))
  }

  /** A refused fence: take the lease again and start over, twice at most. */
  function Retry(p: Recorder): Recorder {
    if p.attempt + 1 == MAX_ATTEMPTS then Fail(p) else p.(attempt := p.attempt + 1, step := Leasing(0))
  }

  /** The comment is known: keep it, or fence and write. */
  function Conclude(env: Env, p: Recorder, id: Option<nat>, existing: Option<string>, collapse: bool): Recorder {
    match Decide(env, p.op, existing)
    case Reject => Fail(p)
    case Keep => p.(step := Releasing(true))
    case Replace(body) => p.(step := Fencing(if id.Some? then Put(id.value, body) else Add(body), collapse))
  }

  function InsertId(ids: seq<nat>, id: nat): seq<nat> {
    if ids == [] then [id]
    else if id == ids[0] then ids
    else if id < ids[0] then [id] + ids
    else [ids[0]] + InsertId(ids[1..], id)
  }

  function TryLease(p: Recorder, shared: Shared, now: int, fault: Fault, tries: nat): (Shared, Recorder) {
    var call := Lock.Acquire(p.holder, now, Lock.AUDIT_LOCK_TTL_SECONDS);
    var row := Lock.After(shared.row, call);
    match fault
    case Refused => (shared, Fail(p))
    case Unanswered => (shared.(row := row), Fail(p))
    case Answered =>
      var reply := Lock.ReplyTo(shared.row, call);
      if reply.Granted? then (shared.(row := row), p.(version := reply.version, step := Searching, base := shared.store, done := 0))
      else (shared, if tries + 1 < ACQUIRE_TRIES then p.(step := Leasing(tries + 1)) else Fail(p))
  }

  /** Fence, and go on to `then_` when it is granted, to `otherwise` when it is not. */
  function TryFence(p: Recorder, shared: Shared, now: int, fault: Fault, then_: Step, otherwise: Recorder): (Shared, Recorder) {
    var call := Lock.Fence(p.holder, p.version, now, Lock.AUDIT_LOCK_TTL_SECONDS);
    var row := Lock.After(shared.row, call);
    match fault
    case Refused => (shared, Fail(p))
    case Unanswered => (shared.(row := row), Fail(p))
    case Answered =>
      var reply := Lock.ReplyTo(shared.row, call);
      if reply.Granted? then (shared.(row := row), p.(version := reply.version, step := then_)) else (shared, otherwise)
  }

  /** One write on the comments. It may fail at any time, and lands only during the writer's tenure. */
  function TryWrite(p: Recorder, shared: Shared, fault: Fault, write: Write, after: Recorder): (Shared, Recorder) {
    if fault == Refused then (shared, Fail(p))
    else if !Lock.Tenure(shared.row, p.holder, p.version) then (shared, p)
    else
      var landed := shared.(store := Perform(shared.store, write));
      (landed, (if fault == Answered then after else Fail(p)).(done := p.done + 1))
  }

  /** The bodies of all listed comments have been read again: compute the merged text. */
  function StartMerge(env: Env, p: Recorder, ids: seq<nat>, got: Comments, again: bool): Recorder
    requires ids != []
  {
    var found := Candidates(got, ids);
    if found == [] then Fail(p)
    else
      match TextFor(env.scrub, got, found, env.derive, env.target)
      case Err(_) => Fail(p)
      case Ok(text) => p.(step := Merging(MergeWrites(found, text), ids[0], text, again))
  }

  function MergeRead(env: Env, p: Recorder, shared: Shared, ids: seq<nat>, got: Comments, k: nat, again: bool): Recorder {
    if k >= |ids| then Fail(p)
    else
      var more := got[ids[k] := BodyAt(shared.store.bodies, ids[k])];
      if k + 1 < |ids| then p.(step := MergeReading(ids, more, k + 1, again)) else StartMerge(env, p, ids, more, again)
  }

  function MergeNext(env: Env, p: Recorder, rest: seq<Write>, id: nat, text: string, again: bool): Recorder {
    if rest != [] then p.(step := Merging(rest, id, text, again))
    else if again then p.(step := Releasing(true))
    else Conclude(env, p, Some(id), Some(text), false)
  }

  function Search(env: Env, p: Recorder, shared: Shared): Recorder {
    var ids := Listing(shared.store, env.target);
    if ids == [] then Conclude(env, p, None, None, true) else p.(step := Reading(ids))
  }

  function ReadFirst(env: Env, p: Recorder, shared: Shared, ids: seq<nat>): Recorder {
    if ids == [] then Fail(p)
    else if |ids| > 1 then p.(step := MergeFencing(ids))
    else if p.op.Record? || ids[0] in shared.store.bodies
    then Conclude(env, p, Some(ids[0]), Some(BodyAt(shared.store.bodies, ids[0])), false)
    else Conclude(env, p, None, None, false)
  }

  function SearchAgain(env: Env, p: Recorder, shared: Shared, id: nat): Recorder {
    var ids := InsertId(Listing(shared.store, env.target), id);
    if |ids| == 1 then p.(step := Releasing(true)) else p.(step := MergeReading(ids, map[], 0, true))
  }

  function Advance(env: Env, p: Recorder, shared: Shared, now: int, fault: Fault): (Shared, Recorder) {
    match p.step
    case Leasing(tries) => TryLease(p, shared, now, fault, tries)
    case Searching => (shared, if fault.Answered? then Search(env, p, shared) else Fail(p))
    case Reading(ids) => (shared, if fault.Answered? then ReadFirst(env, p, shared, ids) else Fail(p))
    case MergeFencing(ids) => TryFence(p, shared, now, fault, MergeReading(ids, map[], 0, false), Retry(p))
    case MergeReading(ids, got, k, again) =>
      (shared, if fault.Answered? then MergeRead(env, p, shared, ids, got, k, again) else Fail(p))
    case Merging(todo, id, text, again) =>
      if todo == [] then (shared, p)
      else TryWrite(p, shared, fault, todo[0], MergeNext(env, p, todo[1..], id, text, again))
    case Fencing(write, collapse) =>
      TryFence(p, shared, now, fault, Writing(write, collapse), if write.Add? then Fail(p) else Retry(p))
    case Writing(write, collapse) =>
      TryWrite(p, shared, fault, write, p.(step := if collapse then Collapsing(shared.store.next) else Releasing(true)))
    case Collapsing(id) => (shared, if fault.Answered? then SearchAgain(env, p, shared, id) else Fail(p))
    case Releasing(ok) =>
      (if fault.Refused? then shared else shared.(row := Lock.After(shared.row, Lock.Release(p.holder))),
       p.(step := Finished(ok && fault.Answered?)))
    case Finished(_) => (shared, p)
  }

  // ---------------------------------------------------------------------------------------------
  // Whole runs
  // ---------------------------------------------------------------------------------------------

  /** `log` is history: who has written how much of which operation, in the order the writes landed. */
  datatype System = System(shared: Shared, recorders: seq<Recorder>, log: seq<Tx>)

  function LogWrite(log: seq<Tx>, who: nat, before: Recorder, after: Recorder): seq<Tx> {
    if after.done <= before.done then log
    else if before.done == 0 || log == [] then log + [Tx(who, before.op, after.done)]
    else log[|log| - 1 := Tx(who, before.op, after.done)]
  }

  function Next(env: Env, sys: System, event: Event): System {
    if event.who >= |sys.recorders| then sys
    else
      var p := sys.recorders[event.who];
      var (shared, after) := Advance(env, p, sys.shared, event.now, event.fault);
      System(shared, sys.recorders[event.who := after], LogWrite(sys.log, event.who, p, after))
  }

  function Run(env: Env, sys: System, events: seq<Event>): System {
    if events == [] then sys
    else Next(env, Run(env, sys, events[..|events| - 1]), events[|events| - 1])
  }

  /** Nobody has started; the row may be anything an earlier run left. */
  ghost predicate Initial(env: Env, sys: System) {
    && env.Valid() && sys.shared.store.Valid() && Lock.VersionOf(sys.shared.row) >= 0 && sys.log == []
    && forall k :: 0 <= k < |sys.recorders| ==>
         var p := sys.recorders[k];
         p.step == Leasing(0) && p.version == 0 && p.attempt == 0 && p.done == 0 && OpOk(p.op)
  }

  // ---------------------------------------------------------------------------------------------
  // The invariant
  // ---------------------------------------------------------------------------------------------

  predicate Working(p: Recorder) { !p.step.Leasing? && !p.step.Releasing? && !p.step.Finished? }

  /** The recorder is at work and the row still carries its tenure. */
  predicate Leads(row: Lock.Item, p: Recorder) { Working(p) && Lock.Tenure(row, p.holder, p.version) }

  predicate GotOk(bodies: Comments, ids: seq<nat>, got: Comments, k: nat)
    requires k <= |ids|
  {
    forall j :: 0 <= j < k ==> BodyAt(got, ids[j]) == BodyAt(bodies, ids[j])
  }

  /**
    What a leading recorder has read, and what it still has to write, agree with the comments it leased: `ids`
    is their listing, `rest` the part of the plan not written yet, `listed` the listing after its own writes.
   */
  predicate StepView(env: Env, p: Recorder, ids: seq<nat>, rest: seq<Write>, listed: seq<nat>) {
    match p.step
    case Searching => p.done == 0
    case Reading(seen) => p.done == 0 && seen == ids && ids != []
    case MergeFencing(seen) => p.done == 0 && seen == ids && |ids| > 1
    case MergeReading(seen, got, k, again) =>
      !again && p.done == 0 && seen == ids && |ids| > 1 && k < |ids| && GotOk(p.base.bodies, ids, got, k)
    case Merging(todo, id, text, again) =>
      !again && todo != [] && rest == todo + FinalWrites(env, p.op, Some(id), Some(text))
      && (forall w :: w in todo ==> !w.Add?) && MergesTo(env, p.base, ids, id, text)
    case Fencing(write, collapse) => FinalView(p, ids, rest, write, collapse)
    case Writing(write, collapse) => FinalView(p, ids, rest, write, collapse)
    case Collapsing(id) => rest == [] && listed == [id]
    case _ => true
  }

  /** The text that a merge of these comments writes into the first of them. */
  predicate MergesTo(env: Env, store: Store, ids: seq<nat>, id: nat, text: string) {
    |ids| > 1 && id == ids[0] && TextFor(env.scrub, store.bodies, ids, env.derive, env.target) == Ok(text)
  }

  /** One write is left, and it is no deletion; when it creates the comment, there was none. */
  predicate FinalView(p: Recorder, ids: seq<nat>, rest: seq<Write>, write: Write, collapse: bool) {
    rest == [write] && !write.Drop? && (collapse <==> write.Add?) && (collapse ==> p.done == 0 && ids == [])
  }

  function Rest(plan: seq<Write>, done: nat): seq<Write> { if done <= |plan| then plan[done..] else [] }

  /** A leading recorder sees the comments as they are: what it leased, plus its own writes. */
  predicate View(env: Env, init: Store, store: Store, log: seq<Tx>, who: nat, p: Recorder) {
    var plan := Plan(env, p.op, p.base);
    && p.done <= |plan|
    && (p.done == 0 ==> p.base == Serial(env, init, log))
    && (p.done > 0 ==> log != [] && log[|log| - 1] == Tx(who, p.op, p.done) && p.base == Serial(env, init, log[..|log| - 1]))
    && StepView(env, p, Listing(p.base, env.target), Rest(plan, p.done), Listing(store, env.target))
  }

  ghost predicate Versions(sys: System) {
    && Lock.VersionOf(sys.shared.row) >= 0
    && (forall i :: 0 <= i < |sys.recorders| ==> 0 <= sys.recorders[i].version <= Lock.VersionOf(sys.shared.row))
    && (forall i, j :: 0 <= i < j < |sys.recorders| && sys.recorders[i].version == sys.recorders[j].version
          ==> sys.recorders[i].version == 0)
    && (forall i :: 0 <= i < |sys.recorders| && Working(sys.recorders[i]) ==> sys.recorders[i].version >= 1)
  }

  ghost predicate Inv(env: Env, init: Store, sys: System) {
    && env.Valid() && init.Valid()
    && sys.shared.store == Serial(env, init, sys.log)
    && Versions(sys)
    && (forall i :: 0 <= i < |sys.recorders| ==> OpOk(sys.recorders[i].op))
    && (forall i :: 0 <= i < |sys.recorders| && Leads(sys.shared.row, sys.recorders[i])
          ==> View(env, init, sys.shared.store, sys.log, i, sys.recorders[i]))
  }

  /** No tenure of an older version appears that was not there before. */
  ghost predicate RowGrows(before: Lock.Item, after: Lock.Item) {
    && Lock.VersionOf(after) >= Lock.VersionOf(before)
    && (after == before || Lock.VersionOf(after) > Lock.VersionOf(before) || (after.Some? && after.value.holder.None?))
  }

  lemma TenureWasThere(before: Lock.Item, after: Lock.Item, holder: string, version: int)
    requires RowGrows(before, after) && Lock.Tenure(after, holder, version)
    requires version <= Lock.VersionOf(before)
    ensures Lock.Tenure(before, holder, version)
  {}

  /** What one step may do: its effect on the row and the version, and that only a leader writes. */
  ghost predicate Orderly(p: Recorder, shared: Shared, after: Shared, q: Recorder) {
    && q.op == p.op && q.holder == p.holder
    && RowGrows(shared.row, after.row)
    && (q.version == p.version || (q.version == Lock.VersionOf(after.row) > Lock.VersionOf(shared.row)))
    && (after.store != shared.store || q.done > p.done ==> Leads(shared.row, p))
    && (Working(q) ==> Working(p) || q.version > p.version)
  }

  lemma LeaseOrderly(p: Recorder, shared: Shared, now: int, fault: Fault, tries: nat)
    requires 0 <= p.version <= Lock.VersionOf(shared.row) && p.step.Leasing?
    ensures var (after, q) := TryLease(p, shared, now, fault, tries); Orderly(p, shared, after, q)
  {}

  lemma FenceOrderly(p: Recorder, shared: Shared, now: int, fault: Fault, then_: Step, otherwise: Recorder)
    requires 0 <= p.version <= Lock.VersionOf(shared.row) && Working(p) && SameSegment(p, otherwise)
    ensures var (after, q) := TryFence(p, shared, now, fault, then_, otherwise); Orderly(p, shared, after, q)
  {}

  lemma WriteOrderly(p: Recorder, shared: Shared, fault: Fault, write: Write, next: Recorder)
    requires Working(p) && SameSegment(p, next)
    ensures var (after, q) := TryWrite(p, shared, fault, write, next); Orderly(p, shared, after, q)
  {
    hide Perform;
  }

  lemma ReadOrderly(p: Recorder, shared: Shared, q: Recorder)
    requires SameSegment(p, q) && (Working(q) ==> Working(p))
    ensures Orderly(p, shared, shared, q)
  {}

  lemma ReleaseOrderly(p: Recorder, shared: Shared, fault: Fault, ok: bool)
    ensures var after := if fault.Refused? then shared else shared.(row := Lock.After(shared.row, Lock.Release(p.holder)));
            Orderly(p, shared, after, p.(step := Finished(ok)))
  {}

  /** What a step does to the row, the version and the operation, whatever the step is. */
  lemma AdvanceRow(env: Env, p: Recorder, shared: Shared, now: int, fault: Fault)
    requires 0 <= p.version <= Lock.VersionOf(shared.row)
    ensures var (after, q) := Advance(env, p, shared, now, fault); Orderly(p, shared, after, q)
  {
    hide Orderly, TryLease, TryFence, TryWrite, Search, ReadFirst, MergeRead, MergeNext, SearchAgain, Conclude, Retry, Lock.After;
    ReadersKeepSegment(env, p, shared, None, None, false, [], map[], 0, false, 0, [], "");
    var (after, q) := Advance(env, p, shared, now, fault);
    match p.step
    case Leasing(tries) => LeaseOrderly(p, shared, now, fault, tries);
    case Searching => ReadOrderly(p, shared, q);
    case Reading(ids) =>
      ReadersKeepSegment(env, p, shared, None, None, false, ids, map[], 0, false, 0, [], "");
      ReadOrderly(p, shared, q);
    case MergeFencing(ids) => FenceOrderly(p, shared, now, fault, MergeReading(ids, map[], 0, false), Retry(p));
    case MergeReading(ids, got, k, again) =>
      ReadersKeepSegment(env, p, shared, None, None, false, ids, got, k, again, 0, [], "");
      ReadOrderly(p, shared, q);
    case Merging(todo, id, text, again) =>
      if todo == [] {
        ReadOrderly(p, shared, q);
      } else {
        ReadersKeepSegment(env, p, shared, None, None, false, [], map[], 0, again, id, todo[1..], text);
        WriteOrderly(p, shared, fault, todo[0], MergeNext(env, p, todo[1..], id, text, again));
      }
    case Fencing(write, collapse) =>
      FenceOrderly(p, shared, now, fault, Writing(write, collapse), if write.Add? then Fail(p) else Retry(p));
    case Writing(write, collapse) =>
      WriteOrderly(p, shared, fault, write, p.(step := if collapse then Collapsing(shared.store.next) else Releasing(true)));
    case Collapsing(id) =>
      ReadersKeepSegment(env, p, shared, None, None, false, [], map[], 0, false, id, [], "");
      ReadOrderly(p, shared, q);
    case Releasing(ok) => ReleaseOrderly(p, shared, fault, ok && fault.Answered?);
    case Finished(_) => ReadOrderly(p, shared, q);
  }

  // ---------------------------------------------------------------------------------------------
  // Each step keeps the view
  // ---------------------------------------------------------------------------------------------

  /** A recorder that concludes has exactly its final writes left. */
  lemma ConcludeView(env: Env, p: Recorder, id: Option<nat>, existing: Option<string>, collapse: bool, ids: seq<nat>, rest: seq<Write>,
                     listed: seq<nat>)
    requires rest == FinalWrites(env, p.op, id, existing)
    requires collapse <==> id.None?
    requires collapse ==> p.done == 0 && ids == []
    ensures StepView(env, Conclude(env, p, id, existing, collapse), ids, rest, listed)
  {
    hide Decide;
  }

  lemma ListingIs(store: Store, target: AuditCodec.Target)
    requires store.Valid()
    ensures forall id :: id in Listing(store, target) <==> id in store.bodies && Listed(store.bodies[id], target)
  {
    ListToIs(store.bodies, store.next, target);
  }

  lemma PlanIs(env: Env, op: Op, store: Store)
    requires store.Valid()
    ensures var ids := Listing(store, env.target);
            && (ids == [] ==> Plan(env, op, store) == FinalWrites(env, op, None, None))
            && (|ids| == 1 ==>
                 Plan(env, op, store) == FinalWrites(env, op, Some(ids[0]), Some(BodyAt(store.bodies, ids[0]))))
            && (ids != [] ==> ids[0] in store.bodies)
            && (|ids| > 1 && TextFor(env.scrub, store.bodies, ids, env.derive, env.target).Ok? ==>
                 var text := TextFor(env.scrub, store.bodies, ids, env.derive, env.target).value;
                 Plan(env, op, store) == MergeWrites(ids, text) + FinalWrites(env, op, Some(ids[0]), Some(text)))
  {
    ListingIs(store, env.target);
    hide Listing, FinalWrites, TextFor, MergeWrites, Listed;
  }

  lemma SearchView(env: Env, p: Recorder, shared: Shared, listed: seq<nat>)
    requires shared.store.Valid() && p.done == 0 && p.base == shared.store
    ensures StepView(env, Search(env, p, shared), Listing(p.base, env.target), Plan(env, p.op, p.base), listed)
  {
    PlanIs(env, p.op, p.base);
    hide Plan, Listing, Conclude, FinalWrites, TextFor, MergeWrites;
    var ids := Listing(p.base, env.target);
    if ids == [] {
      ConcludeView(env, p, None, None, true, ids, Plan(env, p.op, p.base), listed);
    }
  }

  lemma ReadFirstView(env: Env, p: Recorder, shared: Shared, listed: seq<nat>)
    requires shared.store.Valid() && p.done == 0 && p.base == shared.store && Listing(p.base, env.target) != []
    ensures StepView(env, ReadFirst(env, p, shared, Listing(p.base, env.target)), Listing(p.base, env.target),
                     Plan(env, p.op, p.base), listed)
  {
    PlanIs(env, p.op, p.base);
    hide Plan, Listing, Conclude, FinalWrites, TextFor, MergeWrites, BodyAt;
    var ids := Listing(p.base, env.target);
    if |ids| == 1 {
      ConcludeView(env, p, Some(ids[0]), Some(BodyAt(shared.store.bodies, ids[0])), false, ids, Plan(env, p.op, p.base), listed);
    }
  }

  lemma SameText(env: Env, bodies: Comments, got: Comments, ids: seq<nat>)
    requires ids != [] && GotOk(bodies, ids, got, |ids|)
    ensures TextFor(env.scrub, got, ids, env.derive, env.target) == TextFor(env.scrub, bodies, ids, env.derive, env.target)
    ensures Candidates(got, ids) == Candidates(bodies, ids)
  {
    hide BodyAt, AuditMerge.MergedText, AuditComment.ParseCreated, AuditComment.ParseRows, Text.SplitLines, AuditComment.IsAudit, ReadSources, Candidates;
    forall id | id in ids ensures BodyAt(got, id) == BodyAt(bodies, id) {
      var j :| 0 <= j < |ids| && ids[j] == id;
    }
    ReadSame(bodies, got, ids);
    CandidatesSkip(bodies, got, ids);
    assert ids[0] in ids;
  }

  lemma StartMergeView(env: Env, p: Recorder, got: Comments, ids: seq<nat>, listed: seq<nat>)
    requires p.base.Valid() && p.done == 0 && ids == Listing(p.base, env.target) && |ids| > 1
    requires GotOk(p.base.bodies, ids, got, |ids|)
    ensures StepView(env, StartMerge(env, p, ids, got, false), ids, Plan(env, p.op, p.base), listed)
  {
    hide *;
    PlanIs(env, p.op, p.base);
    ListingIs(p.base, env.target);
    SameText(env, p.base.bodies, got, ids);
    ListedAreCandidates(p.base.bodies, ids, env.target);
    StartMergeIs(env, p, got, ids, Plan(env, p.op, p.base), listed);
  }

  lemma StartMergeIs(env: Env, p: Recorder, got: Comments, ids: seq<nat>, plan: seq<Write>, listed: seq<nat>)
    requires |ids| > 1 && Candidates(got, ids) == ids && p.done == 0
    requires TextFor(env.scrub, got, ids, env.derive, env.target) == TextFor(env.scrub, p.base.bodies, ids, env.derive, env.target)
    requires var text := TextFor(env.scrub, got, ids, env.derive, env.target);
             text.Ok? ==> plan == MergeWrites(ids, text.value) + FinalWrites(env, p.op, Some(ids[0]), Some(text.value))
    ensures StepView(env, StartMerge(env, p, ids, got, false), ids, plan, listed)
  {
    hide Candidates, TextFor, FinalWrites, MergeWrites;
    var text := TextFor(env.scrub, got, ids, env.derive, env.target);
    if text.Ok? {
      MergeWritesShape(ids, text.value);
    }
  }

  lemma MergeWritesShape(ids: seq<nat>, text: string)
    requires ids != []
    ensures MergeWrites(ids, text) != [] && forall w :: w in MergeWrites(ids, text) ==> !w.Add?
  {}

  lemma GotMore(bodies: Comments, ids: seq<nat>, got: Comments, k: nat)
    requires k < |ids| && GotOk(bodies, ids, got, k)
    ensures GotOk(bodies, ids, got[ids[k] := BodyAt(bodies, ids[k])], k + 1)
  {}

  lemma MergeReadView(env: Env, p: Recorder, shared: Shared, got: Comments, k: nat, listed: seq<nat>)
    requires shared.store.Valid() && p.done == 0 && p.base == shared.store && |Listing(p.base, env.target)| > 1
    requires k < |Listing(p.base, env.target)| && GotOk(p.base.bodies, Listing(p.base, env.target), got, k)
    ensures var ids := Listing(p.base, env.target);
            StepView(env, MergeRead(env, p, shared, ids, got, k, false), ids, Plan(env, p.op, p.base), listed)
  {
    hide *;
    var ids := Listing(p.base, env.target);
    GotMore(p.base.bodies, ids, got, k);
    var more := got[ids[k] := BodyAt(shared.store.bodies, ids[k])];
    MergeReadIs(env, p, shared, ids, got, k, Plan(env, p.op, p.base), listed);
    if k + 1 == |ids| {
      StartMergeView(env, p, more, ids, listed);
    }
  }

  lemma MergeReadIs(env: Env, p: Recorder, shared: Shared, ids: seq<nat>, got: Comments, k: nat, rest: seq<Write>, listed: seq<nat>)
    requires k < |ids| && |ids| > 1 && p.done == 0
    requires GotOk(p.base.bodies, ids, got[ids[k] := BodyAt(shared.store.bodies, ids[k])], k + 1)
    ensures var more := got[ids[k] := BodyAt(shared.store.bodies, ids[k])];
            var q := MergeRead(env, p, shared, ids, got, k, false);
            if k + 1 == |ids| then q == StartMerge(env, p, ids, more, false) else StepView(env, q, ids, rest, listed)
  {
    hide GotOk, BodyAt, StartMerge, FinalWrites;
  }

  lemma MergeNextView(env: Env, p: Recorder, todo: seq<Write>, id: nat, text: string, ids: seq<nat>, rest: seq<Write>, listed: seq<nat>)
    requires todo != [] && rest == todo + FinalWrites(env, p.op, Some(id), Some(text))
    requires (forall w :: w in todo ==> !w.Add?) && MergesTo(env, p.base, ids, id, text)
    ensures StepView(env, MergeNext(env, p, todo[1..], id, text, false), ids, rest[1..], listed)
  {
    hide Conclude, FinalWrites, TextFor;
    assert rest[1..] == todo[1..] + FinalWrites(env, p.op, Some(id), Some(text));
    if todo[1..] == [] {
      assert rest[1..] == FinalWrites(env, p.op, Some(id), Some(text));
      ConcludeView(env, p, Some(id), Some(text), false, ids, rest[1..], listed);
    }
  }

  /** A write of a leading recorder is the next one of its plan; the log grows by it. */
  lemma WriteLogged(env: Env, init: Store, store: Store, log: seq<Tx>, who: nat, p: Recorder, write: Write)
    requires View(env, init, store, log, who, p) && store == Serial(env, init, log)
    requires Rest(Plan(env, p.op, p.base), p.done) != [] && Rest(Plan(env, p.op, p.base), p.done)[0] == write
    ensures var later := LogWrite(log, who, p, p.(done := p.done + 1));
            && Perform(store, write) == Serial(env, init, later)
            && later != [] && later[|later| - 1] == Tx(who, p.op, p.done + 1)
            && p.base == Serial(env, init, later[..|later| - 1])
            && p.done + 1 <= |Plan(env, p.op, p.base)|
            && Rest(Plan(env, p.op, p.base), p.done + 1) == Rest(Plan(env, p.op, p.base), p.done)[1..]
  {
    hide Plan, StepView, Listing, Perform;
    var plan := Plan(env, p.op, p.base);
    var later := LogWrite(log, who, p, p.(done := p.done + 1));
    var head := if p.done == 0 then log else log[..|log| - 1];
    assert later == head + [Tx(who, p.op, p.done + 1)];
    assert later[..|later| - 1] == head;
    PerformSnoc(p.base, plan, p.done);
    if p.done == 0 {
      assert Take(plan, 0) == [];
    }
  }

  /** A step that writes nothing keeps the view when it keeps the recorder's place in its plan. */
  lemma ViewKept(env: Env, init: Store, store: Store, log: seq<Tx>, who: nat, p: Recorder, q: Recorder)
    requires View(env, init, store, log, who, p)
    requires q.op == p.op && q.base == p.base && q.done == p.done
    requires StepView(env, q, Listing(q.base, env.target), Rest(Plan(env, q.op, q.base), q.done), Listing(store, env.target))
    ensures View(env, init, store, log, who, q)
  {
    hide StepView, Plan, Listing, Serial;
  }

  lemma InsertOwn(id: nat)
    ensures InsertId([id], id) == [id]
  {}

  ghost predicate Ready(env: Env, init: Store, shared: Shared, log: seq<Tx>, who: nat, p: Recorder) {
    && env.Valid() && shared.store.Valid() && OpOk(p.op) && shared.store == Serial(env, init, log)
    && 0 <= p.version <= Lock.VersionOf(shared.row)
    && (Leads(shared.row, p) ==> View(env, init, shared.store, log, who, p))
  }

  ghost predicate Stays(env: Env, init: Store, log: seq<Tx>, who: nat, p: Recorder, after: Shared, q: Recorder) {
    && after.store == Serial(env, init, LogWrite(log, who, p, q))
    && (Leads(after.row, q) ==> View(env, init, after.store, LogWrite(log, who, p, q), who, q))
  }

  lemma LeaseStays(env: Env, init: Store, shared: Shared, log: seq<Tx>, who: nat, p: Recorder, now: int, fault: Fault, tries: nat)
    requires Ready(env, init, shared, log, who, p) && p.step == Leasing(tries)
    ensures var (after, q) := TryLease(p, shared, now, fault, tries); Stays(env, init, log, who, p, after, q)
  {
    hide Plan, Listing, Serial;
  }

  lemma FenceStays(env: Env, init: Store, shared: Shared, log: seq<Tx>, who: nat, p: Recorder, now: int, fault: Fault, then_: Step,
                   otherwise: Recorder)
    requires Ready(env, init, shared, log, who, p) && Working(p) && !Working(otherwise) && otherwise.done == p.done
    requires Leads(shared.row, p) ==>
               StepView(env, p.(step := then_), Listing(p.base, env.target), Rest(Plan(env, p.op, p.base), p.done),
                        Listing(shared.store, env.target))
    ensures var (after, q) := TryFence(p, shared, now, fault, then_, otherwise); Stays(env, init, log, who, p, after, q)
  {
    var (after, q) := TryFence(p, shared, now, fault, then_, otherwise);
    hide Plan, Listing, Serial, StepView, View, Rest;
    if Leads(after.row, q) {
      StepViewFence(env, p.(step := then_), q, Listing(p.base, env.target), Rest(Plan(env, p.op, p.base), p.done),
                    Listing(shared.store, env.target));
      ViewKept(env, init, shared.store, log, who, p, q);
    }
  }

  lemma StepViewFence(env: Env, p: Recorder, q: Recorder, ids: seq<nat>, rest: seq<Write>, listed: seq<nat>)
    requires StepView(env, p, ids, rest, listed)
    requires q.step == p.step && q.op == p.op && q.base == p.base && q.done == p.done
    ensures StepView(env, q, ids, rest, listed)
  {
    hide FinalWrites, GotOk;
  }

  /** Steps that only read: they keep the view when the recorder they lead to agrees with the plan. */
  lemma ReadStays(env: Env, init: Store, shared: Shared, log: seq<Tx>, who: nat, p: Recorder, q: Recorder)
    requires Ready(env, init, shared, log, who, p) && Working(p)
    requires q.op == p.op && q.base == p.base && q.done == p.done && q.version == p.version && q.holder == p.holder
    requires Leads(shared.row, p) && Working(q) ==>
               StepView(env, q, Listing(q.base, env.target), Rest(Plan(env, q.op, q.base), q.done), Listing(shared.store, env.target))
    ensures Stays(env, init, log, who, p, shared, q)
  {
    hide Plan, Listing, Serial, StepView, View, Rest;
    if Leads(shared.row, q) {
      ViewKept(env, init, shared.store, log, who, p, q);
    }
  }

  lemma WriteStays(env: Env, init: Store, shared: Shared, log: seq<Tx>, who: nat, p: Recorder, fault: Fault, write: Write, next: Recorder)
    requires Ready(env, init, shared, log, who, p) && Working(p)
    requires next.op == p.op && next.base == p.base && next.done == p.done && next.holder == p.holder && next.version == p.version
    requires Leads(shared.row, p) ==>
               var rest := Rest(Plan(env, p.op, p.base), p.done);
               && rest != [] && rest[0] == write
               && StepView(env, next.(done := p.done + 1), Listing(p.base, env.target), rest[1..],
                           Listing(Perform(shared.store, write), env.target))
    ensures var (after, q) := TryWrite(p, shared, fault, write, next); Stays(env, init, log, who, p, after, q)
  {
    hide Plan, Listing, Serial, StepView, Rest, Perform, View, LogWrite;
    if !Leads(shared.row, p) || fault == Refused {
      ReadStays(env, init, shared, log, who, p, if fault == Refused then Fail(p) else p);
    } else {
      ReadyStore(env, init, shared, log, who, p);
      WriteLogged(env, init, shared.store, log, who, p, write);
      LogIgnoresRest(log, who, p, next.(done := p.done + 1));
      LogIgnoresRest(log, who, p, Fail(p).(done := p.done + 1));
      var later := LogWrite(log, who, p, p.(done := p.done + 1));
      if fault == Answered {
        ViewAfterWrite(env, init, Perform(shared.store, write), later, who, next.(done := p.done + 1));
      }
    }
  }

  lemma ReadyStore(env: Env, init: Store, shared: Shared, log: seq<Tx>, who: nat, p: Recorder)
    requires Ready(env, init, shared, log, who, p) && Leads(shared.row, p)
    ensures View(env, init, shared.store, log, who, p) && shared.store == Serial(env, init, log)
  {
    hide View, Serial, Leads;
  }

  lemma LogIgnoresRest(log: seq<Tx>, who: nat, p: Recorder, q: Recorder)
    requires q.done == p.done + 1
    ensures LogWrite(log, who, p, q) == LogWrite(log, who, p, p.(done := p.done + 1))
  {}

  lemma ViewAfterWrite(env: Env, init: Store, store: Store, log: seq<Tx>, who: nat, q: Recorder)
    requires q.done > 0 && log != [] && log[|log| - 1] == Tx(who, q.op, q.done) && q.base == Serial(env, init, log[..|log| - 1])
    requires q.done <= |Plan(env, q.op, q.base)|
    requires StepView(env, q, Listing(q.base, env.target), Rest(Plan(env, q.op, q.base), q.done), Listing(store, env.target))
    ensures View(env, init, store, log, who, q)
  {
    hide Plan, Listing, Serial, StepView, Rest;
  }

  predicate SameSegment(p: Recorder, q: Recorder) {
    q.op == p.op && q.base == p.base && q.done == p.done && q.version == p.version && q.holder == p.holder
  }

  /** Reading steps touch nothing but the step itself. */
  lemma ReadersKeepSegment(env: Env, p: Recorder, shared: Shared, id: Option<nat>, existing: Option<string>, collapse: bool,
                           ids: seq<nat>, got: Comments, k: nat, again: bool, created: nat, todo: seq<Write>, text: string)
    ensures SameSegment(p, Fail(p)) && SameSegment(p, Retry(p)) && !Working(Fail(p)) && !Working(Retry(p))
    ensures SameSegment(p, Conclude(env, p, id, existing, collapse))
    ensures SameSegment(p, Search(env, p, shared)) && SameSegment(p, ReadFirst(env, p, shared, ids))
    ensures SameSegment(p, MergeRead(env, p, shared, ids, got, k, again)) && SameSegment(p, SearchAgain(env, p, shared, created))
    ensures SameSegment(p, MergeNext(env, p, todo, created, text, again))
  {
    hide Listing, Decide, Candidates, TextFor, MergeWrites, InsertId, BodyAt;
  }

  lemma ViewParts(env: Env, init: Store, store: Store, log: seq<Tx>, who: nat, p: Recorder)
    requires View(env, init, store, log, who, p) && store == Serial(env, init, log)
    ensures StepView(env, p, Listing(p.base, env.target), Rest(Plan(env, p.op, p.base), p.done), Listing(store, env.target))
    ensures p.done == 0 ==> p.base == store && Rest(Plan(env, p.op, p.base), p.done) == Plan(env, p.op, p.base)
  {
    hide Plan, Listing, Serial, StepView;
  }

  lemma SearchStays(env: Env, init: Store, shared: Shared, log: seq<Tx>, who: nat, p: Recorder)
    requires Ready(env, init, shared, log, who, p) && p.step.Searching?
    ensures Stays(env, init, log, who, p, shared, Search(env, p, shared))
  {
    hide Plan, Listing, Serial, View, Rest, Search, LogWrite;
    ReadersKeepSegment(env, p, shared, None, None, false, [], map[], 0, false, 0, [], "");
    if Leads(shared.row, p) {
      ViewParts(env, init, shared.store, log, who, p);
      SearchView(env, p, shared, Listing(shared.store, env.target));
    }
    ReadStays(env, init, shared, log, who, p, Search(env, p, shared));
  }

  lemma ReadFirstStays(env: Env, init: Store, shared: Shared, log: seq<Tx>, who: nat, p: Recorder)
    requires Ready(env, init, shared, log, who, p) && p.step.Reading?
    ensures Stays(env, init, log, who, p, shared, ReadFirst(env, p, shared, p.step.ids))
  {
    hide Plan, Listing, Serial, View, Rest, ReadFirst, LogWrite;
    ReadersKeepSegment(env, p, shared, None, None, false, p.step.ids, map[], 0, false, 0, [], "");
    if Leads(shared.row, p) {
      ViewParts(env, init, shared.store, log, who, p);
      ReadFirstView(env, p, shared, Listing(shared.store, env.target));
    }
    ReadStays(env, init, shared, log, who, p, ReadFirst(env, p, shared, p.step.ids));
  }

  lemma MergeReadStays(env: Env, init: Store, shared: Shared, log: seq<Tx>, who: nat, p: Recorder)
    requires Ready(env, init, shared, log, who, p) && p.step.MergeReading?
    ensures Stays(env, init, log, who, p, shared, MergeRead(env, p, shared, p.step.ids, p.step.got, p.step.k, p.step.again))
  {
    hide Plan, Listing, Serial, View, Rest, MergeRead, LogWrite, GotOk;
    ReadersKeepSegment(env, p, shared, None, None, false, p.step.ids, p.step.got, p.step.k, p.step.again, 0, [], "");
    if Leads(shared.row, p) {
      ViewParts(env, init, shared.store, log, who, p);
      MergeReadView(env, p, shared, p.step.got, p.step.k, Listing(shared.store, env.target));
    }
    ReadStays(env, init, shared, log, who, p, MergeRead(env, p, shared, p.step.ids, p.step.got, p.step.k, p.step.again));
  }

  lemma SearchAgainStays(env: Env, init: Store, shared: Shared, log: seq<Tx>, who: nat, p: Recorder)
    requires Ready(env, init, shared, log, who, p) && p.step.Collapsing?
    ensures Stays(env, init, log, who, p, shared, SearchAgain(env, p, shared, p.step.id))
  {
    hide Plan, Listing, Serial, View, Rest, LogWrite, InsertId;
    ReadersKeepSegment(env, p, shared, None, None, false, [], map[], 0, false, p.step.id, [], "");
    if Leads(shared.row, p) {
      ViewParts(env, init, shared.store, log, who, p);
      InsertOwn(p.step.id);
    }
    ReadStays(env, init, shared, log, who, p, SearchAgain(env, p, shared, p.step.id));
  }

  lemma MergeWriteStays(env: Env, init: Store, shared: Shared, log: seq<Tx>, who: nat, p: Recorder, fault: Fault)
    requires Ready(env, init, shared, log, who, p) && p.step.Merging? && p.step.todo != []
    ensures var next := MergeNext(env, p, p.step.todo[1..], p.step.id, p.step.text, p.step.again);
            var (after, q) := TryWrite(p, shared, fault, p.step.todo[0], next);
            Stays(env, init, log, who, p, after, q)
  {
    hide Plan, Listing, Serial, View, Rest, LogWrite, MergeNext, Stays, TryWrite, FinalWrites, Perform;
    var todo := p.step.todo;
    var next := MergeNext(env, p, todo[1..], p.step.id, p.step.text, p.step.again);
    ReadersKeepSegment(env, p, shared, None, None, false, [], map[], 0, p.step.again, p.step.id, todo[1..], p.step.text);
    if Leads(shared.row, p) {
      ViewParts(env, init, shared.store, log, who, p);
      var rest := Rest(Plan(env, p.op, p.base), p.done);
      var listed := Listing(Perform(shared.store, todo[0]), env.target);
      MergeNextView(env, p, todo, p.step.id, p.step.text, Listing(p.base, env.target), rest, listed);
      NextDone(env, p, next, Listing(p.base, env.target), rest[1..], listed);
    }
    WriteStays(env, init, shared, log, who, p, fault, todo[0], next);
  }

  /** Counting the write does not disturb what is left, since a recorder in the middle of its writes reads nothing. */
  lemma NextDone(env: Env, p: Recorder, next: Recorder, ids: seq<nat>, rest: seq<Write>, listed: seq<nat>)
    requires StepView(env, next, ids, rest, listed) && SameSegment(p, next) && p.step.Merging? && p.step.todo != []
    requires next == MergeNext(env, p, p.step.todo[1..], p.step.id, p.step.text, false)
    ensures StepView(env, next.(done := p.done + 1), ids, rest, listed)
  {
    hide FinalWrites, Decide;
  }

  lemma CreateListed(env: Env, p: Recorder, write: Write)
    requires env.Valid() && OpOk(p.op) && p.base.Valid() && Listing(p.base, env.target) == []
    requires Plan(env, p.op, p.base) == [write] && write.Add?
    ensures Listing(Perform(p.base, write), env.target) == [p.base.next]
  {
    PlanIs(env, p.op, p.base);
    hide Listing, Plan, Decide, Listed, Perform;
    CreatedIsListed(env, p.op);
    ListingAdd(p.base, write.text, env.target);
  }

  lemma FinalWriteStays(env: Env, init: Store, shared: Shared, log: seq<Tx>, who: nat, p: Recorder, fault: Fault)
    requires Ready(env, init, shared, log, who, p) && p.step.Writing?
    ensures var next := p.(step := if p.step.collapse then Collapsing(shared.store.next) else Releasing(true));
            var (after, q) := TryWrite(p, shared, fault, p.step.write, next);
            Stays(env, init, log, who, p, after, q)
  {
    hide Plan, Listing, Serial, View, Rest, LogWrite, Stays, TryWrite, FinalWrites, Perform;
    var next := p.(step := if p.step.collapse then Collapsing(shared.store.next) else Releasing(true));
    if Leads(shared.row, p) {
      ViewParts(env, init, shared.store, log, who, p);
      if p.step.collapse {
        CreateListed(env, p, p.step.write);
      }
    }
    WriteStays(env, init, shared, log, who, p, fault, p.step.write, next);
  }

  lemma FenceStepsStay(env: Env, init: Store, shared: Shared, log: seq<Tx>, who: nat, p: Recorder, now: int, fault: Fault)
    requires Ready(env, init, shared, log, who, p) && (p.step.MergeFencing? || p.step.Fencing?)
    ensures var (after, q) := Advance(env, p, shared, now, fault); Stays(env, init, log, who, p, after, q)
  {
    hide Plan, Listing, Serial, View, Rest, LogWrite, Stays, TryFence, Fail, Retry;
    ReadersKeepSegment(env, p, shared, None, None, false, [], map[], 0, false, 0, [], "");
    if Leads(shared.row, p) {
      ViewParts(env, init, shared.store, log, who, p);
    }
    if p.step.MergeFencing? {
      FenceStays(env, init, shared, log, who, p, now, fault, MergeReading(p.step.ids, map[], 0, false), Retry(p));
    } else {
      FenceStays(env, init, shared, log, who, p, now, fault, Writing(p.step.write, p.step.collapse), if p.step.write.Add? then Fail(p) else Retry(p));
    }
  }

  lemma IdleStays(env: Env, init: Store, shared: Shared, log: seq<Tx>, who: nat, p: Recorder, after: Shared, q: Recorder)
    requires Ready(env, init, shared, log, who, p)
    requires after.store == shared.store && q.done == p.done && (!Working(q) || (q == p && after == shared))
    ensures Stays(env, init, log, who, p, after, q)
  {
    hide Plan, Listing, Serial, View;
  }

  /** Whatever a recorder does next, the comments stay the serial outcome of the log and its own view stays right. */
  lemma SelfStays(env: Env, init: Store, shared: Shared, log: seq<Tx>, who: nat, p: Recorder, now: int, fault: Fault)
    requires Ready(env, init, shared, log, who, p)
    ensures var (after, q) := Advance(env, p, shared, now, fault); Stays(env, init, log, who, p, after, q)
  {
    hide Ready, Stays, TryLease, TryFence, TryWrite, Search, ReadFirst, MergeRead, MergeNext, SearchAgain;
    ReadersKeepSegment(env, p, shared, None, None, false, [], map[], 0, false, 0, [], "");
    var (after, q) := Advance(env, p, shared, now, fault);
    match p.step
    case Leasing(tries) => LeaseStays(env, init, shared, log, who, p, now, fault, tries);
    case Searching => if fault.Answered? { SearchStays(env, init, shared, log, who, p); } else { IdleStays(env, init, shared, log, who, p, after, q); }
    case Reading(ids) => if fault.Answered? { ReadFirstStays(env, init, shared, log, who, p); } else { IdleStays(env, init, shared, log, who, p, after, q); }
    case MergeFencing(ids) => FenceStepsStay(env, init, shared, log, who, p, now, fault);
    case MergeReading(ids, got, k, again) =>
      if fault.Answered? { MergeReadStays(env, init, shared, log, who, p); } else { IdleStays(env, init, shared, log, who, p, after, q); }
    case Merging(todo, id, text, again) =>
      if todo == [] { IdleStays(env, init, shared, log, who, p, after, q); } else { MergeWriteStays(env, init, shared, log, who, p, fault); }
    case Fencing(write, collapse) => FenceStepsStay(env, init, shared, log, who, p, now, fault);
    case Writing(write, collapse) => FinalWriteStays(env, init, shared, log, who, p, fault);
    case Collapsing(id) =>
      if fault.Answered? { SearchAgainStays(env, init, shared, log, who, p); } else { IdleStays(env, init, shared, log, who, p, after, q); }
    case Releasing(ok) => IdleStays(env, init, shared, log, who, p, after, q);
    case Finished(ok) => IdleStays(env, init, shared, log, who, p, after, q);
  }

  // ---------------------------------------------------------------------------------------------
  // The whole system
  // ---------------------------------------------------------------------------------------------

  lemma VersionsStay(env: Env, sys: System, event: Event)
    requires Versions(sys)
    ensures Versions(Next(env, sys, event))
  {
    if event.who < |sys.recorders| {
      var p := sys.recorders[event.who];
      AdvanceRow(env, p, sys.shared, event.now, event.fault);
      hide Advance, LogWrite;
      var next := Next(env, sys, event);
      forall i, j | 0 <= i < j < |next.recorders| && next.recorders[i].version == next.recorders[j].version
        ensures next.recorders[i].version == 0
      {
        assert sys.recorders[i].version <= Lock.VersionOf(sys.shared.row);
        assert sys.recorders[j].version <= Lock.VersionOf(sys.shared.row);
      }
    }
  }

  /** A recorder that did not move leads afterwards only if it led before, and then nobody wrote. */
  lemma OthersLead(env: Env, sys: System, event: Event, i: nat)
    requires Versions(sys) && event.who < |sys.recorders| && i < |sys.recorders| && i != event.who
    ensures var p := sys.recorders[event.who];
            var (after, q) := Advance(env, p, sys.shared, event.now, event.fault);
            Leads(after.row, sys.recorders[i]) ==>
              Leads(sys.shared.row, sys.recorders[i]) && after.store == sys.shared.store && LogWrite(sys.log, event.who, p, q) == sys.log
  {
    var p, other := sys.recorders[event.who], sys.recorders[i];
    AdvanceRow(env, p, sys.shared, event.now, event.fault);
    hide Advance;
    var (after, q) := Advance(env, p, sys.shared, event.now, event.fault);
    if Leads(after.row, other) {
      TenureWasThere(sys.shared.row, after.row, other.holder, other.version);
    }
  }

  lemma NextIs(env: Env, sys: System, event: Event)
    requires event.who < |sys.recorders|
    ensures var p := sys.recorders[event.who];
            var (shared, q) := Advance(env, p, sys.shared, event.now, event.fault);
            Next(env, sys, event) == System(shared, sys.recorders[event.who := q], LogWrite(sys.log, event.who, p, q))
  {
    hide Advance, LogWrite;
  }

  lemma NobodyMoves(env: Env, sys: System, event: Event)
    requires event.who >= |sys.recorders|
    ensures Next(env, sys, event) == sys
  {}

  lemma InvParts(env: Env, init: Store, sys: System)
    requires Inv(env, init, sys)
    ensures env.Valid() && init.Valid() && Versions(sys) && sys.shared.store == Serial(env, init, sys.log)
    ensures forall i :: 0 <= i < |sys.recorders| ==> OpOk(sys.recorders[i].op)
    ensures forall i :: 0 <= i < |sys.recorders| && Leads(sys.shared.row, sys.recorders[i]) ==>
              View(env, init, sys.shared.store, sys.log, i, sys.recorders[i])
  {
    hide View, Serial, Leads, OpOk, Versions, Env.Valid;
  }

  lemma InvFromParts(env: Env, init: Store, sys: System)
    requires env.Valid() && init.Valid() && Versions(sys) && sys.shared.store == Serial(env, init, sys.log)
    requires forall i :: 0 <= i < |sys.recorders| ==> OpOk(sys.recorders[i].op)
    requires forall i :: 0 <= i < |sys.recorders| && Leads(sys.shared.row, sys.recorders[i]) ==>
               View(env, init, sys.shared.store, sys.log, i, sys.recorders[i])
    ensures Inv(env, init, sys)
  {
    hide View, Serial, Leads, OpOk, Versions, Env.Valid;
  }

  lemma StaysParts(env: Env, init: Store, log: seq<Tx>, who: nat, p: Recorder, after: Shared, q: Recorder)
    requires Stays(env, init, log, who, p, after, q)
    ensures after.store == Serial(env, init, LogWrite(log, who, p, q))
    ensures Leads(after.row, q) ==> View(env, init, after.store, LogWrite(log, who, p, q), who, q)
  {
    hide View, Serial, Leads, LogWrite;
  }

  lemma SameOperation(env: Env, p: Recorder, shared: Shared, now: int, fault: Fault)
    requires 0 <= p.version <= Lock.VersionOf(shared.row)
    ensures Advance(env, p, shared, now, fault).1.op == p.op
  {
    hide Advance;
    AdvanceRow(env, p, shared, now, fault);
  }

  lemma VersionKnown(sys: System, who: nat)
    requires Versions(sys) && who < |sys.recorders|
    ensures 0 <= sys.recorders[who].version <= Lock.VersionOf(sys.shared.row)
  {}

  lemma InvStays(env: Env, init: Store, sys: System, event: Event)
    requires Inv(env, init, sys)
    ensures Inv(env, init, Next(env, sys, event))
  {
    hide *;
    if event.who >= |sys.recorders| {
      NobodyMoves(env, sys, event);
    } else {
      var p := sys.recorders[event.who];
      InvParts(env, init, sys);
      NextIs(env, sys, event);
      VersionsStay(env, sys, event);
      SerialValid(env, init, sys.log);
      ReadyNow(env, init, sys, event.who);
      VersionKnown(sys, event.who);
      SameOperation(env, p, sys.shared, event.now, event.fault);
      SelfStays(env, init, sys.shared, sys.log, event.who, p, event.now, event.fault);
      var (after, q) := Advance(env, p, sys.shared, event.now, event.fault);
      StaysParts(env, init, sys.log, event.who, p, after, q);
      var next := Next(env, sys, event);
      forall i | 0 <= i < |next.recorders| && Leads(next.shared.row, next.recorders[i])
        ensures View(env, init, next.shared.store, next.log, i, next.recorders[i])
      {
        if i != event.who {
          OthersLead(env, sys, event, i);
        }
      }
      InvFromParts(env, init, next);
    }
  }

  lemma ReadyNow(env: Env, init: Store, sys: System, who: nat)
    requires Inv(env, init, sys) && who < |sys.recorders| && sys.shared.store.Valid()
    ensures Ready(env, init, sys.shared, sys.log, who, sys.recorders[who])
  {
    hide View, Serial, Leads, OpOk;
  }

  lemma {:induction false} InvHolds(env: Env, sys: System, events: seq<Event>)
    requires Initial(env, sys)
    ensures Inv(env, sys.shared.store, Run(env, sys, events))
  {
    if events == [] {
      hide View, OpOk;
    } else {
      InvHolds(env, sys, events[..|events| - 1]);
      hide Inv, Next;
      InvStays(env, sys.shared.store, Run(env, sys, events[..|events| - 1]), events[|events| - 1]);
    }
  }

  /**
    No update is lost. In every run, with any interleaving, any clocks, any failed or unanswered calls and any
    recorders that stop, the comments are what the logged operations produce when they are run one after the
    other, each alone from the comments its predecessor left, and each up to the writes it got to make.
   */
  lemma Serializable(env: Env, sys: System, events: seq<Event>)
    requires Initial(env, sys)
    ensures var end := Run(env, sys, events);
            end.shared.store == Serial(env, sys.shared.store, end.log)
  {
    hide Run, Serial;
    InvHolds(env, sys, events);
  }
}
