/**
  What recorders can rely on over whole runs: an operation takes effect at most once, an acknowledged operation
  took effect or found its row already there, and no row and no delivery is lost or doubled.
 */
module AuditOutcomes {
  import opened Wrappers
  import opened AuditCodec
  import opened AuditComment
  import opened AuditStore
  import opened AuditOps
  import opened AuditRecorders
  import opened AuditHistory

  /** The recorder has made its last write, or gave up; it will not write again. */
  predicate Over(p: Recorder) {
    match p.step
    case Collapsing(_) => true
    case MergeReading(_, _, _, again) => again
    case Merging(_, _, _, again) => again
    case Releasing(_) => true
    case Finished(_) => true
    case _ => false
  }

  /** The recorder is going to report success, or has. */
  predicate Acknowledged(p: Recorder) {
    match p.step
    case Collapsing(_) => true
    case MergeReading(_, _, _, again) => again
    case Merging(_, _, _, again) => again
    case Releasing(ok) => ok
    case Finished(ok) => ok
    case _ => false
  }

  ghost predicate LogOk(env: Env, init: Store, sys: System) {
    && (forall k :: 0 <= k < |sys.log| ==> sys.log[k].who < |sys.recorders| && sys.log[k].op == sys.recorders[sys.log[k].who].op)
    && (forall k :: 0 <= k < |sys.log| && Complete(env, init, sys.log, k) ==> Over(sys.recorders[sys.log[k].who]))
    && (forall j, k :: 0 <= j < k < |sys.log| && sys.log[j].who == sys.log[k].who ==> !Complete(env, init, sys.log, j))
  }

  /** An over recorder stays over, and only an over recorder has nothing left of its plan. */
  lemma OverStays(env: Env, p: Recorder, shared: Shared, now: int, fault: Fault)
    ensures var (_, q) := Advance(env, p, shared, now, fault);
            && q.op == p.op
            && (Over(p) ==> Over(q))
            && (Over(p) && Acknowledged(q) ==> Acknowledged(p))
  {
    hide Decide, Listing, Candidates, TextFor, BodyAt, MergeWrites, Perform, InsertId;
  }

  /** When the log changed, the step was the next write of a leading recorder that was not over. */
  ghost predicate NextWrite(env: Env, shared: Shared, p: Recorder, q: Recorder) {
    q.done > p.done ==>
      && Leads(shared.row, p) && !Over(p) && q.done == p.done + 1 && q.base == p.base
      && (Rest(Plan(env, p.op, p.base), p.done + 1) == [] ==> Over(q))
      && (Acknowledged(q) ==> Rest(Plan(env, p.op, p.base), p.done + 1) == [])
  }

  lemma NextWriteParts(env: Env, shared: Shared, p: Recorder, q: Recorder)
    requires NextWrite(env, shared, p, q) && q.done > p.done
    ensures Leads(shared.row, p) && !Over(p) && q.done == p.done + 1 && q.base == p.base
    ensures Rest(Plan(env, p.op, p.base), p.done + 1) == [] ==> Over(q)
    ensures Acknowledged(q) ==> Rest(Plan(env, p.op, p.base), p.done + 1) == []
  {
    hide Leads, Over, Rest, Plan, Acknowledged;
  }

  lemma MergeWriteNext(env: Env, shared: Shared, p: Recorder, fault: Fault, rest: seq<Write>)
    requires p.step.Merging? && !p.step.again && p.step.todo != []
    requires rest == p.step.todo + FinalWrites(env, p.op, Some(p.step.id), Some(p.step.text))
    ensures var next := MergeNext(env, p, p.step.todo[1..], p.step.id, p.step.text, false);
            var (_, q) := TryWrite(p, shared, fault, p.step.todo[0], next);
            q.done > p.done ==>
              && Leads(shared.row, p) && !Over(p) && q.done == p.done + 1 && q.base == p.base
              && (rest[1..] == [] ==> Over(q)) && (Acknowledged(q) ==> rest[1..] == [])
  {
    hide Decide, Perform;
    assert rest[1..] == p.step.todo[1..] + FinalWrites(env, p.op, Some(p.step.id), Some(p.step.text));
  }

  lemma FinalWriteNext(shared: Shared, p: Recorder, fault: Fault, write: Write, collapse: bool)
    requires p.step == Writing(write, collapse)
    ensures var next := p.(step := if collapse then Collapsing(shared.store.next) else Releasing(true));
            var (_, q) := TryWrite(p, shared, fault, write, next);
            q.done > p.done ==> Leads(shared.row, p) && !Over(p) && q.done == p.done + 1 && q.base == p.base && Over(q)
  {
    hide Perform;
  }

  lemma OnlyWritesCount(env: Env, p: Recorder, shared: Shared, now: int, fault: Fault)
    requires !p.step.Writing? && !(p.step.Merging? && p.step.todo != [])
    ensures Advance(env, p, shared, now, fault).1.done <= p.done
  {
    hide Decide, Listing, Candidates, TextFor, BodyAt, MergeWrites, InsertId;
  }

  lemma WriteNeedsLead(p: Recorder, shared: Shared, fault: Fault, write: Write, next: Recorder)
    requires SameSegment(p, next) && Working(p)
    ensures TryWrite(p, shared, fault, write, next).1.done > p.done ==> Leads(shared.row, p)
  {
    hide Perform;
  }

  lemma RestTail(plan: seq<Write>, done: nat)
    requires done < |plan|
    ensures Rest(plan, done + 1) == Rest(plan, done)[1..]
  {}

  lemma WriteStep(env: Env, init: Store, shared: Shared, log: seq<Tx>, who: nat, p: Recorder, now: int, fault: Fault)
    requires Ready(env, init, shared, log, who, p)
    ensures NextWrite(env, shared, p, Advance(env, p, shared, now, fault).1)
  {
    hide Plan, Listing, Serial, FinalWrites, MergeNext, TryWrite, LogWrite, Over, Acknowledged, Decide, Perform, Leads, View, StepView, Rest;
    hide TryLease, TryFence, Search, ReadFirst, MergeRead, SearchAgain, Retry, Fail;
    if p.step.Writing? {
      var next := p.(step := if p.step.collapse then Collapsing(shared.store.next) else Releasing(true));
      WriteNeedsLead(p, shared, fault, p.step.write, next);
      FinalWriteNext(shared, p, fault, p.step.write, p.step.collapse);
      if Leads(shared.row, p) {
        FinalRest(env, init, shared.store, log, who, p);
      }
    } else if p.step.Merging? && p.step.todo != [] {
      ReadersKeepSegment(env, p, shared, None, None, false, [], map[], 0, p.step.again, p.step.id, p.step.todo[1..], p.step.text);
      WriteNeedsLead(p, shared, fault, p.step.todo[0], MergeNext(env, p, p.step.todo[1..], p.step.id, p.step.text, p.step.again));
      if Leads(shared.row, p) {
        MergeRest(env, init, shared.store, log, who, p);
        MergeWriteNext(env, shared, p, fault, Rest(Plan(env, p.op, p.base), p.done));
      }
    } else {
      OnlyWritesCount(env, p, shared, now, fault);
    }
  }

  lemma FinalRest(env: Env, init: Store, store: Store, log: seq<Tx>, who: nat, p: Recorder)
    requires View(env, init, store, log, who, p) && p.step.Writing? && store == Serial(env, init, log)
    ensures Rest(Plan(env, p.op, p.base), p.done + 1) == [] && p.done + 1 <= |Plan(env, p.op, p.base)|
  {
    hide Plan, Listing, Serial;
    ViewParts(env, init, store, log, who, p);
    RestTail(Plan(env, p.op, p.base), p.done);
  }

  lemma MergeRest(env: Env, init: Store, store: Store, log: seq<Tx>, who: nat, p: Recorder)
    requires View(env, init, store, log, who, p) && p.step.Merging? && p.step.todo != [] && store == Serial(env, init, log)
    ensures !p.step.again && p.done + 1 <= |Plan(env, p.op, p.base)|
    ensures Rest(Plan(env, p.op, p.base), p.done) == p.step.todo + FinalWrites(env, p.op, Some(p.step.id), Some(p.step.text))
    ensures Rest(Plan(env, p.op, p.base), p.done + 1) == Rest(Plan(env, p.op, p.base), p.done)[1..]
  {
    hide Plan, Listing, Serial, FinalWrites;
    ViewParts(env, init, store, log, who, p);
    RestTail(Plan(env, p.op, p.base), p.done);
  }

  /** The log after a write: the same operations before, and the writer's one at the end. */
  lemma LogShape(env: Env, init: Store, store: Store, log: seq<Tx>, who: nat, p: Recorder, q: Recorder)
    requires View(env, init, store, log, who, p) && q.done == p.done + 1
    ensures var head := if p.done == 0 then log else log[..|log| - 1];
            && LogWrite(log, who, p, q) == head + [Tx(who, p.op, q.done)]
            && p.base == Serial(env, init, head)
            && (p.done > 0 ==> log == head + [Tx(who, p.op, p.done)])
  {
    hide Plan, StepView, Serial, Listing;
  }

  lemma CompleteEarlier(env: Env, init: Store, head: seq<Tx>, a: Tx, k: nat)
    requires k < |head|
    ensures Complete(env, init, head + [a], k) <==> Complete(env, init, head, k)
  {
    hide Plan, Serial;
    assert (head + [a])[..k] == head[..k];
  }

  lemma CompleteLast(env: Env, init: Store, head: seq<Tx>, who: nat, op: Op, base: Store, done: nat)
    requires base == Serial(env, init, head) && done <= |Plan(env, op, base)|
    ensures Complete(env, init, head + [Tx(who, op, done)], |head|) <==> Rest(Plan(env, op, base), done) == []
  {
    hide Plan, Serial;
    assert (head + [Tx(who, op, done)])[..|head|] == head;
  }

  lemma LogOkIdle(env: Env, init: Store, sys: System, who: nat, p: Recorder, q: Recorder, shared: Shared)
    requires LogOk(env, init, sys) && who < |sys.recorders| && p == sys.recorders[who]
    requires q.op == p.op && q.done <= p.done && (Over(p) ==> Over(q))
    ensures LogOk(env, init, System(shared, sys.recorders[who := q], LogWrite(sys.log, who, p, q)))
  {
    hide Complete, Over;
  }

  lemma LogOkStays(env: Env, init: Store, sys: System, event: Event)
    requires Inv(env, init, sys) && LogOk(env, init, sys)
    ensures LogOk(env, init, Next(env, sys, event))
  {
    hide *;
    if event.who >= |sys.recorders| {
      NobodyMoves(env, sys, event);
    } else {
      var who := event.who;
      var p := sys.recorders[who];
      InvReady(env, init, sys, who);
      NextIs(env, sys, event);
      var (after, q) := Advance(env, p, sys.shared, event.now, event.fault);
      OverStays(env, p, sys.shared, event.now, event.fault);
      if q.done > p.done {
        WriteStep(env, init, sys.shared, sys.log, who, p, event.now, event.fault);
        NextWriteParts(env, sys.shared, p, q);
        ReadyView(env, init, sys.shared, sys.log, who, p);
        LogShape(env, init, sys.shared.store, sys.log, who, p, q);
        PlanRoom(env, init, sys.shared.store, sys.log, who, p, event.now, event.fault, sys.shared);
        var head := if p.done == 0 then sys.log else sys.log[..|sys.log| - 1];
        LogOkGrows(env, init, sys, who, head, p, q, after);
      } else {
        LogOkIdle(env, init, sys, who, p, q, after);
      }
    }
  }

  lemma InvReady(env: Env, init: Store, sys: System, who: nat)
    requires Inv(env, init, sys) && who < |sys.recorders|
    ensures Ready(env, init, sys.shared, sys.log, who, sys.recorders[who])
  {
    hide View, Serial, Leads, OpOk;
    SerialValid(env, init, sys.log);
    ReadyNow(env, init, sys, who);
  }

  lemma ReadyView(env: Env, init: Store, shared: Shared, log: seq<Tx>, who: nat, p: Recorder)
    requires Ready(env, init, shared, log, who, p) && Leads(shared.row, p)
    ensures View(env, init, shared.store, log, who, p) && shared.store == Serial(env, init, log)
  {
    hide View, Leads, Serial, OpOk;
  }

  /** The write that landed was part of the plan. */
  lemma PlanRoom(env: Env, init: Store, store: Store, log: seq<Tx>, who: nat, p: Recorder, now: int, fault: Fault, shared: Shared)
    requires Ready(env, init, shared, log, who, p) && store == shared.store
    requires var (_, q) := Advance(env, p, shared, now, fault); q.done > p.done
    ensures p.done + 1 <= |Plan(env, p.op, p.base)|
  {
    hide Plan, Listing, Serial, Leads, View, Advance;
    WriteStep(env, init, shared, log, who, p, now, fault);
    if p.step.Writing? {
      FinalRest(env, init, store, log, who, p);
    } else if p.step.Merging? && p.step.todo != [] {
      MergeRest(env, init, store, log, who, p);
    } else {
      OnlyWritesCount(env, p, shared, now, fault);
    }
  }

  lemma LogOkGrows(env: Env, init: Store, sys: System, who: nat, head: seq<Tx>, p: Recorder, q: Recorder, shared: Shared)
    requires LogOk(env, init, sys) && who < |sys.recorders| && p == sys.recorders[who] && q.op == p.op && q.done == p.done + 1
    requires !Over(p) && p.base == Serial(env, init, head) && q.done <= |Plan(env, p.op, p.base)|
    requires if p.done == 0 then sys.log == head else sys.log == head + [Tx(who, p.op, p.done)]
    requires Rest(Plan(env, p.op, p.base), q.done) == [] ==> Over(q)
    requires LogWrite(sys.log, who, p, q) == head + [Tx(who, p.op, q.done)]
    ensures LogOk(env, init, System(shared, sys.recorders[who := q], LogWrite(sys.log, who, p, q)))
  {
    hide Complete, Over, Plan, Serial, Rest, LogWrite;
    var later := head + [Tx(who, p.op, q.done)];
    forall k | 0 <= k < |head|
      ensures later[k] == sys.log[k] && (Complete(env, init, later, k) <==> Complete(env, init, sys.log, k))
    {
      CompleteEarlier(env, init, head, Tx(who, p.op, q.done), k);
      CompleteEarlier(env, init, head, Tx(who, p.op, p.done), k);
    }
    CompleteLast(env, init, head, who, p.op, p.base, q.done);
  }

  lemma {:induction false} LogOkHolds(env: Env, sys: System, events: seq<Event>)
    requires Initial(env, sys)
    ensures LogOk(env, sys.shared.store, Run(env, sys, events))
  {
    hide Inv, Next, Complete, Over;
    if events != [] {
      InvHolds(env, sys, events[..|events| - 1]);
      LogOkHolds(env, sys, events[..|events| - 1]);
      hide LogOk;
      LogOkStays(env, sys.shared.store, Run(env, sys, events[..|events| - 1]), events[|events| - 1]);
    }
  }

  /** No operation takes effect twice: of the log entries of one recorder only the last can be complete. */
  lemma AtMostOnce(env: Env, sys: System, events: seq<Event>, j: nat, k: nat)
    requires Initial(env, sys)
    requires j < k < |Run(env, sys, events).log|
    requires Run(env, sys, events).log[j].who == Run(env, sys, events).log[k].who
    ensures !Complete(env, sys.shared.store, Run(env, sys, events).log, j)
  {
    hide Run, Complete;
    LogOkHolds(env, sys, events);
  }

  // ---------------------------------------------------------------------------------------------
  // Acknowledgements
  // ---------------------------------------------------------------------------------------------

  /** Some comment of this moment already is what the operation wants. */
  ghost predicate Satisfied(env: Env, store: Store, op: Op) {
    exists id :: id in store.bodies && Decide(env, op, Some(store.bodies[id])) == Keep
  }

  ghost predicate Committed(env: Env, init: Store, log: seq<Tx>, who: nat) {
    exists k :: 0 <= k < |log| && log[k].who == who && Complete(env, init, log, k)
  }

  lemma NothingKept(env: Env, op: Op)
    requires env.Valid() && OpOk(op)
    ensures Decide(env, op, None) != Keep
    ensures op.Record? ==> Decide(env, op, Some("")) != Keep
  {
    hide Append, UpdateStatus, DeliveryHasStatus, ParseRows, TimeOk;
    if op.Record? && Append(env.scrub, "", op.entry, env.target).Ok? {
      AppendStarts(env.scrub, "", op.entry, env.target);
    }
  }

  lemma KeptMeansSatisfied(env: Env, op: Op, store: Store, id: nat)
    requires env.Valid() && OpOk(op) && (op.Record? || id in store.bodies)
    requires Decide(env, op, Some(BodyAt(store.bodies, id))) == Keep
    ensures Satisfied(env, store, op)
  {
    NothingKept(env, op);
    hide Decide;
  }

  lemma SearchUnsure(env: Env, p: Recorder, shared: Shared)
    requires Decide(env, p.op, None) != Keep
    ensures !Acknowledged(Search(env, p, shared))
  {
    hide Decide, Listing;
  }

  lemma ReadSure(env: Env, p: Recorder, shared: Shared, ids: seq<nat>)
    requires env.Valid() && OpOk(p.op) && Acknowledged(ReadFirst(env, p, shared, ids))
    ensures Satisfied(env, shared.store, p.op)
  {
    hide Decide, Satisfied, OpOk, BodyAt, Env.Valid;
    NothingKept(env, p.op);
    if |ids| == 1 && (p.op.Record? || ids[0] in shared.store.bodies) {
      KeptMeansSatisfied(env, p.op, shared.store, ids[0]);
    }
  }

  lemma MergeReadUnsure(env: Env, p: Recorder, shared: Shared, ids: seq<nat>, got: Comments, k: nat)
    ensures !Acknowledged(MergeRead(env, p, shared, ids, got, k, false))
  {
    hide Candidates, TextFor, BodyAt, MergeWrites;
  }

  /** A recorder becomes sure of success by landing its last write or by finding the comment as it should be. */
  lemma NewlyAcknowledged(env: Env, p: Recorder, shared: Shared, now: int, fault: Fault)
    requires env.Valid() && OpOk(p.op)
    ensures var (_, q) := Advance(env, p, shared, now, fault);
            !Over(p) && Acknowledged(q) ==> q.done > p.done || Satisfied(env, shared.store, p.op)
  {
    hide Search, ReadFirst, MergeRead, MergeNext, SearchAgain, Satisfied, OpOk, Env.Valid, Decide;
    NothingKept(env, p.op);
    match p.step
    case Searching => SearchUnsure(env, p, shared);
    case Reading(ids) =>
      if Acknowledged(ReadFirst(env, p, shared, ids)) {
        ReadSure(env, p, shared, ids);
      }
    case MergeReading(ids, got, k, again) => MergeReadUnsure(env, p, shared, ids, got, k);
    case _ =>
  }

  /** What is known about recorder i: its operation is complete in the log, or was seen satisfied during the run. */
  ghost predicate Explained(env: Env, start: System, events: seq<Event>, i: nat, op: Op) {
    var end := Run(env, start, events);
    || Committed(env, start.shared.store, end.log, i)
    || exists n :: 0 <= n <= |events| && Satisfied(env, StoreAt(env, start, events, n), op)
  }

  function StoreAt(env: Env, start: System, events: seq<Event>, n: nat): Store
    requires n <= |events|
  {
    Run(env, start, events[..n]).shared.store
  }

  lemma CommittedStays(env: Env, init: Store, sys: System, event: Event, i: nat)
    requires Inv(env, init, sys) && LogOk(env, init, sys) && event.who < |sys.recorders|
    requires Committed(env, init, sys.log, i)
    ensures Committed(env, init, Next(env, sys, event).log, i)
  {
    hide Inv, View, Ready, Complete, Over, Advance, Plan, Serial, Leads, Acknowledged, Rest;
    var who := event.who;
    var p := sys.recorders[who];
    InvReady(env, init, sys, who);
    var (after, q) := Advance(env, p, sys.shared, event.now, event.fault);
    WriteStep(env, init, sys.shared, sys.log, who, p, event.now, event.fault);
    if q.done > p.done {
      ReadyView(env, init, sys.shared, sys.log, who, p);
      LogShape(env, init, sys.shared.store, sys.log, who, p, q);
      var head := if p.done == 0 then sys.log else sys.log[..|sys.log| - 1];
      var k :| 0 <= k < |sys.log| && sys.log[k].who == i && Complete(env, init, sys.log, k);
      assert k < |head|;
      CompleteEarlier(env, init, head, Tx(who, p.op, q.done), k);
      CompleteEarlier(env, init, head, Tx(who, p.op, p.done), k);
    }
  }

  lemma NewlyCommitted(env: Env, init: Store, sys: System, event: Event)
    requires Inv(env, init, sys) && event.who < |sys.recorders|
    requires !Over(sys.recorders[event.who]) && Acknowledged(Next(env, sys, event).recorders[event.who])
    ensures Committed(env, init, Next(env, sys, event).log, event.who)
         || Satisfied(env, sys.shared.store, sys.recorders[event.who].op)
  {
    var who := event.who;
    var p := sys.recorders[who];
    InvReady(env, init, sys, who);
    ReadyParts(env, init, sys.shared, sys.log, who, p);
    hide Inv, View, Ready, Complete, Over, Advance, Plan, Serial, Leads, Acknowledged, Rest, Satisfied, OpOk;
    var (after, q) := Advance(env, p, sys.shared, event.now, event.fault);
    NewlyAcknowledged(env, p, sys.shared, event.now, event.fault);
    WriteStep(env, init, sys.shared, sys.log, who, p, event.now, event.fault);
    if q.done > p.done {
      ReadyView(env, init, sys.shared, sys.log, who, p);
      LogShape(env, init, sys.shared.store, sys.log, who, p, q);
      PlanRoom(env, init, sys.shared.store, sys.log, who, p, event.now, event.fault, sys.shared);
      var head := if p.done == 0 then sys.log else sys.log[..|sys.log| - 1];
      CompleteLast(env, init, head, who, p.op, p.base, q.done);
      var later := Next(env, sys, event).log;
      assert later == head + [Tx(who, p.op, q.done)] && later[|head|].who == who;
    }
  }

  lemma ReadyParts(env: Env, init: Store, shared: Shared, log: seq<Tx>, who: nat, p: Recorder)
    requires Ready(env, init, shared, log, who, p)
    ensures env.Valid() && OpOk(p.op)
  {
    hide View, Leads, Serial, OpOk;
  }

  lemma ExplainedStays(env: Env, start: System, events: seq<Event>, i: nat, op: Op)
    requires events != [] && Initial(env, start) && Explained(env, start, events[..|events| - 1], i, op)
    ensures Explained(env, start, events, i, op)
  {
    hide *;
    var rest := events[..|events| - 1];
    InvHolds(env, start, rest);
    LogOkHolds(env, start, rest);
    RunLast(env, start, events);
    if Committed(env, start.shared.store, Run(env, start, rest).log, i) {
      if events[|events| - 1].who < |Run(env, start, rest).recorders| {
        CommittedStays(env, start.shared.store, Run(env, start, rest), events[|events| - 1], i);
      } else {
        NobodyMoves(env, Run(env, start, rest), events[|events| - 1]);
      }
      ExplainedNow(env, start, events, i, op);
    } else {
      SeenStays(env, start, events, i, op);
    }
  }

  lemma RunLast(env: Env, start: System, events: seq<Event>)
    requires events != []
    ensures Run(env, start, events) == Next(env, Run(env, start, events[..|events| - 1]), events[|events| - 1])
  {
    hide Next;
  }

  lemma SeenStays(env: Env, start: System, events: seq<Event>, i: nat, op: Op)
    requires events != [] && Explained(env, start, events[..|events| - 1], i, op)
    requires !Committed(env, start.shared.store, Run(env, start, events[..|events| - 1]).log, i)
    ensures Explained(env, start, events, i, op)
  {
    hide Run, Committed, Satisfied;
    var rest := events[..|events| - 1];
    var n :| 0 <= n <= |rest| && Satisfied(env, StoreAt(env, start, rest, n), op);
    assert events[..n] == rest[..n];
    assert Satisfied(env, StoreAt(env, start, events, n), op);
  }

  lemma {:induction false} RecordersStay(env: Env, start: System, events: seq<Event>)
    ensures |Run(env, start, events).recorders| == |start.recorders|
    ensures forall i :: 0 <= i < |start.recorders| ==> Run(env, start, events).recorders[i].op == start.recorders[i].op
  {
    if events != [] {
      RecordersStay(env, start, events[..|events| - 1]);
      var sys, event := Run(env, start, events[..|events| - 1]), events[|events| - 1];
      if event.who < |sys.recorders| {
        OverStays(env, sys.recorders[event.who], sys.shared, event.now, event.fault);
      }
      hide Advance, LogWrite;
    }
  }

  /**
    An acknowledgement is true: a recorder that reports success has its operation complete in the log, or the
    comment was, at some moment of the run, already what the operation asks for.
   */
  lemma {:induction false} AcknowledgedMeansThere(env: Env, start: System, events: seq<Event>, i: nat)
    requires Initial(env, start) && i < |start.recorders|
    requires |Run(env, start, events).recorders| == |start.recorders|
    requires Acknowledged(Run(env, start, events).recorders[i])
    ensures Explained(env, start, events, i, start.recorders[i].op)
  {
    assert start.recorders[i].step == Leasing(0);
    if events != [] {
      hide Initial, Explained, Over, Acknowledged, Next;
      var rest, event := events[..|events| - 1], events[|events| - 1];
      var sys := Run(env, start, rest);
      RecordersStay(env, start, rest);
      if Acknowledged(sys.recorders[i]) {
        AcknowledgedMeansThere(env, start, rest, i);
        ExplainedStays(env, start, events, i, start.recorders[i].op);
      } else {
        MustHaveMoved(env, sys, event, i);
        InvHolds(env, start, rest);
        NewlyCommitted(env, start.shared.store, sys, event);
        ExplainedNow(env, start, events, i, start.recorders[i].op);
      }
    }
  }

  lemma MustHaveMoved(env: Env, sys: System, event: Event, i: nat)
    requires i < |sys.recorders| == |Next(env, sys, event).recorders|
    requires !Acknowledged(sys.recorders[i]) && Acknowledged(Next(env, sys, event).recorders[i])
    ensures event.who == i && !Over(sys.recorders[i])
  {
    if event.who < |sys.recorders| {
      OverStays(env, sys.recorders[event.who], sys.shared, event.now, event.fault);
    }
    hide Advance, Over, Acknowledged, LogWrite;
  }

  lemma ExplainedNow(env: Env, start: System, events: seq<Event>, i: nat, op: Op)
    requires events != []
    requires Committed(env, start.shared.store, Run(env, start, events).log, i)
          || Satisfied(env, Run(env, start, events[..|events| - 1]).shared.store, op)
    ensures Explained(env, start, events, i, op)
  {
    hide Run, Committed, Satisfied;
    assert StoreAt(env, start, events, |events| - 1) == Run(env, start, events[..|events| - 1]).shared.store;
  }

  // ---------------------------------------------------------------------------------------------
  // Rows
  // ---------------------------------------------------------------------------------------------

  /** The logged operations are operations of the recorders. */
  lemma LogOps(env: Env, start: System, events: seq<Event>)
    requires Initial(env, start)
    ensures var end := Run(env, start, events);
            && end.shared.store == Serial(env, start.shared.store, end.log)
            && env.Valid() && start.shared.store.Valid()
            && forall k :: 0 <= k < |end.log| ==> OpOk(end.log[k].op)
  {
    var end := Run(env, start, events);
    Serializable(env, start, events);
    LogOkHolds(env, start, events);
    RecordersStay(env, start, events);
    hide Run, Serial, Complete, Over, OpOk;
    forall k | 0 <= k < |end.log| ensures OpOk(end.log[k].op) {
      assert end.log[k].op == end.recorders[end.log[k].who].op;
    }
  }

  /**
    No row is lost and no delivery is doubled, in any run that starts with at most one audit comment: there is
    still at most one, its rows are the old rows followed by those the logged operations added, in the order of
    the log, less exactly the oldest ones that the caps dropped, each drop for one of the two caps; and deliveries
    that were distinct stay distinct.
   */
  lemma NoRowLost(env: Env, start: System, events: seq<Event>)
    requires Initial(env, start) && Tracked(env, start.shared.store)
    ensures var init, end := start.shared.store, Run(env, start, events);
            && KeysFollow(env, init, Added(env, init, end.log), Lost(env, init, end.log), end.shared.store)
            && CapsOnly(env, init, end.log)
            && (NoDrops(env, init, end.log) ==>
                  StoreKeys(env, end.shared.store) == StoreKeys(env, init) + Added(env, init, end.log))
  {
    hide *;
    LogOps(env, start, events);
    RowsSurvive(env, start.shared.store, Run(env, start, events).log);
  }
}
