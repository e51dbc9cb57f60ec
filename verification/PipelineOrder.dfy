/**
  Checkpoint order over whole runs. Intents for the checkpoints of a pipeline are created after a lookup, confirmed
  once, executed, and recorded when their run succeeds; all of this interleaves for any number of pipelines, pull
  requests and attempts. `marks` is the log of recorded checkpoints; a lookup sees some of it.
 */
module PipelineOrder {
  import opened Wrappers
  import opened Pipelines
  import opened RunStatus

  /**
    What a recorded checkpoint is filed under, besides its index. The pipeline hash stands for the steps it is
    computed from, the commit for its lower-case form.
   */
  datatype Key = Key(trigger: string, repo: string, name: string, destroy: bool, pr: nat, commit: string, steps: seq<Step>) {
    function Definition(): Pipeline { Pipeline(name, steps) }
  }

  /** One checkpoint attempt as its intent pins it. `prior` is the completion time its gate compared against. */
  datatype Attempt = Attempt(key: Key, index: int, count: nat, folder: string, planCreatedAt: int, prior: Option<int>)

  datatype Mark = Mark(attempt: Attempt, run: string, completedAt: int)

  /** A creation in progress, after its lookup. */
  datatype Creation = Creation(key: Key, index: int, prior: Option<int>)

  datatype Intent = Intent(attempt: Attempt, used: bool)
  datatype RunRow = RunRow(attempt: Attempt, stored: Stored)

  datatype System = System(creations: map<nat, Creation>, intents: map<string, Intent>, runs: map<string, RunRow>, marks: seq<Mark>)

  datatype Event =
    | Begin(id: nat, key: Key, index: int, found: Option<nat>)
    | Create(id: nat, token: string, plan: Option<int>)
    | Confirm(token: string, run: string)
    | SetStatus(run: string, status: string)
    | Record(run: string, completedAt: int)

  /** The mark a lookup may return: recorded already, under the same key, for the index before. */
  predicate Finds(sys: System, key: Key, index: int, found: Option<nat>) {
    found.Some? ==> found.value < |sys.marks| && sys.marks[found.value].attempt.key == key && sys.marks[found.value].attempt.index == index
  }

  /** The checkpoint precondition of a new intent: in range, and after a recorded predecessor. */
  function Begun(sys: System, key: Key, index: int, found: Option<nat>): Option<Creation> {
    if index < 1 || index > Checkpoints(key.Definition()) then None
    else if index == 1 then Some(Creation(key, index, None))
    else if found.None? || !Finds(sys, key, index - 1, found) then None
    else
      var mark := sys.marks[found.value];
      if mark.run == "" || mark.completedAt < 0 then None else Some(Creation(key, index, Some(mark.completedAt)))
  }

  predicate PlanAfterPrior(planCreatedAt: int, prior: Option<int>) {
    prior.None? || (prior.value >= 0 && planCreatedAt > prior.value)
  }

  /** The plan gate: a plan with a valid creation time, made after the predecessor completed. */
  function Pinned(creation: Creation, plan: Option<int>): Option<Attempt> {
    var folder := FolderAt(creation.key.Definition(), creation.index, creation.key.destroy);
    if plan.None? || plan.value <= 0 || !PlanAfterPrior(plan.value, creation.prior) || folder.None? then None
    else Some(Attempt(creation.key, creation.index, Checkpoints(creation.key.Definition()), folder.value, plan.value, creation.prior))
  }

  function Next(sys: System, event: Event): System {
    match event
    case Begin(id, key, index, found) =>
      var creation := Begun(sys, key, index, found);
      if id in sys.creations || creation.None? then sys else sys.(creations := sys.creations[id := creation.value])
    case Create(id, token, plan) =>
      if id !in sys.creations || token in sys.intents then sys
      else
        var attempt := Pinned(sys.creations[id], plan);
        if attempt.None? then sys.(creations := sys.creations - {id})
        else sys.(creations := sys.creations - {id}, intents := sys.intents[token := Intent(attempt.value, false)])
    case Confirm(token, run) =>
      if token !in sys.intents || sys.intents[token].used || run in sys.runs || run == "" then sys
      else sys.(intents := sys.intents[token := sys.intents[token].(used := true)],
                runs := sys.runs[run := RunRow(sys.intents[token].attempt, Stored("accepted", None))])
    case SetStatus(run, status) =>
      if run !in sys.runs then sys
      else sys.(runs := sys.runs[run := sys.runs[run].(stored := Update(sys.runs[run].stored, status))])
    case Record(run, completedAt) =>
      if run !in sys.runs || sys.runs[run].stored.status != "succeeded" || completedAt < 0 then sys
      else sys.(marks := sys.marks + [Mark(sys.runs[run].attempt, run, completedAt)])
  }

  function Run(sys: System, events: seq<Event>): System {
    if events == [] then sys else Next(Run(sys, events[..|events| - 1]), events[|events| - 1])
  }

  predicate Initial(sys: System) { sys == System(map[], map[], map[], []) }

  // ---------------------------------------------------------------------------------------------
  // The order
  // ---------------------------------------------------------------------------------------------

  /** A mark for this checkpoint stands in the log, completed at that time. */
  predicate Completed(marks: seq<Mark>, key: Key, index: int, at: int) {
    exists k :: 0 <= k < |marks| && marks[k].attempt.key == key && marks[k].attempt.index == index && marks[k].completedAt == at
  }

  /** The predecessor's completion that the creation compared against is in the log. */
  predicate PriorIn(marks: seq<Mark>, key: Key, index: int, prior: Option<int>) {
    && 1 <= index <= Checkpoints(key.Definition())
    && (index == 1 <==> prior.None?)
    && (prior.Some? ==> prior.value >= 0 && Completed(marks, key, index - 1, prior.value))
  }

  /** The attempt runs the folder its index names, with a plan made after its predecessor completed. */
  predicate InOrder(marks: seq<Mark>, attempt: Attempt) {
    && PriorIn(marks, attempt.key, attempt.index, attempt.prior)
    && attempt.count == Checkpoints(attempt.key.Definition())
    && FolderAt(attempt.key.Definition(), attempt.index, attempt.key.destroy) == Some(attempt.folder)
    && PlanAfterPrior(attempt.planCreatedAt, attempt.prior)
  }

  ghost predicate Inv(sys: System) {
    && (forall id :: id in sys.creations ==> PriorIn(sys.marks, sys.creations[id].key, sys.creations[id].index, sys.creations[id].prior))
    && (forall token :: token in sys.intents ==> InOrder(sys.marks, sys.intents[token].attempt))
    && (forall run :: run in sys.runs ==> InOrder(sys.marks, sys.runs[run].attempt))
    && (forall k :: 0 <= k < |sys.marks| ==> InOrder(sys.marks[..k], sys.marks[k].attempt))
  }

  lemma LogGrows(marks: seq<Mark>, more: seq<Mark>, key: Key, index: int, prior: Option<int>)
    requires PriorIn(marks, key, index, prior) && marks <= more
    ensures PriorIn(more, key, index, prior)
  {
    if prior.Some? {
      var k :| 0 <= k < |marks| && marks[k].attempt.key == key && marks[k].attempt.index == index - 1 && marks[k].completedAt == prior.value;
      assert more[k] == marks[k];
    }
  }

  lemma BegunInOrder(sys: System, key: Key, index: int, found: Option<nat>)
    requires Begun(sys, key, index, found).Some?
    ensures var creation := Begun(sys, key, index, found).value; PriorIn(sys.marks, creation.key, creation.index, creation.prior)
  {
    if index > 1 {
      assert sys.marks[found.value].attempt.index == index - 1;
    }
  }

  lemma RecordKeeps(sys: System, mark: Mark)
    requires Inv(sys) && InOrder(sys.marks, mark.attempt)
    ensures Inv(sys.(marks := sys.marks + [mark]))
  {
    hide Completed, PriorIn, PlanAfterPrior;
    var after := sys.(marks := sys.marks + [mark]);
    forall id | id in after.creations
      ensures PriorIn(after.marks, after.creations[id].key, after.creations[id].index, after.creations[id].prior)
    {
      LogGrows(sys.marks, after.marks, sys.creations[id].key, sys.creations[id].index, sys.creations[id].prior);
    }
    forall token | token in after.intents ensures InOrder(after.marks, after.intents[token].attempt) {
      var a := sys.intents[token].attempt;
      LogGrows(sys.marks, after.marks, a.key, a.index, a.prior);
    }
    forall run | run in after.runs ensures InOrder(after.marks, after.runs[run].attempt) {
      var a := sys.runs[run].attempt;
      LogGrows(sys.marks, after.marks, a.key, a.index, a.prior);
    }
    forall k | 0 <= k < |after.marks| ensures InOrder(after.marks[..k], after.marks[k].attempt) {
      assert after.marks[..k] == sys.marks[..k];
      if k == |sys.marks| {
        assert sys.marks[..k] == sys.marks;
      }
    }
  }

  lemma BeginKeeps(sys: System, id: nat, key: Key, index: int, found: Option<nat>)
    requires Inv(sys)
    ensures Inv(Next(sys, Begin(id, key, index, found)))
  {
    hide PriorIn, InOrder, Begun;
    if Begun(sys, key, index, found).Some? {
      BegunInOrder(sys, key, index, found);
    }
  }

  lemma PinnedInOrder(marks: seq<Mark>, creation: Creation, plan: Option<int>)
    requires PriorIn(marks, creation.key, creation.index, creation.prior) && Pinned(creation, plan).Some?
    ensures InOrder(marks, Pinned(creation, plan).value)
  {
    hide PriorIn, PlanAfterPrior;
  }

  lemma CreateKeeps(sys: System, id: nat, token: string, plan: Option<int>)
    requires Inv(sys)
    ensures Inv(Next(sys, Create(id, token, plan)))
  {
    hide PriorIn, InOrder, Pinned;
    if id in sys.creations && Pinned(sys.creations[id], plan).Some? {
      PinnedInOrder(sys.marks, sys.creations[id], plan);
    }
  }

  lemma InvStays(sys: System, event: Event)
    requires Inv(sys)
    ensures Inv(Next(sys, event))
  {
    hide PriorIn, InOrder, Begun, Pinned, Update;
    match event
    case Begin(id, key, index, found) => BeginKeeps(sys, id, key, index, found);
    case Create(id, token, plan) => CreateKeeps(sys, id, token, plan);
    case Record(run, completedAt) =>
      if run in sys.runs {
        RecordKeeps(sys, Mark(sys.runs[run].attempt, run, completedAt));
      }
    case _ =>
  }

  lemma {:induction false} InvHolds(sys: System, events: seq<Event>)
    requires Initial(sys)
    ensures Inv(Run(sys, events))
  {
    if events != [] {
      hide Inv, Next;
      InvHolds(sys, events[..|events| - 1]);
      InvStays(Run(sys, events[..|events| - 1]), events[|events| - 1]);
    }
  }

  /**
    Every recorded checkpoint beyond the first has a predecessor recorded before it, under the same trigger,
    repository, pipeline, direction, pull request, commit and definition; its plan was made strictly after that
    predecessor completed; and it ran the folder its index names in that direction.
   */
  lemma RecordedInOrder(sys: System, events: seq<Event>, k: nat) returns (j: nat)
    requires Initial(sys) && k < |Run(sys, events).marks|
    ensures var marks := Run(sys, events).marks;
            var attempt := marks[k].attempt;
            && FolderAt(attempt.key.Definition(), attempt.index, attempt.key.destroy) == Some(attempt.folder)
            && attempt.count == Checkpoints(attempt.key.Definition())
            && (attempt.index > 1 ==>
                  j < k && marks[j].attempt.key == attempt.key && marks[j].attempt.index == attempt.index - 1
                  && attempt.planCreatedAt > marks[j].completedAt)
  {
    InvHolds(sys, events);
    hide Run;
    var marks := Run(sys, events).marks;
    var attempt := marks[k].attempt;
    assert InOrder(marks[..k], attempt);
    j := 0;
    if attempt.index > 1 {
      j :| 0 <= j < |marks[..k]| && marks[..k][j].attempt.key == attempt.key && marks[..k][j].attempt.index == attempt.index - 1
           && marks[..k][j].completedAt == attempt.prior.value;
    }
  }

  /** The checkpoint is in the log. */
  predicate Done(marks: seq<Mark>, key: Key, index: int) {
    exists k :: 0 <= k < |marks| && marks[k].attempt.key == key && marks[k].attempt.index == index
  }

  /** The completed checkpoints of each key form a prefix: whatever is recorded, everything before it is too. */
  lemma {:induction false} CompletedIsPrefix(sys: System, events: seq<Event>, key: Key, m: int, i: int)
    requires Initial(sys) && Done(Run(sys, events).marks, key, m) && 1 <= i <= m
    ensures Done(Run(sys, events).marks, key, i) && m <= Checkpoints(key.Definition())
    decreases m
  {
    hide Run;
    var marks := Run(sys, events).marks;
    var k :| 0 <= k < |marks| && marks[k].attempt.key == key && marks[k].attempt.index == m;
    var j := RecordedInOrder(sys, events, k);
    if m > 1 {
      assert Done(marks, key, m - 1);
      if i < m {
        CompletedIsPrefix(sys, events, key, m - 1, i);
      }
    }
  }

  /** When the last checkpoint is recorded, every folder of the definition has been run, in the direction's order. */
  lemma CompletePipelineRanEverything(sys: System, events: seq<Event>, key: Key, folder: string) returns (k: nat)
    requires Initial(sys) && Checkpoints(key.Definition()) >= 1
    requires Done(Run(sys, events).marks, key, Checkpoints(key.Definition()))
    requires folder in Flatten(key.steps)
    ensures k < |Run(sys, events).marks|
    ensures Run(sys, events).marks[k].attempt.key == key && Run(sys, events).marks[k].attempt.folder == folder
  {
    hide Run;
    var all, n := Flatten(key.steps), Checkpoints(key.Definition());
    var at :| 0 <= at < |all| && all[at] == folder;
    var index := if key.destroy then n - at else at + 1;
    CompletedIsPrefix(sys, events, key, n, index);
    var marks := Run(sys, events).marks;
    k :| 0 <= k < |marks| && marks[k].attempt.key == key && marks[k].attempt.index == index;
    var j := RecordedInOrder(sys, events, k);
  }

  /** An intent leads to one run at most: confirming it again changes nothing. */
  lemma {:induction false} UsedStaysUsed(sys: System, events: seq<Event>, token: string)
    requires token in sys.intents && sys.intents[token].used
    ensures token in Run(sys, events).intents && Run(sys, events).intents[token] == sys.intents[token]
  {
    if events != [] {
      UsedStaysUsed(sys, events[..|events| - 1], token);
    }
  }

  /** A run that was recorded as a checkpoint stays recorded as succeeded, whatever status updates arrive later. */
  lemma {:induction false} SucceededStays(sys: System, events: seq<Event>, run: string)
    requires run in sys.runs && sys.runs[run].stored == Stored("succeeded", Some(Rank("succeeded")))
    ensures run in Run(sys, events).runs && Run(sys, events).runs[run] == sys.runs[run]
  {
    if events != [] {
      SucceededStays(sys, events[..|events| - 1], run);
      TerminalIsFinal(sys.runs[run].stored, []);
    }
  }
}
