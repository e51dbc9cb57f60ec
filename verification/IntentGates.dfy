/** The gates an apply or destroy intent passes before it is stored: per folder, for the review, and for the plans. */
module IntentGates {
  import opened Wrappers
  import PipelineOrder

  datatype Failure =
    | NoConfig(folder: string) | BadAccount(folder: string) | ApplyDisabled(folder: string) | NotAllowed(folder: string)
    | NoApprovalClient | NotApproved
    | NoPlan(folder: string) | StalePlan(folder: string) | BadPlanTime(folder: string) | OtherPlanPinned(folder: string)
    | PlanBeforePrior(folder: string) | DifferentRuns

  datatype Config = Config(allowed: bool, enabled: Option<bool>)   // no value when the account alias does not resolve
  datatype Plan = Plan(run: string, createdAt: Option<int>)
  datatype Found = Found(plan: Option<Plan>, stale: bool)

  /** Everything the gates look up, as it is while they run. */
  datatype World = World(config: string -> Option<Config>, plan: string -> Found, requireApproval: bool, approved: Option<bool>)

  /** What the caller pins: a completion the plan must follow, and a run the plan must come from. */
  datatype Demand = Demand(prior: Option<int>, run: Option<string>)

  function FolderFailures(world: World, folder: string): seq<Failure> {
    match world.config(folder)
    case None => [NoConfig(folder)]
    case Some(config) =>
      if config.enabled.None? then [BadAccount(folder)]
      else (if config.enabled.value then [] else [ApplyDisabled(folder)]) + (if config.allowed then [] else [NotAllowed(folder)])
  }

  function ApprovalFailures(world: World): seq<Failure> {
    if !world.requireApproval then []
    else if world.approved.None? then [NoApprovalClient]
    else if world.approved.value then [] else [NotApproved]
  }

  function PlanFailure(world: World, demand: Demand, folder: string): Option<Failure> {
    var found := world.plan(folder);
    match found.plan
    case None => Some(if found.stale then StalePlan(folder) else NoPlan(folder))
    case Some(plan) =>
      if plan.createdAt.None? || plan.createdAt.value <= 0 then Some(BadPlanTime(folder))
      else if demand.run.Some? && plan.run != demand.run.value then Some(OtherPlanPinned(folder))
      else if !PipelineOrder.PlanAfterPrior(plan.createdAt.value, demand.prior) then Some(PlanBeforePrior(folder))
      else None
  }

  /** The failures of the first n folders, in order. */
  function AllFolderFailures(world: World, folders: seq<string>, n: nat): seq<Failure>
    requires n <= |folders|
  {
    if n == 0 then [] else AllFolderFailures(world, folders, n - 1) + FolderFailures(world, folders[n - 1])
  }

  function AllPlanFailures(world: World, demand: Demand, folders: seq<string>, n: nat): seq<Failure>
    requires n <= |folders|
  {
    if n == 0 then []
    else
      var failure := PlanFailure(world, demand, folders[n - 1]);
      AllPlanFailures(world, demand, folders, n - 1) + if failure.Some? then [failure.value] else []
  }

  /** What a blocked request is told: folders and review first; plans only when those are in order; then their runs. */
  function Reported(world: World, demand: Demand, folders: seq<string>): seq<Failure> {
    var first := AllFolderFailures(world, folders, |folders|) + ApprovalFailures(world);
    if first != [] then first
    else
      var plans := AllPlanFailures(world, demand, folders, |folders|);
      if plans != [] then plans else [DifferentRuns]
  }

  datatype Pin = Pin(folder: string, run: string)
  datatype Gated = Passed(run: string, pins: seq<Pin>) | Blocked(failures: seq<Failure>)

  /** Everything the folder itself must have. */
  predicate FolderPasses(world: World, folder: string) {
    world.config(folder).Some? && world.config(folder).value.allowed && world.config(folder).value.enabled == Some(true)
  }

  predicate PlanPasses(world: World, demand: Demand, folder: string) {
    var plan := world.plan(folder).plan;
    && plan.Some? && plan.value.createdAt.Some? && plan.value.createdAt.value > 0
    && (demand.run.Some? ==> plan.value.run == demand.run.value)
    && PipelineOrder.PlanAfterPrior(plan.value.createdAt.value, demand.prior)
  }

  predicate Approved(world: World) { world.requireApproval ==> world.approved == Some(true) }

  function PlanRun(world: World, folder: string): string {
    if world.plan(folder).plan.Some? then world.plan(folder).plan.value.run else ""
  }

  /** What must hold for an intent on these folders to be created. */
  predicate Passes(world: World, demand: Demand, folders: seq<string>) {
    && (forall f :: f in folders ==> FolderPasses(world, f) && PlanPasses(world, demand, f))
    && Approved(world)
    && (forall f, g :: f in folders && g in folders ==> PlanRun(world, f) == PlanRun(world, g))
  }

  /** The first loop: what is wrong with the folders themselves. */
  method CheckFolders(world: World, folders: seq<string>) returns (failures: seq<Failure>)
    ensures failures == AllFolderFailures(world, folders, |folders|)
    ensures failures == [] <==> forall k :: 0 <= k < |folders| ==> FolderPasses(world, folders[k])
  {
    hide FolderFailures, FolderPasses;
    failures := [];
    var i := 0;
    while i < |folders|
      invariant 0 <= i <= |folders|
      invariant failures == AllFolderFailures(world, folders, i)
      invariant failures == [] <==> forall k :: 0 <= k < i ==> FolderPasses(world, folders[k])
    {
      FolderFailuresMean(world, folders[i]);
      failures := failures + FolderFailures(world, folders[i]);
      i := i + 1;
    }
  }

  ghost predicate RunsOf(world: World, folders: seq<string>, n: nat, runs: set<string>)
    requires n <= |folders|
  {
    forall run :: run in runs <==> exists k :: 0 <= k < n && PlanRun(world, folders[k]) == run
  }

  lemma RunsGrow(world: World, folders: seq<string>, n: nat, runs: set<string>)
    requires n < |folders| && RunsOf(world, folders, n, runs)
    ensures RunsOf(world, folders, n + 1, runs + {PlanRun(world, folders[n])})
  {
    hide PlanRun;
    forall run ensures run in runs + {PlanRun(world, folders[n])} <==> exists k :: 0 <= k < n + 1 && PlanRun(world, folders[k]) == run {
    }
  }

  /** The second loop: the plans, with the pins and the runs of those that pass. */
  method CheckPlans(world: World, demand: Demand, folders: seq<string>) returns (failures: seq<Failure>, pins: seq<Pin>, runs: set<string>)
    ensures failures == AllPlanFailures(world, demand, folders, |folders|)
    ensures failures == [] <==> forall k :: 0 <= k < |folders| ==> PlanPasses(world, demand, folders[k])
    ensures failures == [] ==> |pins| == |folders| && forall k :: 0 <= k < |folders| ==> pins[k] == Pin(folders[k], PlanRun(world, folders[k]))
    ensures failures == [] ==> RunsOf(world, folders, |folders|, runs)
  {
    NoRuns(world, folders);
    hide PlanFailure, PlanPasses, PlanRun, RunsOf;
    failures, pins, runs := [], [], {};
    var i := 0;
    while i < |folders|
      invariant 0 <= i <= |folders|
      invariant failures == AllPlanFailures(world, demand, folders, i)
      invariant failures == [] <==> forall k :: 0 <= k < i ==> PlanPasses(world, demand, folders[k])
      invariant failures == [] ==> |pins| == i && forall k :: 0 <= k < i ==> pins[k] == Pin(folders[k], PlanRun(world, folders[k]))
      invariant failures == [] ==> RunsOf(world, folders, i, runs)
    {
      PlanFailureMeans(world, demand, folders[i]);
      var failure := PlanFailure(world, demand, folders[i]);
      if failure.Some? {
        failures := failures + [failure.value];
      } else {
        if RunsOf(world, folders, i, runs) {
          RunsGrow(world, folders, i, runs);
        }
        runs := runs + {PlanRun(world, folders[i])};
        pins := pins + [Pin(folders[i], PlanRun(world, folders[i]))];
      }
      i := i + 1;
    }
  }

  lemma NoRuns(world: World, folders: seq<string>)
    ensures RunsOf(world, folders, 0, {})
  {}

  /**
    The gate: failures are collected folder by folder, then for the review; only when there are none are the plans
    looked up, and those failures collected in turn.
   */
  method Evaluate(world: World, demand: Demand, folders: seq<string>) returns (gated: Gated)
    ensures gated.Passed? <==> Passes(world, demand, folders)
    ensures gated.Passed? ==> |gated.pins| == |folders| && forall k :: 0 <= k < |folders| ==>
              gated.pins[k] == Pin(folders[k], PlanRun(world, folders[k])) && gated.pins[k].run == gated.run
    ensures gated.Blocked? ==> gated.failures == Reported(world, demand, folders)
  {
    hide FolderFailures, FolderPasses, PlanFailure, PlanPasses, PlanRun, ApprovalFailures, Approved, AllFolderFailures, AllPlanFailures, RunsOf;
    var failures := CheckFolders(world, folders);
    ApprovalFailuresMean(world);
    failures := failures + ApprovalFailures(world);
    if failures != [] {
      return Blocked(failures);
    }
    var wrong, pins, runs := CheckPlans(world, demand, folders);
    if wrong != [] {
      return Blocked(wrong);
    }
    RunsAgree(world, folders, runs);
    if |folders| > 1 && |runs| != 1 {
      return Blocked([DifferentRuns]);
    }
    gated := Passed(if folders == [] then "" else PlanRun(world, folders[0]), pins);
  }

  /** Each check reports nothing exactly when what it checks holds. */
  lemma FolderFailuresMean(world: World, folder: string)
    ensures FolderFailures(world, folder) == [] <==> FolderPasses(world, folder)
  {}

  lemma ApprovalFailuresMean(world: World)
    ensures ApprovalFailures(world) == [] <==> Approved(world)
  {}

  lemma PlanFailureMeans(world: World, demand: Demand, folder: string)
    ensures PlanFailure(world, demand, folder).None? <==> PlanPasses(world, demand, folder)
  {}

  lemma RunsAgree(world: World, folders: seq<string>, runs: set<string>)
    requires RunsOf(world, folders, |folders|, runs)
    ensures |folders| > 1 ==> (|runs| == 1 <==> forall f, g :: f in folders && g in folders ==> PlanRun(world, f) == PlanRun(world, g))
  {
    if |folders| > 1 {
      var first := PlanRun(world, folders[0]);
      assert first in runs;
      if |runs| == 1 {
        assert |runs - {first}| == 0;
        assert forall run :: run in runs ==> run == first;
        forall f | f in folders ensures PlanRun(world, f) == first {
          var k :| 0 <= k < |folders| && folders[k] == f;
          assert PlanRun(world, folders[k]) in runs;
        }
      }
      if forall f, g :: f in folders && g in folders ==> PlanRun(world, f) == PlanRun(world, g) {
        forall run | run in runs ensures run == first {
          var k :| 0 <= k < |folders| && PlanRun(world, folders[k]) == run;
          assert folders[k] in folders && folders[0] in folders;
        }
        assert runs == {first};
      }
    }
  }

  /** Both gates see the same configuration, plan and review for the folder; everything else may have changed. */
  predicate SameFor(before: World, after: World, folder: string) {
    && after.config(folder) == before.config(folder) && after.plan(folder) == before.plan(folder)
    && after.requireApproval == before.requireApproval && after.approved == before.approved
  }

  /**
    After the preliminary gate over all remaining folders, the gate for the checkpoint's own folder looks everything up
    again. Where it finds the same for that folder, it can only fail because the plan is not the pinned one or was made
    before the previous checkpoint completed.
   */
  lemma CheckpointGateNarrows(before: World, after: World, demand: Demand, remaining: seq<string>, folder: string)
    requires Passes(before, Demand(None, None), remaining) && folder in remaining && SameFor(before, after, folder)
    ensures Passes(after, demand, [folder]) <==>
              (demand.run.Some? ==> PlanRun(after, folder) == demand.run.value)
              && PipelineOrder.PlanAfterPrior(after.plan(folder).plan.value.createdAt.value, demand.prior)
  {
    assert FolderPasses(before, folder) && PlanPasses(before, Demand(None, None), folder);
    if Passes(after, demand, [folder]) {
      assert folder in [folder] && PlanPasses(after, demand, folder);
    }
  }
}
