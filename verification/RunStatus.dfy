/** How a run ends: the status computed from its folder outcomes, and the update rule that protects it. */
module RunStatus {
  import opened Wrappers

  const TERMINAL_RANK: int := 2

  /** One folder outcome, or one skipped folder. */
  datatype Outcome = Outcome(status: string, succeeded: Option<bool>)

  predicate Failing(item: Outcome) {
    item.status == "failed" || item.status == "infrastructure_error" || item.succeeded == Some(false)
  }

  /** The terminal status of a run, read off all items at once. */
  function TerminalStatus(outcomes: seq<Outcome>, skipped: seq<Outcome>): string {
    var all := outcomes + skipped;
    if outcomes == [] && skipped != [] then "skipped"
    else if exists k :: 0 <= k < |all| && Failing(all[k]) then "failed"
    else if exists k :: 0 <= k < |all| && all[k].status == "in_progress" then "skipped"
    else "succeeded"
  }

  /** The loop that computes it: it stops at the first failing item and remembers one in progress. */
  method ComputeTerminalStatus(outcomes: seq<Outcome>, skipped: seq<Outcome>) returns (status: string)
    ensures status == TerminalStatus(outcomes, skipped)
  {
    if outcomes == [] && skipped != [] {
      return "skipped";
    }
    status := "succeeded";
    var all := outcomes + skipped;
    var i := 0;
    while i < |all|
      invariant 0 <= i <= |all|
      invariant forall k :: 0 <= k < i ==> !Failing(all[k])
      invariant status == if exists k :: 0 <= k < i && all[k].status == "in_progress" then "skipped" else "succeeded"
    {
      if Failing(all[i]) {
        return "failed";
      }
      if all[i].status == "in_progress" {
        status := "skipped";
      }
      i := i + 1;
    }
  }

  /** A run succeeds exactly when no item fails or is in progress, and something ran unless nothing was skipped. */
  lemma SucceedsExactly(outcomes: seq<Outcome>, skipped: seq<Outcome>)
    ensures TerminalStatus(outcomes, skipped) == "succeeded" <==>
            (outcomes != [] || skipped == [])
            && forall item :: item in outcomes || item in skipped ==> !Failing(item) && item.status != "in_progress"
  {
    var all := outcomes + skipped;
    assert forall item :: item in all <==> item in outcomes || item in skipped;
    if TerminalStatus(outcomes, skipped) == "succeeded" {
      forall item | item in outcomes || item in skipped ensures !Failing(item) && item.status != "in_progress" {
        var k :| 0 <= k < |all| && all[k] == item;
      }
    } else {
      assert forall k :: 0 <= k < |all| ==> all[k] in all;
    }
  }

  function Rank(status: string): int {
    if status == "accepted" then 0
    else if status == "succeeded" || status == "skipped" then 2
    else if status == "failed" || status == "infrastructure_error" then 3
    else 1
  }

  /** What a run stores: a status and its rank, both absent until the first update. */
  datatype Stored = Stored(status: string, rank: Option<int>)

  predicate MayUpdate(stored: Stored, status: string) {
    || stored.rank.None?
    || (stored.rank.value < TERMINAL_RANK && Rank(status) >= stored.rank.value)
    || (Rank(status) == stored.rank.value && stored.status == status)
  }

  function Update(stored: Stored, status: string): Stored {
    if MayUpdate(stored, status) then Stored(status, Some(Rank(status))) else stored
  }

  function UpdateAll(stored: Stored, statuses: seq<string>): Stored {
    if statuses == [] then stored else Update(UpdateAll(stored, statuses[..|statuses| - 1]), statuses[|statuses| - 1])
  }

  /** A terminal status, once stored, survives every later update; before that the rank never falls. */
  lemma {:induction false} TerminalIsFinal(stored: Stored, statuses: seq<string>)
    requires stored.rank == Some(Rank(stored.status))
    ensures stored.rank.value >= TERMINAL_RANK ==> UpdateAll(stored, statuses) == stored
    ensures UpdateAll(stored, statuses).rank.Some? && UpdateAll(stored, statuses).rank.value >= stored.rank.value
  {
    if statuses != [] {
      TerminalIsFinal(stored, statuses[..|statuses| - 1]);
    }
  }
}
