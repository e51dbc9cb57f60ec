/**
  Apply and destroy intents: a token is stored with everything its run will need, comment metadata is added
  later, and one confirmation may consume it. Confirming reads, checks, and then marks with a condition that
  repeats only some of the checks, so other calls can get in between.
 */
module Intents {
  import opened Wrappers

  const INTENT_RETENTION_SECONDS: int := 3600

  /** What the intent pins for one folder. */
  datatype Pin = Pin(folder: string, sourceRun: string, planHash: string, artifact: string, account: string, runtime: string, binding: string)

  /** What is fixed when the intent is stored. */
  datatype Pinned = Pinned(trigger: string, pr: int, action: string, commit: string, sourceRun: string, folders: seq<string>,
                           pins: seq<Pin>, expiresAt: int, pipeline: Option<string>, stepIndex: Option<int>, stepCount: Option<int>,
                           pipelineHash: Option<string>)

  datatype Metadata = Metadata(requestId: Option<int>, requestBody: Option<string>, intentId: Option<int>)

  /** A stored record. `birth` numbers the puts, so that two records stored under one token can be told apart. */
  datatype Item = Item(pinned: Pinned, metadata: Metadata, used: bool, birth: nat)

  type Items = map<string, Item>

  predicate MetadataReady(metadata: Metadata) { metadata.requestId.Some? && metadata.requestBody.Some? && metadata.intentId.Some? }

  function Merge(metadata: Metadata, more: Metadata): Metadata {
    Metadata(if more.requestId.Some? then more.requestId else metadata.requestId,
             if more.requestBody.Some? then more.requestBody else metadata.requestBody,
             if more.intentId.Some? then more.intentId else metadata.intentId)
  }

  /** The condition of the consuming update. It does not mention the action or the commit. */
  predicate Consumable(item: Item, trigger: string, pr: int, now: int) {
    !item.used && item.pinned.expiresAt > now && item.pinned.trigger == trigger && item.pinned.pr == pr && MetadataReady(item.metadata)
  }

  /** What a confirmation asks for. */
  datatype Request = Request(token: string, action: string, commit: string, trigger: string, pr: int)

  datatype Refusal = Unknown | WrongAction | NotReady | AlreadyUsed | Expired | WrongTrigger | WrongPullRequest | Moved | Conflict

  /** The checks on the record that was read, in their order; `fold` is lower-casing. */
  function Refusals(item: Item, request: Request, now: int, fold: string -> string): seq<Refusal> {
    if item.pinned.action != request.action then [WrongAction]
    else if !MetadataReady(item.metadata) then [NotReady]
    else
      (if item.used then [AlreadyUsed] else [])
      + (if now >= item.pinned.expiresAt then [Expired] else [])
      + (if item.pinned.trigger != request.trigger then [WrongTrigger] else [])
      + (if item.pinned.pr != request.pr then [WrongPullRequest] else [])
      + (if fold(request.commit) != fold(item.pinned.commit) then [Moved] else [])
  }

  /** What a confirmed intent hands to its run. */
  datatype Payload = Payload(token: string, pinned: Pinned, metadata: Metadata, birth: nat)

  // ---------------------------------------------------------------------------------------------
  // Whole runs
  // ---------------------------------------------------------------------------------------------

  /** A confirmation between its read and its mark. */
  datatype Confirming = Confirming(request: Request, read: Item)

  /** `births`, `taken` and `withdrawn` are history: what was stored, what was handed out, what was deleted unused. */
  datatype System = System(items: Items, confirming: map<nat, Confirming>, births: seq<(string, Pinned)>,
                           taken: seq<(Request, Payload)>, withdrawn: seq<nat>)

  datatype Event =
    | Put(token: string, pinned: Pinned, metadata: Metadata)
    | Describe(token: string, metadata: Metadata)
    | Check(id: nat, request: Request, now: int)
    | Mark(id: nat, now: int)
    | Withdraw(token: string)
    | Expire(token: string, clock: int)

  function Next(sys: System, event: Event, fold: string -> string): System {
    match event
    case Put(token, pinned, metadata) =>
      if token in sys.items then sys
      else sys.(items := sys.items[token := Item(pinned, metadata, false, |sys.births|)], births := sys.births + [(token, pinned)])
    case Describe(token, metadata) =>
      if token !in sys.items then sys
      else sys.(items := sys.items[token := sys.items[token].(metadata := Merge(sys.items[token].metadata, metadata))])
    case Check(id, request, now) =>
      if id in sys.confirming || request.token !in sys.items || Refusals(sys.items[request.token], request, now, fold) != [] then sys
      else sys.(confirming := sys.confirming[id := Confirming(request, sys.items[request.token])])
    case Mark(id, now) =>
      if id !in sys.confirming then sys
      else
        var request := sys.confirming[id].request;
        var rest := sys.(confirming := sys.confirming - {id});
        if request.token !in sys.items || !Consumable(sys.items[request.token], request.trigger, request.pr, now) then rest
        else
          var item := sys.items[request.token];
          rest.(items := sys.items[request.token := item.(used := true)],
                taken := sys.taken + [(request, Payload(request.token, item.pinned, item.metadata, item.birth))])
    case Withdraw(token) =>
      if token !in sys.items || sys.items[token].used then sys
      else sys.(items := sys.items - {token}, withdrawn := sys.withdrawn + [sys.items[token].birth])
    case Expire(token, clock) =>
      if token !in sys.items || sys.items[token].pinned.expiresAt + INTENT_RETENTION_SECONDS >= clock then sys
      else sys.(items := sys.items - {token})
  }

  function Run(sys: System, events: seq<Event>, fold: string -> string): System {
    if events == [] then sys else Next(Run(sys, events[..|events| - 1], fold), events[|events| - 1], fold)
  }

  predicate Initial(sys: System) { sys == System(map[], map[], [], [], []) }

  // ---------------------------------------------------------------------------------------------
  // One use, with what was stored
  // ---------------------------------------------------------------------------------------------

  /** Every live record is what was stored at its birth. */
  ghost predicate LiveOk(sys: System) {
    forall token :: token in sys.items ==>
      sys.items[token].birth < |sys.births| && sys.births[sys.items[token].birth] == (token, sys.items[token].pinned)
  }

  predicate ReadOk(births: seq<(string, Pinned)>, c: Confirming, fold: string -> string) {
    && c.read.birth < |births| && births[c.read.birth] == (c.request.token, c.read.pinned)
    && c.read.pinned.action == c.request.action && fold(c.request.commit) == fold(c.read.pinned.commit)
  }

  /** What a confirmation read was a record of its token, and passed the checks on action and commit. */
  ghost predicate ReadsOk(sys: System, fold: string -> string) {
    forall id :: id in sys.confirming ==> ReadOk(sys.births, sys.confirming[id], fold)
  }

  /** The record of this birth, if it is still there, is used up. */
  predicate Spent(sys: System, birth: nat) {
    && birth < |sys.births|
    && var token := sys.births[birth].0;
       token in sys.items && sys.items[token].birth == birth ==> sys.items[token].used
  }

  predicate HandedOut(births: seq<(string, Pinned)>, request: Request, payload: Payload) {
    && payload.birth < |births| && births[payload.birth] == (payload.token, payload.pinned) && payload.token == request.token
    && MetadataReady(payload.metadata) && payload.pinned.trigger == request.trigger && payload.pinned.pr == request.pr
  }

  /** What was handed out is what was stored, and each record was handed out once. */
  ghost predicate TakenOk(sys: System) {
    && (forall k :: 0 <= k < |sys.taken| ==> HandedOut(sys.births, sys.taken[k].0, sys.taken[k].1) && Spent(sys, sys.taken[k].1.birth))
    && (forall j, k :: 0 <= j < k < |sys.taken| ==> sys.taken[j].1.birth != sys.taken[k].1.birth)
  }

  predicate Gone(sys: System, birth: nat) {
    birth < |sys.births| && var token := sys.births[birth].0; token in sys.items ==> sys.items[token].birth != birth
  }

  /** What was withdrawn is gone and was never handed out. */
  ghost predicate WithdrawnOk(sys: System) {
    && (forall k :: 0 <= k < |sys.withdrawn| ==> Gone(sys, sys.withdrawn[k]))
    && (forall j, k :: 0 <= j < |sys.taken| && 0 <= k < |sys.withdrawn| ==> sys.taken[j].1.birth != sys.withdrawn[k])
  }

  ghost predicate Inv(sys: System, fold: string -> string) { LiveOk(sys) && ReadsOk(sys, fold) && TakenOk(sys) && WithdrawnOk(sys) }

  lemma LiveStays(sys: System, event: Event, fold: string -> string)
    requires LiveOk(sys)
    ensures LiveOk(Next(sys, event, fold))
  {
    hide Consumable, Merge, Refusals;
  }

  lemma ReadsStay(sys: System, event: Event, fold: string -> string)
    requires LiveOk(sys) && ReadsOk(sys, fold)
    ensures ReadsOk(Next(sys, event, fold), fold)
  {
    hide Consumable, Merge, MetadataReady;
  }

  lemma SpentStays(sys: System, event: Event, fold: string -> string, birth: nat)
    requires LiveOk(sys) && Spent(sys, birth)
    ensures Spent(Next(sys, event, fold), birth)
  {
    hide Consumable, Merge, Refusals;
  }

  lemma GoneStays(sys: System, event: Event, fold: string -> string, birth: nat)
    requires LiveOk(sys) && Gone(sys, birth)
    ensures Gone(Next(sys, event, fold), birth)
  {
    hide Consumable, Merge, Refusals;
  }

  lemma TakenStays(sys: System, event: Event, fold: string -> string)
    requires LiveOk(sys) && TakenOk(sys)
    ensures TakenOk(Next(sys, event, fold))
  {
    hide Merge, Refusals, Spent, MetadataReady;
    var after := Next(sys, event, fold);
    forall k | 0 <= k < |after.taken|
      ensures HandedOut(after.births, after.taken[k].0, after.taken[k].1) && Spent(after, after.taken[k].1.birth)
    {
      if k < |sys.taken| {
        SpentStays(sys, event, fold, sys.taken[k].1.birth);
      } else {
        TakenNow(sys, event.id, event.now, fold);
      }
    }
    if |after.taken| > |sys.taken| {
      TakenNow(sys, event.id, event.now, fold);
      forall k | 0 <= k < |sys.taken| ensures sys.taken[k].1.birth != after.taken[|sys.taken|].1.birth {
        NotSpentTwice(sys, sys.confirming[event.id].request.token, sys.taken[k].1.birth);
      }
    }
  }

  lemma NotSpentTwice(sys: System, token: string, birth: nat)
    requires LiveOk(sys) && token in sys.items && !sys.items[token].used && Spent(sys, birth)
    ensures sys.items[token].birth != birth
  {}

  /** The record that a mark hands out is the stored one, and it is spent from then on. */
  lemma TakenNow(sys: System, id: nat, now: int, fold: string -> string)
    requires LiveOk(sys) && |Next(sys, Mark(id, now), fold).taken| > |sys.taken|
    ensures var after := Next(sys, Mark(id, now), fold);
            && |after.taken| == |sys.taken| + 1
            && HandedOut(after.births, after.taken[|sys.taken|].0, after.taken[|sys.taken|].1)
            && Spent(after, after.taken[|sys.taken|].1.birth)
            && id in sys.confirming && sys.confirming[id].request.token in sys.items && !sys.items[sys.confirming[id].request.token].used
            && after.taken[|sys.taken|].1.birth == sys.items[sys.confirming[id].request.token].birth
  {
    hide MetadataReady;
  }

  lemma WithdrawnStays(sys: System, event: Event, fold: string -> string)
    requires LiveOk(sys) && TakenOk(sys) && WithdrawnOk(sys)
    ensures WithdrawnOk(Next(sys, event, fold))
  {
    hide Merge, Refusals, Spent, Gone, MetadataReady, HandedOut;
    var after := Next(sys, event, fold);
    forall k | 0 <= k < |after.withdrawn| ensures Gone(after, after.withdrawn[k]) {
      if k < |sys.withdrawn| {
        GoneStays(sys, event, fold, sys.withdrawn[k]);
      } else {
        GoneNow(sys, event.token, fold);
      }
    }
    if |after.withdrawn| > |sys.withdrawn| {
      forall j | 0 <= j < |sys.taken| ensures sys.taken[j].1.birth != after.withdrawn[|sys.withdrawn|] {
        NotSpentTwice(sys, event.token, sys.taken[j].1.birth);
      }
    }
    if |after.taken| > |sys.taken| {
      TakenNow(sys, event.id, event.now, fold);
      forall k | 0 <= k < |sys.withdrawn| ensures after.taken[|sys.taken|].1.birth != sys.withdrawn[k] {
        LiveIsNotGone(sys, sys.confirming[event.id].request.token, sys.withdrawn[k]);
      }
    }
  }

  lemma GoneNow(sys: System, token: string, fold: string -> string)
    requires LiveOk(sys) && token in sys.items && !sys.items[token].used
    ensures Gone(Next(sys, Withdraw(token), fold), sys.items[token].birth)
  {}

  lemma LiveIsNotGone(sys: System, token: string, birth: nat)
    requires LiveOk(sys) && token in sys.items && Gone(sys, birth)
    ensures sys.items[token].birth != birth
  {}

  lemma {:induction false} InvHolds(sys: System, events: seq<Event>, fold: string -> string)
    requires Initial(sys)
    ensures Inv(Run(sys, events, fold), fold)
  {
    if events != [] {
      hide Next, LiveOk, ReadsOk, TakenOk, WithdrawnOk;
      InvHolds(sys, events[..|events| - 1], fold);
      var before, event := Run(sys, events[..|events| - 1], fold), events[|events| - 1];
      LiveStays(before, event, fold);
      ReadsStay(before, event, fold);
      TakenStays(before, event, fold);
      WithdrawnStays(before, event, fold);
    }
  }

  /**
    One-shot intents. However puts, descriptions, concurrent confirmations, withdrawals and expirations are
    interleaved: each stored record is handed out at most once, never after it was withdrawn, and what is handed
    out is exactly what was stored, for the trigger and pull request that asked.
   */
  lemma HandedOutOnce(sys: System, events: seq<Event>, fold: string -> string, j: nat, k: nat)
    requires Initial(sys) && j < |Run(sys, events, fold).taken| && k < |Run(sys, events, fold).taken|
    ensures var end := Run(sys, events, fold);
            && HandedOut(end.births, end.taken[j].0, end.taken[j].1)
            && end.taken[j].1.birth !in end.withdrawn
            && (end.taken[j].1.birth == end.taken[k].1.birth ==> j == k)
  {
    InvHolds(sys, events, fold);
    hide Run, HandedOut;
  }

  // ---------------------------------------------------------------------------------------------
  // Action and commit
  // ---------------------------------------------------------------------------------------------

  /** The payload's action and commit are what the confirmation asked for. */
  predicate Matches(request: Request, payload: Payload, fold: string -> string) {
    payload.pinned.action == request.action && fold(payload.pinned.commit) == fold(request.commit)
  }

  /** No token is stored a second time. */
  ghost predicate TokensFresh(births: seq<(string, Pinned)>) { forall i, j :: 0 <= i < j < |births| ==> births[i].0 != births[j].0 }

  ghost predicate AllMatch(sys: System, fold: string -> string) {
    TokensFresh(sys.births) ==> forall k :: 0 <= k < |sys.taken| ==> Matches(sys.taken[k].0, sys.taken[k].1, fold)
  }

  lemma MatchStays(sys: System, event: Event, fold: string -> string)
    requires LiveOk(sys) && ReadsOk(sys, fold) && AllMatch(sys, fold)
    ensures AllMatch(Next(sys, event, fold), fold)
  {
    hide Merge, Refusals, MetadataReady;
    var after := Next(sys, event, fold);
    if TokensFresh(after.births) {
      assert TokensFresh(sys.births) by {
        assert forall k :: 0 <= k < |sys.births| ==> sys.births[k] == after.births[k];
      }
      if |after.taken| > |sys.taken| {
        var c := sys.confirming[event.id];
        var item := sys.items[c.request.token];
        assert ReadOk(sys.births, c, fold);
        assert sys.births[c.read.birth].0 == sys.births[item.birth].0;
      }
    }
  }

  /**
    The marking condition checks neither action nor commit, yet as long as no token is stored twice the record
    that is handed out is the one that was checked, so it has the action and the commit that were asked for.
   */
  lemma {:induction false} FreshTokensMatch(sys: System, events: seq<Event>, fold: string -> string)
    requires Initial(sys)
    ensures AllMatch(Run(sys, events, fold), fold)
  {
    if events != [] {
      FreshTokensMatch(sys, events[..|events| - 1], fold);
      InvHolds(sys, events[..|events| - 1], fold);
      hide Next, LiveOk, ReadsOk, TakenOk, WithdrawnOk, AllMatch;
      MatchStays(Run(sys, events[..|events| - 1], fold), events[|events| - 1], fold);
    }
  }

  /** The record now stored under a confirmation's token is the one it read, or a later one. */
  ghost predicate ReadsNotAhead(sys: System) {
    forall id :: id in sys.confirming && sys.confirming[id].request.token in sys.items ==>
      sys.items[sys.confirming[id].request.token].birth >= sys.confirming[id].read.birth
  }

  lemma NotAheadStays(sys: System, event: Event, fold: string -> string)
    requires ReadsOk(sys, fold) && ReadsNotAhead(sys)
    ensures ReadsNotAhead(Next(sys, event, fold))
  {
    hide Consumable, Merge, Refusals, MetadataReady;
  }

  lemma {:induction false} NotAheadHolds(sys: System, events: seq<Event>, fold: string -> string)
    requires Initial(sys)
    ensures ReadsNotAhead(Run(sys, events, fold))
  {
    if events != [] {
      NotAheadHolds(sys, events[..|events| - 1], fold);
      InvHolds(sys, events[..|events| - 1], fold);
      hide Next, LiveOk, ReadsOk, TakenOk, WithdrawnOk, ReadsNotAhead;
      NotAheadStays(Run(sys, events[..|events| - 1], fold), events[|events| - 1], fold);
    }
  }

  /** The record was stored after the one that was read, with another action or another commit. */
  predicate Replaced(read: Item, pinned: Pinned, birth: nat, fold: string -> string) {
    birth > read.birth && (pinned.action != read.pinned.action || fold(pinned.commit) != fold(read.pinned.commit))
  }

  lemma MismatchHere(sys: System, id: nat, now: int, fold: string -> string)
    requires LiveOk(sys) && ReadsOk(sys, fold) && ReadsNotAhead(sys)
    requires |Next(sys, Mark(id, now), fold).taken| > |sys.taken|
    ensures var (request, payload) := Next(sys, Mark(id, now), fold).taken[|sys.taken|];
            id in sys.confirming && request == sys.confirming[id].request
            && (!Matches(request, payload, fold) <==> Replaced(sys.confirming[id].read, payload.pinned, payload.birth, fold))
  {
    hide Merge, Refusals, MetadataReady;
    var c := sys.confirming[id];
    assert ReadOk(sys.births, c, fold);
  }

  /**
    When the payload is not what was asked for, after any run: a mark hands out another action or commit if and only
    if the record it consumes was stored after the one that its check read, and differs from it there.
   */
  lemma MismatchExactly(sys: System, events: seq<Event>, id: nat, now: int, fold: string -> string)
    requires Initial(sys)
    requires var before := Run(sys, events, fold); |Next(before, Mark(id, now), fold).taken| > |before.taken|
    ensures var before := Run(sys, events, fold);
            var (request, payload) := Next(before, Mark(id, now), fold).taken[|before.taken|];
            id in before.confirming && request == before.confirming[id].request
            && (!Matches(request, payload, fold) <==> Replaced(before.confirming[id].read, payload.pinned, payload.birth, fold))
  {
    hide Next, LiveOk, ReadsOk, TakenOk, WithdrawnOk, ReadsNotAhead, Matches, Replaced;
    InvHolds(sys, events, fold);
    NotAheadHolds(sys, events, fold);
    MismatchHere(Run(sys, events, fold), id, now, fold);
  }

  /**
    It does happen when a token is used again: one whose record was withdrawn and stored again between the check and the mark
    hands out the other action.
   */
  lemma ReusedTokenMismatches(first: Pinned, second: Pinned, ready: Metadata, token: string, now: int, fold: string -> string)
    requires first.action != second.action && first.trigger == second.trigger && first.pr == second.pr && MetadataReady(ready)
    requires first.expiresAt > now && second.expiresAt > now
    ensures var request := Request(token, first.action, first.commit, first.trigger, first.pr);
            var events := [Put(token, first, ready), Check(0, request, now), Withdraw(token), Put(token, second, ready), Mark(0, now)];
            var end := Run(System(map[], map[], [], [], []), events, fold);
            |end.taken| == 1 && !Matches(end.taken[0].0, end.taken[0].1, fold)
  {
    var request := Request(token, first.action, first.commit, first.trigger, first.pr);
    var events := [Put(token, first, ready), Check(0, request, now), Withdraw(token), Put(token, second, ready), Mark(0, now)];
    var s0 := System(map[], map[], [], [], []);
    var s1 := Next(s0, events[0], fold);
    var s2 := Next(s1, events[1], fold);
    var s3 := Next(s2, events[2], fold);
    var s4 := Next(s3, events[3], fold);
    assert events[..4][..3] == events[..3] && events[..3][..2] == events[..2] && events[..2][..1] == events[..1] && events[..1][..0] == [];
    assert Run(s0, events[..1], fold) == s1;
    assert Run(s0, events[..2], fold) == s2;
    assert Run(s0, events[..3], fold) == s3;
    assert Run(s0, events[..4], fold) == s4;
  }
}
