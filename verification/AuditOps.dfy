/**
  One audit operation run by itself: what it decides from the comment it finds, and the writes it makes. A
  concurrent run is later shown to be a sequence of such operations, each possibly cut short.
 */
module AuditOps {
  import opened Wrappers
  import opened Text
  import opened AuditCodec
  import opened AuditComment
  import opened AuditMerge
  import opened AuditStore

  datatype Env = Env(scrub: Scrub, derive: Deriver, target: Target) {
    predicate Valid() { scrub.Valid() && target.Valid() }
  }

  /** Append a row, or set the status of a delivery's row (appending it when it is missing). */
  datatype Op = Record(entry: Entry) | SetStatus(delivery: string, status: string, command: Option<string>, when: string)

  predicate OpOk(op: Op) { TimeOk(if op.Record? then op.entry.when else op.when) }

  datatype Decision = Keep | Replace(body: string) | Reject

  predicate Contains(s: string, part: string) {
    exists i :: 0 <= i <= |s| - |part| && s[i..][..|part|] == part
  }

  function DecideRecord(env: Env, entry: Entry, existing: Option<string>): Decision {
    var found := if existing.Some? then existing.value else "";
    match Append(env.scrub, found, entry, env.target)
    case Err(_) => Reject
    case Ok(body) => if existing == Some(body) then Keep else Replace(body)
  }

  function DecideStatus(env: Env, delivery: string, status: string, command: Option<string>, when: string,
                        existing: Option<string>): Decision {
    var updated :=
      if existing.None? then Ok("") else UpdateStatus(env.scrub, existing.value, delivery, status, env.target);
    if updated.Err? || ParseRows(updated.value).Err? then Reject
    else if existing.Some? && DeliveryHasStatus(updated.value, delivery, status)
    then if existing == Some(updated.value) then Keep else Replace(updated.value)
    else if command.None? then Reject
    else
      var found := if existing.Some? && Contains(existing.value, Marker(env.target)) then existing.value else "";
      match Append(env.scrub, found, Entry(command.value, status, when, Some(delivery)), env.target)
      case Err(_) => Reject
      case Ok(body) =>
        if !DeliveryHasStatus(body, delivery, status) then Reject
        else if existing == Some(body) then Keep else Replace(body)
  }

  /** What the operation wants done with the comment it found. */
  function Decide(env: Env, op: Op, existing: Option<string>): Decision {
    match op
    case Record(entry) => DecideRecord(env, entry, existing)
    case SetStatus(delivery, status, command, when) => DecideStatus(env, delivery, status, command, when, existing)
  }

  // ---------------------------------------------------------------------------------------------
  // The comments of the pull request
  // ---------------------------------------------------------------------------------------------

  /** Comments and the number the next one gets; numbers are never used again. */
  datatype Store = Store(bodies: Comments, next: nat) {
    predicate Valid() { forall id :: id in bodies ==> id < next }
  }

  datatype Write = Put(id: nat, text: string) | Drop(id: nat) | Add(text: string)

  function Perform(store: Store, write: Write): Store {
    match write
    case Put(id, text) => if id in store.bodies then store.(bodies := store.bodies[id := text]) else store
    case Drop(id) => store.(bodies := store.bodies - {id})
    case Add(text) => Store(store.bodies[store.next := text], store.next + 1)
  }

  function PerformAll(store: Store, writes: seq<Write>): Store {
    if writes == [] then store
    else Perform(PerformAll(store, writes[..|writes| - 1]), writes[|writes| - 1])
  }

  /** The search matches the marker text anywhere, and then checks that the comment has an audit's shape. */
  predicate Listed(body: string, target: Target) { Contains(body, Marker(target)) && IsAudit(body) }

  function ListTo(bodies: Comments, n: nat, target: Target): seq<nat> {
    if n == 0 then []
    else ListTo(bodies, n - 1, target) + if n - 1 in bodies && Listed(bodies[n - 1], target) then [n - 1] else []
  }

  /** The pull request's audit comments, lowest number first. */
  function Listing(store: Store, target: Target): seq<nat> { ListTo(store.bodies, store.next, target) }

  function Drops(ids: seq<nat>): seq<Write> { seq(|ids|, k requires 0 <= k < |ids| => Drop(ids[k])) }

  function MergeWrites(ids: seq<nat>, text: string): seq<Write>
    requires ids != []
  {
    [Put(ids[0], text)] + Drops(ids[1..])
  }

  function FinalWrites(env: Env, op: Op, id: Option<nat>, existing: Option<string>): (writes: seq<Write>)
    ensures |writes| <= 1
  {
    match Decide(env, op, existing)
    case Replace(body) => if id.Some? then [Put(id.value, body)] else [Add(body)]
    case _ => []
  }

  /** Every write the operation makes when nobody else is there. */
  function Plan(env: Env, op: Op, store: Store): seq<Write> {
    var ids := Listing(store, env.target);
    if ids == [] then FinalWrites(env, op, None, None)
    else if |ids| == 1 then FinalWrites(env, op, Some(ids[0]), Some(BodyAt(store.bodies, ids[0])))
    else
      match TextFor(env.scrub, store.bodies, ids, env.derive, env.target)
      case Err(_) => []
      case Ok(text) => MergeWrites(ids, text) + FinalWrites(env, op, Some(ids[0]), Some(text))
  }

  // ---------------------------------------------------------------------------------------------
  // One after the other
  // ---------------------------------------------------------------------------------------------

  /** An operation and how many of its writes happened before it stopped. */
  datatype Tx = Tx(who: nat, op: Op, done: nat)

  function Take(writes: seq<Write>, n: nat): seq<Write> { if n < |writes| then writes[..n] else writes }

  function RunTx(env: Env, store: Store, tx: Tx): Store { PerformAll(store, Take(Plan(env, tx.op, store), tx.done)) }

  function Serial(env: Env, init: Store, log: seq<Tx>): Store {
    if log == [] then init
    else RunTx(env, Serial(env, init, log[..|log| - 1]), log[|log| - 1])
  }

  /** The last operation of the log made all its writes. */
  predicate Complete(env: Env, init: Store, log: seq<Tx>, k: nat)
    requires k < |log|
  {
    log[k].done >= |Plan(env, log[k].op, Serial(env, init, log[..k]))|
  }

  lemma SerialSnoc(env: Env, init: Store, log: seq<Tx>, tx: Tx)
    ensures Serial(env, init, log + [tx]) == RunTx(env, Serial(env, init, log), tx)
  {
    assert (log + [tx])[..|log|] == log;
  }

  lemma PerformSnoc(store: Store, writes: seq<Write>, n: nat)
    requires n < |writes|
    ensures PerformAll(store, Take(writes, n + 1)) == Perform(PerformAll(store, Take(writes, n)), writes[n])
  {
    assert Take(writes, n + 1)[..n] == Take(writes, n) && Take(writes, n + 1)[n] == writes[n];
  }

  lemma {:induction false} PerformAllValid(store: Store, writes: seq<Write>)
    requires store.Valid()
    ensures PerformAll(store, writes).Valid() && PerformAll(store, writes).next >= store.next
  {
    if writes != [] {
      PerformAllValid(store, writes[..|writes| - 1]);
    }
  }

  lemma {:induction false} SerialValid(env: Env, init: Store, log: seq<Tx>)
    requires init.Valid()
    ensures Serial(env, init, log).Valid()
  {
    if log != [] {
      var before := Serial(env, init, log[..|log| - 1]);
      SerialValid(env, init, log[..|log| - 1]);
      hide Plan;
      PerformAllValid(before, Take(Plan(env, log[|log| - 1].op, before), log[|log| - 1].done));
    }
  }

  // ---------------------------------------------------------------------------------------------
  // Listing
  // ---------------------------------------------------------------------------------------------

  lemma {:induction false} ListToIs(bodies: Comments, n: nat, target: Target)
    ensures var ids := ListTo(bodies, n, target);
            && (forall id :: id in ids <==> id < n && id in bodies && Listed(bodies[id], target))
            && (forall i, j :: 0 <= i < j < |ids| ==> ids[i] < ids[j])
  {
    hide Listed;
    if n > 0 {
      ListToIs(bodies, n - 1, target);
      var before, ids := ListTo(bodies, n - 1, target), ListTo(bodies, n, target);
      forall i, j | 0 <= i < j < |ids| ensures ids[i] < ids[j] {
        assert i < |before| && (j < |before| || ids[j] == n - 1);
        assert before[i] in before;
      }
    }
  }

  lemma {:induction false} ListToSame(bodies: Comments, later: Comments, n: nat, target: Target)
    requires forall id :: id < n ==> ((id in bodies && Listed(bodies[id], target)) <==> (id in later && Listed(later[id], target)))
    ensures ListTo(later, n, target) == ListTo(bodies, n, target)
  {
    hide Listed;
    if n > 0 {
      ListToSame(bodies, later, n - 1, target);
    }
  }

  /** What a search returns is all candidates: nothing more is filtered out when the bodies are read again. */
  lemma ListedAreCandidates(bodies: Comments, ids: seq<nat>, target: Target)
    requires forall id :: id in ids ==> id in bodies && Listed(bodies[id], target)
    ensures Candidates(bodies, ids) == ids
  {
    hide IsAudit, Contains;
    AllCandidates(bodies, ids);
  }

  lemma {:induction false} AllCandidates(bodies: Comments, ids: seq<nat>)
    requires forall id :: id in ids ==> IsAudit(BodyAt(bodies, id))
    ensures Candidates(bodies, ids) == ids
  {
    hide IsAudit, BodyAt;
    if ids != [] {
      AllCandidates(bodies, ids[1..]);
      assert ids[0] in ids && ids == [ids[0]] + ids[1..];
    }
  }

  lemma ListingAdd(store: Store, text: string, target: Target)
    requires store.Valid() && Listing(store, target) == [] && Listed(text, target)
    ensures Listing(Perform(store, Add(text)), target) == [store.next]
  {
    hide Listed;
    ListToIs(store.bodies, store.next, target);
    ListToSame(store.bodies, store.bodies[store.next := text], store.next, target);
  }

  // ---------------------------------------------------------------------------------------------
  // What is written is found again
  // ---------------------------------------------------------------------------------------------

  lemma {:induction false} JoinEndsWithLast(lines: seq<string>)
    requires lines != []
    ensures HasSuffix(JoinLines(lines), lines[|lines| - 1])
  {
    if |lines| > 1 {
      JoinEndsWithLast(lines[1..]);
      var rest := JoinLines(lines[1..]);
      var all := lines[0] + "\n" + rest;
      assert all[|all| - |rest|..] == rest;
      assert all[|all| - |lines[|lines| - 1]|..] == rest[|rest| - |lines[|lines| - 1]|..];
    }
  }

  lemma RenderedContainsMarker(scrub: Scrub, created: string, rows: seq<Row>, target: Target)
    ensures Contains(Rendered(scrub, created, rows, target), Marker(target))
  {
    var lines := CommentLines(scrub, created, rows, target);
    assert lines[|lines| - 1] == Marker(target);
    hide CommentLines, Marker;
    JoinEndsWithLast(lines);
    SuffixIsPart(JoinLines(lines), Marker(target));
  }

  lemma SuffixIsPart(s: string, part: string)
    requires HasSuffix(s, part)
    ensures Contains(s, part)
  {
    assert s[|s| - |part|..][..|part|] == part;
  }

  lemma FinishListed(scrub: Scrub, created: string, rows: seq<Row>, target: Target)
    requires Finish(scrub, created, rows, target).Ok?
    ensures Contains(Finish(scrub, created, rows, target).value, Marker(target))
  {
    hide Rendered, Contains, Marker, Clean;
    RenderedContainsMarker(scrub, created, Fit(scrub, created, LastRows(rows), target), target);
  }

  /** A comment of another pull request, or of none, is replaced by one that the next search finds. */
  lemma AppendListed(env: Env, body: string, entry: Entry)
    requires env.Valid() && EntryOk(entry)
    requires body == "" || !IsExpected(body, env.target)
    requires Append(env.scrub, body, entry, env.target).Ok?
    ensures Listed(Append(env.scrub, body, entry, env.target).value, env.target)
  {
    AppendStarts(env.scrub, body, entry, env.target);
    AppendStartsBy(env.scrub, body, entry, env.target);
    hide *;
    FinishListed(env.scrub, entry.when, [NewRow(env.scrub, entry)], env.target);
    ExpectedListed(Append(env.scrub, body, entry, env.target).value, env.target);
  }

  lemma ExpectedListed(body: string, target: Target)
    requires IsExpected(body, target) && Contains(body, Marker(target))
    ensures Listed(body, target)
  {
    hide Contains, Marker, SplitLines, ParseMarker;
  }

  /** A created comment is found by the next search. */
  lemma CreatedIsListed(env: Env, op: Op)
    requires env.Valid() && OpOk(op)
    requires Decide(env, op, None).Replace?
    ensures Listed(Decide(env, op, None).body, env.target)
  {
    hide Append, Listed, DeliveryHasStatus, ParseRows, UpdateStatus, TimeOk;
    if op.Record? {
      AppendListed(env, "", op.entry);
    } else {
      AppendListed(env, "", Entry(op.command.value, op.status, op.when, Some(op.delivery)));
    }
  }
}
