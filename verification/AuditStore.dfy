/**
  Merging on the comments themselves. Reading comes first and changes nothing; then one update and several
  deletions follow, and the process may stop after any of these writes.
 */
module AuditStore {
  import opened Wrappers
  import opened Text
  import opened AuditCodec
  import opened AuditComment
  import opened AuditMerge

  /** The comments of one pull request that the bot wrote, by number. */
  type Comments = map<nat, string>

  datatype Outcome = Merged(text: string) | Failed(error: AuditError) | NothingToMerge | Stopped

  function BodyAt(bodies: Comments, id: nat): string { if id in bodies then bodies[id] else "" }

  function Candidates(bodies: Comments, ids: seq<nat>): seq<nat> {
    if ids == [] then []
    else (if IsAudit(BodyAt(bodies, ids[0])) then [ids[0]] else []) + Candidates(bodies, ids[1..])
  }

  function ReadSources(bodies: Comments, ids: seq<nat>): Result<seq<Source>, AuditError> {
    if ids == [] then Ok([])
    else
      match ParseRows(BodyAt(bodies, ids[0]))
      case Err(e) => Err(e)
      case Ok(rows) =>
        var rest := ReadSources(bodies, ids[1..]);
        if rest.Err? then rest else Ok([Source(ids[0], rows)] + rest.value)
  }

  /** The text a merge of these comments writes into the first of them. */
  function TextFor(scrub: Scrub, bodies: Comments, ids: seq<nat>, derive: Deriver, target: Target): Result<string, AuditError>
    requires ids != []
  {
    match ParseCreated(SplitLines(BodyAt(bodies, ids[0])))
    case Err(e) => Err(e)
    case Ok(created) =>
      match ReadSources(bodies, ids)
      case Err(e) => Err(e)
      case Ok(sources) => MergedText(scrub, created, sources, derive, target)
  }

  function Prefix(ids: seq<nat>, n: nat): seq<nat> { if n < |ids| then ids[..n] else ids }

  function Members(ids: seq<nat>): set<nat> { set id | id in ids }

  /** The comments after `writes` of the merge's writes have happened. */
  function AfterMerge(scrub: Scrub, bodies: Comments, ids: seq<nat>, derive: Deriver, target: Target, writes: nat): Comments {
    var found := Candidates(bodies, ids);
    if found == [] || writes == 0 then bodies else
    var text := TextFor(scrub, bodies, found, derive, target);
    if text.Err? then bodies
    else bodies[found[0] := text.value] - Members(Prefix(found[1..], writes - 1))
  }

  function OutcomeOf(scrub: Scrub, bodies: Comments, ids: seq<nat>, derive: Deriver, target: Target, writes: nat): Outcome {
    var found := Candidates(bodies, ids);
    if found == [] then NothingToMerge else
    var text := TextFor(scrub, bodies, found, derive, target);
    if text.Err? then Failed(text.error) else if writes < |found| then Stopped else Merged(text.value)
  }

  class CommentStore {
    var bodies: Comments

    constructor (bodies: Comments)
      ensures this.bodies == bodies
    {
      this.bodies := bodies;
    }

    /** Merge the listed comments; the call after `writes` writes fails and ends the merge. */
    method MergeExisting(scrub: Scrub, ids: seq<nat>, derive: Deriver, target: Target, writes: nat) returns (outcome: Outcome)
      modifies this
      ensures bodies == AfterMerge(scrub, old(bodies), ids, derive, target, writes)
      ensures outcome == OutcomeOf(scrub, old(bodies), ids, derive, target, writes)
    {
      hide IsAudit, ParseRows, ParseCreated, SplitLines, MergedText, BodyAt;
      var found := CollectCandidates(ids);
      if found == [] {
        return NothingToMerge;
      }
      var created := ParseCreated(SplitLines(BodyAt(bodies, found[0])));
      if created.Err? {
        return Failed(created.error);
      }
      var sources := CollectSources(found);
      if sources.Err? {
        return Failed(sources.error);
      }
      var text := MergedText(scrub, created.value, sources.value, derive, target);
      if text.Err? {
        return Failed(text.error);
      }
      if writes == 0 {
        return Stopped;
      }
      var extras := found[1..];
      bodies := bodies[found[0] := text.value];
      ghost var kept := bodies;
      var i := 0;
      while i < |extras|
        invariant 0 <= i <= |extras| && i < writes
        invariant bodies == kept - Members(extras[..i])
      {
        if writes == i + 1 {
          return Stopped;
        }
        assert extras[..i + 1] == extras[..i] + [extras[i]];
        MembersAppend(extras[..i], extras[i]);
        bodies := bodies - {extras[i]};
        i := i + 1;
      }
      assert extras[..i] == extras;
      outcome := Merged(text.value);
    }

    /** Keep the comments that still are audit comments. */
    method CollectCandidates(ids: seq<nat>) returns (found: seq<nat>)
      ensures found == Candidates(bodies, ids)
    {
      hide IsAudit;
      found := [];
      var i := 0;
      assert ids[0..] == ids;
      while i < |ids|
        invariant 0 <= i <= |ids|
        invariant found + Candidates(bodies, ids[i..]) == Candidates(bodies, ids)
      {
        assert ids[i..][1..] == ids[i + 1..];
        if IsAudit(BodyAt(bodies, ids[i])) {
          assert (found + [ids[i]]) + Candidates(bodies, ids[i + 1..]) == found + ([ids[i]] + Candidates(bodies, ids[i + 1..]));
          found := found + [ids[i]];
        } else {
          assert [] + Candidates(bodies, ids[i + 1..]) == Candidates(bodies, ids[i + 1..]);
        }
        i := i + 1;
      }
      assert ids[i..] == [] && found + [] == found;
    }

    method CollectSources(ids: seq<nat>) returns (sources: Result<seq<Source>, AuditError>)
      ensures sources == ReadSources(bodies, ids)
    {
      hide *;
      var read: seq<Source> := [];
      var i := 0;
      ghost var todo := ReadSources(bodies, ids);
      assert ids[0..] == ids && (todo.Ok? ==> todo.value == read + todo.value);
      while i < |ids|
        invariant 0 <= i <= |ids|
        invariant todo == ReadSources(bodies, ids[i..])
        invariant ReadSources(bodies, ids) == if todo.Err? then todo else Ok(read + todo.value)
      {
        var rows := ParseRows(BodyAt(bodies, ids[i]));
        ReadStep(bodies, ids, i);
        if rows.Err? {
          return Err(rows.error);
        }
        ghost var rest := ReadSources(bodies, ids[i + 1..]);
        var one := Source(ids[i], rows.value);
        assert rest.Ok? ==> read + ([one] + rest.value) == (read + [one]) + rest.value;
        read := read + [one];
        i := i + 1;
        todo := rest;
      }
      ReadNothing(bodies);
      assert ids[i..] == [] && read + [] == read;
      sources := Ok(read);
    }
  }

  lemma ReadNothing(bodies: Comments)
    ensures ReadSources(bodies, []) == Ok([])
  {}

  lemma ReadStep(bodies: Comments, ids: seq<nat>, i: nat)
    requires i < |ids|
    ensures ReadSources(bodies, ids[i..]) ==
            match ParseRows(BodyAt(bodies, ids[i]))
            case Err(e) => Err(e)
            case Ok(rows) =>
              var rest := ReadSources(bodies, ids[i + 1..]);
              if rest.Err? then rest else Ok([Source(ids[i], rows)] + rest.value)
  {
    hide ParseRows, BodyAt;
    assert ids[i..][1..] == ids[i + 1..];
  }

  lemma MembersAppend(ids: seq<nat>, id: nat)
    ensures Members(ids + [id]) == Members(ids) + {id}
  {}

  // ---------------------------------------------------------------------------------------------
  // Stopping anywhere and merging again
  // ---------------------------------------------------------------------------------------------

  ghost predicate NoRepeats(ids: seq<nat>) { forall i, j :: 0 <= i < j < |ids| ==> ids[i] != ids[j] }

  lemma {:induction false} CandidatesAre(bodies: Comments, ids: seq<nat>)
    ensures var found := Candidates(bodies, ids);
            && (forall id :: id in found <==> id in ids && IsAudit(BodyAt(bodies, id)))
            && (NoRepeats(ids) ==> NoRepeats(found))
  {
    hide IsAudit, BodyAt;
    if ids != [] {
      CandidatesAre(bodies, ids[1..]);
      var found, rest := Candidates(bodies, ids), Candidates(bodies, ids[1..]);
      assert forall id :: id in ids <==> id == ids[0] || id in ids[1..];
      if NoRepeats(ids) {
        assert forall k :: 0 <= k < |ids[1..]| ==> ids[1..][k] == ids[k + 1];
        assert ids[0] !in rest;
      }
    }
  }

  /** What a stop after `deleted` deletions leaves. */
  function Half(bodies: Comments, found: seq<nat>, text: string, deleted: nat): Comments
    requires found != [] && deleted < |found|
  {
    bodies[found[0] := text] - Members(found[1..deleted + 1])
  }

  lemma {:induction false} CandidatesSkip(bodies: Comments, later: Comments, ids: seq<nat>)
    requires forall id :: id in ids ==> (IsAudit(BodyAt(bodies, id)) <==> IsAudit(BodyAt(later, id)))
    ensures Candidates(later, ids) == Candidates(bodies, ids)
  {
    hide IsAudit, BodyAt;
    if ids != [] {
      assert ids[0] in ids;
      CandidatesSkip(bodies, later, ids[1..]);
    }
  }

  lemma {:induction false} CandidatesDrop(bodies: Comments, later: Comments, ids: seq<nat>, gone: seq<nat>, rest: seq<nat>)
    requires NoRepeats(ids) && Candidates(bodies, ids) == gone + rest
    requires forall id :: id in gone ==> !IsAudit(BodyAt(later, id))
    requires forall id :: id in ids && id !in gone ==> (IsAudit(BodyAt(bodies, id)) <==> IsAudit(BodyAt(later, id)))
    ensures Candidates(later, ids) == rest
  {
    CandidatesAre(bodies, ids);
    hide IsAudit, BodyAt;
    if gone == [] {
      assert gone + rest == rest;
      CandidatesSkip(bodies, later, ids);
    } else if ids != [] {
      var tail := ids[1..];
      assert forall k :: 0 <= k < |tail| ==> tail[k] == ids[k + 1];
      assert ids[0] in ids;
      CandidatesAre(bodies, tail);
      if IsAudit(BodyAt(bodies, ids[0])) {
        var found := Candidates(bodies, ids);
        assert found == [ids[0]] + Candidates(bodies, tail);
        assert found[0] == gone[0] == ids[0];
        assert found[1..] == Candidates(bodies, tail) == gone[1..] + rest;
        CandidatesDrop(bodies, later, tail, gone[1..], rest);
      } else {
        assert Candidates(bodies, ids) == Candidates(bodies, tail);
        assert ids[0] !in gone by { assert forall id :: id in gone ==> id in gone + rest; }
        CandidatesDrop(bodies, later, tail, gone, rest);
      }
    }
  }

  lemma {:induction false} ReadSame(bodies: Comments, later: Comments, ids: seq<nat>)
    requires forall id :: id in ids ==> BodyAt(bodies, id) == BodyAt(later, id)
    ensures ReadSources(bodies, ids) == ReadSources(later, ids)
  {
    hide ParseRows, BodyAt;
    if ids != [] {
      assert ids[0] in ids;
      ReadSame(bodies, later, ids[1..]);
    }
  }

  lemma {:induction false} ReadSuffix(bodies: Comments, ids: seq<nat>, n: nat)
    requires n <= |ids| && ReadSources(bodies, ids).Ok?
    ensures |ReadSources(bodies, ids).value| == |ids|
    ensures ReadSources(bodies, ids[n..]) == Ok(ReadSources(bodies, ids).value[n..])
  {
    hide ParseRows, BodyAt;
    if n == 0 {
      assert ids[0..] == ids;
      if ids != [] {
        ReadSuffix(bodies, ids[1..], 0);
      }
    } else {
      ReadSuffix(bodies, ids[1..], n - 1);
      assert ids[1..][n - 1..] == ids[n..];
      var rest := ReadSources(bodies, ids[1..]).value;
      assert ReadSources(bodies, ids).value[n..] == rest[n - 1..];
    }
  }

  lemma {:induction false} ReadRowsOk(bodies: Comments, ids: seq<nat>)
    requires ReadSources(bodies, ids).Ok?
    ensures forall s :: s in ReadSources(bodies, ids).value ==> RowsOk(s.rows)
  {
    hide ParseRows, BodyAt, RowsOk;
    if ids != [] {
      ReadRowsOk(bodies, ids[1..]);
      ParsedRowsOk(BodyAt(bodies, ids[0]));
    }
  }

  lemma ExpectedIsAudit(body: string, target: Target)
    requires IsExpected(body, target)
    ensures IsAudit(body)
  {}

  lemma EmptyIsNotAudit()
    ensures !IsAudit("")
  {
    assert SplitLines("") == [];
  }

  /** A merge found something, could read all of it, and its text fits. */
  ghost predicate Mergeable(scrub: Scrub, bodies: Comments, ids: seq<nat>, derive: Deriver, target: Target) {
    && scrub.Valid() && target.Valid() && NoRepeats(ids)
    && (forall id: nat, n: nat :: HiddenIdOk(derive(id, n)))
    && Candidates(bodies, ids) != []
    && TextFor(scrub, bodies, Candidates(bodies, ids), derive, target).Ok?
  }

  function Created(bodies: Comments, ids: seq<nat>): string
    requires ids != []
  {
    var created := ParseCreated(SplitLines(BodyAt(bodies, ids[0])));
    if created.Ok? then created.value else ""
  }

  function Sources(bodies: Comments, ids: seq<nat>): seq<Source> {
    var sources := ReadSources(bodies, ids);
    if sources.Ok? then sources.value else []
  }

  lemma TextForIs(scrub: Scrub, bodies: Comments, found: seq<nat>, derive: Deriver, target: Target)
    requires found != [] && TextFor(scrub, bodies, found, derive, target).Ok?
    requires forall id: nat, n: nat :: HiddenIdOk(derive(id, n))
    ensures ParseCreated(SplitLines(BodyAt(bodies, found[0]))) == Ok(Created(bodies, found)) && CreatedOk(Created(bodies, found))
    ensures ReadSources(bodies, found) == Ok(Sources(bodies, found)) && SourcesOk(Sources(bodies, found), derive)
    ensures TextFor(scrub, bodies, found, derive, target)
         == MergedText(scrub, Created(bodies, found), Sources(bodies, found), derive, target)
  {
    hide MergedText, ParseCreated, ParseRows, IsAudit, SplitLines, BodyAt, ReadSources, HiddenIdOk, RowsOk, CreatedOk, OneLine;
    ReadRowsOk(bodies, found);
    ParsedCreatedOk(SplitLines(BodyAt(bodies, found[0])));
  }

  lemma HalfBodies(bodies: Comments, found: seq<nat>, text: string, deleted: nat, id: nat)
    requires found != [] && deleted < |found| && NoRepeats(found)
    ensures var half := Half(bodies, found, text, deleted);
            && (id == found[0] ==> BodyAt(half, id) == text)
            && (id in found[1..deleted + 1] ==> BodyAt(half, id) == "" && id != found[0])
            && (id != found[0] && id !in found[1..deleted + 1] ==> BodyAt(half, id) == BodyAt(bodies, id))
  {
    if id in found[1..deleted + 1] {
      var k :| 0 <= k < deleted && found[1..deleted + 1][k] == id;
      assert found[k + 1] == id;
    }
  }

  /** Where the first candidate stands among the listed ids. */
  lemma {:induction false} HeadCandidate(bodies: Comments, ids: seq<nat>) returns (at: nat)
    requires Candidates(bodies, ids) != []
    ensures at < |ids| && ids[at] == Candidates(bodies, ids)[0]
    ensures Candidates(bodies, ids[at + 1..]) == Candidates(bodies, ids)[1..]
    ensures forall k :: 0 <= k < at ==> !IsAudit(BodyAt(bodies, ids[k]))
  {
    hide IsAudit, BodyAt;
    if IsAudit(BodyAt(bodies, ids[0])) {
      at := 0;
    } else {
      var before := HeadCandidate(bodies, ids[1..]);
      at := before + 1;
      assert ids[1..][before + 1..] == ids[at + 1..];
      forall k | 0 <= k < at ensures !IsAudit(BodyAt(bodies, ids[k])) {
        assert k > 0 ==> ids[k] == ids[1..][k - 1];
      }
    }
  }

  lemma {:induction false} SkipToHead(bodies: Comments, ids: seq<nat>, at: nat)
    requires at < |ids| && IsAudit(BodyAt(bodies, ids[at])) && forall k :: 0 <= k < at ==> !IsAudit(BodyAt(bodies, ids[k]))
    ensures Candidates(bodies, ids) == [ids[at]] + Candidates(bodies, ids[at + 1..])
  {
    hide IsAudit, BodyAt;
    if at > 0 {
      forall k | 0 <= k < at - 1 ensures !IsAudit(BodyAt(bodies, ids[1..][k])) {
        assert ids[1..][k] == ids[k + 1];
      }
      SkipToHead(bodies, ids[1..], at - 1);
      assert ids[1..][at..] == ids[at + 1..];
    }
  }

  lemma NoRepeatsSuffix(ids: seq<nat>, n: nat)
    requires NoRepeats(ids) && n <= |ids|
    ensures NoRepeats(ids[n..])
    ensures forall id :: id in ids[n..] ==> id in ids
    ensures n > 0 ==> ids[n - 1] !in ids[n..]
  {
    var tail := ids[n..];
    forall i, j | 0 <= i < j < |tail| ensures tail[i] != tail[j] {
      assert tail[i] == ids[n + i] && tail[j] == ids[n + j];
    }
  }

  lemma NotFoundUnchanged(bodies: Comments, found: seq<nat>, ids: seq<nat>, text: string, deleted: nat, id: nat)
    requires found == Candidates(bodies, ids) && found != [] && deleted < |found| && NoRepeats(ids)
    requires id in ids && !IsAudit(BodyAt(bodies, id))
    ensures !IsAudit(BodyAt(Half(bodies, found, text, deleted), id))
  {
    CandidatesAre(bodies, ids);
    hide IsAudit, BodyAt, Half, Candidates;
    assert id !in found;
    HalfBodies(bodies, found, text, deleted, id);
  }

  /** After a stop the candidates are the first one and those not deleted yet. */
  lemma HalfCandidates(bodies: Comments, ids: seq<nat>, text: string, deleted: nat)
    requires NoRepeats(ids) && deleted < |Candidates(bodies, ids)| && IsAudit(text)
    ensures var found := Candidates(bodies, ids);
            Candidates(Half(bodies, found, text, deleted), ids) == [found[0]] + found[deleted + 1..]
  {
    CandidatesAre(bodies, ids);
    EmptyIsNotAudit();
    hide IsAudit, BodyAt, Half, Candidates;
    var found := Candidates(bodies, ids);
    var half := Half(bodies, found, text, deleted);
    var at := HeadCandidate(bodies, ids);
    var tail := ids[at + 1..];
    forall k | 0 <= k < at ensures !IsAudit(BodyAt(half, ids[k])) {
      NotFoundUnchanged(bodies, found, ids, text, deleted, ids[k]);
    }
    HalfBodies(bodies, found, text, deleted, found[0]);
    SkipToHead(half, ids, at);
    NoRepeatsSuffix(ids, at + 1);
    var gone := found[1..deleted + 1];
    assert found[1..] == gone + found[deleted + 1..];
    forall id | id in gone ensures !IsAudit(BodyAt(half, id)) {
      HalfBodies(bodies, found, text, deleted, id);
    }
    forall id | id in tail && id !in gone ensures IsAudit(BodyAt(bodies, id)) <==> IsAudit(BodyAt(half, id)) {
      HalfBodies(bodies, found, text, deleted, id);
    }
    CandidatesDrop(bodies, half, tail, gone, found[deleted + 1..]);
  }

  /**
    Where the store stands after a stop, and what a second merge reads from it: the rewritten first comment with
    its kept rows, and the comments not deleted yet as they were.
   */
  lemma HalfReads(scrub: Scrub, bodies: Comments, ids: seq<nat>, derive: Deriver, target: Target, deleted: nat)
    requires Mergeable(scrub, bodies, ids, derive, target) && deleted < |Candidates(bodies, ids)|
    ensures var found := Candidates(bodies, ids);
            var text := TextFor(scrub, bodies, found, derive, target).value;
            var half := Half(bodies, found, text, deleted);
            var created, sources := Created(bodies, found), Sources(bodies, found);
            var kept := KeptRows(scrub, created, sources, derive, target);
            && |sources| == |found|
            && Candidates(half, ids) == [found[0]] + found[deleted + 1..]
            && TextFor(scrub, half, Candidates(half, ids), derive, target)
               == MergedText(scrub, created, Restarted(kept, found[0], sources[deleted + 1..]), derive, target)
  {
    MergeableParts(scrub, bodies, ids, derive, target);
    hide *;
    var found := Candidates(bodies, ids);
    var text := TextFor(scrub, bodies, found, derive, target).value;
    var half := Half(bodies, found, text, deleted);
    var created, sources := Created(bodies, found), Sources(bodies, found);
    var kept := KeptRows(scrub, created, sources, derive, target);
    KeeperReadsBack(scrub, created, sources, derive, target);
    ExpectedIsAudit(text, target);
    HalfCandidates(bodies, ids, text, deleted);
    ReadSuffix(bodies, found, deleted + 1);
    HalfBodies(bodies, found, text, deleted, found[0]);
    HalfKeepsRest(bodies, found, text, deleted);
    ReadSame(bodies, half, found[deleted + 1..]);
    ReadAgain(scrub, half, found[0], found[deleted + 1..], created, kept, sources[deleted + 1..], derive, target);
  }

  lemma MergeableParts(scrub: Scrub, bodies: Comments, ids: seq<nat>, derive: Deriver, target: Target)
    requires Mergeable(scrub, bodies, ids, derive, target)
    ensures var found := Candidates(bodies, ids);
            && found != [] && NoRepeats(found) && NoRepeats(ids) && scrub.Valid() && target.Valid()
            && CreatedOk(Created(bodies, found)) && SourcesOk(Sources(bodies, found), derive)
            && ReadSources(bodies, found) == Ok(Sources(bodies, found))
            && TextFor(scrub, bodies, found, derive, target).Ok?
            && TextFor(scrub, bodies, found, derive, target)
               == MergedText(scrub, Created(bodies, found), Sources(bodies, found), derive, target)
  {
    hide MergedText, Candidates, TextFor, ReadSources, Created, Sources, SourcesOk, CreatedOk, HiddenIdOk;
    CandidatesAre(bodies, ids);
    TextForIs(scrub, bodies, Candidates(bodies, ids), derive, target);
  }

  lemma HalfKeepsRest(bodies: Comments, found: seq<nat>, text: string, deleted: nat)
    requires NoRepeats(found) && deleted < |found|
    ensures forall id :: id in found[deleted + 1..] ==> BodyAt(bodies, id) == BodyAt(Half(bodies, found, text, deleted), id)
  {
    hide BodyAt, Half;
    var left := found[deleted + 1..];
    forall id | id in left ensures BodyAt(bodies, id) == BodyAt(Half(bodies, found, text, deleted), id) {
      HalfBodies(bodies, found, text, deleted, id);
      var k :| 0 <= k < |left| && left[k] == id;
      assert found[deleted + 1 + k] == id;
    }
  }

  lemma ReadAgain(scrub: Scrub, half: Comments, keeper: nat, left: seq<nat>, created: string, kept: seq<Row>,
                  sources: seq<Source>, derive: Deriver, target: Target)
    requires ParseCreated(SplitLines(BodyAt(half, keeper))) == Ok(created)
    requires ParseRows(BodyAt(half, keeper)) == Ok(kept) && ReadSources(half, left) == Ok(sources)
    ensures TextFor(scrub, half, [keeper] + left, derive, target)
         == MergedText(scrub, created, Restarted(kept, keeper, sources), derive, target)
  {
    hide MergedText, ParseCreated, ParseRows, SplitLines, BodyAt;
    var again := [keeper] + left;
    assert again[0] == keeper && again[1..] == left;
    assert ReadSources(half, again) == Ok([Source(keeper, kept)] + sources);
  }

  /**
    What makes a rerun leave what an uninterrupted merge leaves: the rows of the comments left are represented in the
    first one, and its commands are fixed points of cleaning. (When no comment is left, the merge was complete, and a
    rerun that fails to write leaves it so.)
   */
  predicate Resumable(scrub: Scrub, created: string, kept: seq<Row>, left: seq<Source>, derive: Deriver, target: Target) {
    && Identities(Gathered(left, derive)) <= Identities(kept)
    && (Settled(scrub, kept) || (left == [] && Finish(scrub, created, kept, target).Err?))
  }

  /**
    A merge that stops after its first write and any number of its deletions, and is run again to its end, leaves
    the comments an uninterrupted merge leaves exactly when it is resumable.
   */
  lemma MergeResumes(scrub: Scrub, bodies: Comments, ids: seq<nat>, derive: Deriver, target: Target, deleted: nat)
    requires Mergeable(scrub, bodies, ids, derive, target) && deleted < |Candidates(bodies, ids)|
    ensures var found := Candidates(bodies, ids);
            var created, sources := Created(bodies, found), Sources(bodies, found);
            var kept := KeptRows(scrub, created, sources, derive, target);
            var stopped := AfterMerge(scrub, bodies, ids, derive, target, deleted + 1);
            && |sources| == |found|
            && (AfterMerge(scrub, stopped, ids, derive, target, |ids| + 1) == AfterMerge(scrub, bodies, ids, derive, target, |ids| + 1)
                <==> Resumable(scrub, created, kept, sources[deleted + 1..], derive, target))
  {
    MergeableParts(scrub, bodies, ids, derive, target);
    StopIsHalf(scrub, bodies, ids, derive, target, deleted);
    hide *;
    var found := Candidates(bodies, ids);
    var created, sources := Created(bodies, found), Sources(bodies, found);
    var kept := KeptRows(scrub, created, sources, derive, target);
    var text := TextFor(scrub, bodies, found, derive, target).value;
    var half := Half(bodies, found, text, deleted);
    HalfReads(scrub, bodies, ids, derive, target, deleted);
    var left := sources[deleted + 1..];
    PartOk(sources, left, derive);
    RerunWritesTheSame(scrub, created, sources, left, found[0], derive, target);
    ResumableIs(scrub, created, kept, left, derive, target);
    if left == [] {
      NothingGathered(left, derive);
      RerunFinds(scrub, created, sources, left, found[0], derive, target);
      assert kept + [] == kept;
    }
    FoundExist(bodies, ids);
    FinishesTheSame(scrub, bodies, half, ids, found, text, deleted, derive, target);
  }

  lemma ResumableIs(scrub: Scrub, created: string, kept: seq<Row>, left: seq<Source>, derive: Deriver, target: Target)
    ensures Resumable(scrub, created, kept, left, derive, target) <==>
              && Identities(Gathered(left, derive)) <= Identities(kept)
              && (Settled(scrub, kept) || (left == [] && Finish(scrub, created, kept, target).Err?))
  {
    hide Identities, Gathered, Settled, Finish;
  }

  /**
    When the merged rows fit the caps nothing is unrepresented, so running again completes the merge exactly when the
    first comment's commands are fixed points of cleaning, or nothing was left and the rerun fails to write.
   */
  lemma MergeResumesWithinCaps(scrub: Scrub, bodies: Comments, ids: seq<nat>, derive: Deriver, target: Target, deleted: nat)
    requires Mergeable(scrub, bodies, ids, derive, target) && deleted < |Candidates(bodies, ids)|
    requires var found := Candidates(bodies, ids);
             Dropped(scrub, Created(bodies, found), Canonical(Gathered(Sources(bodies, found), derive)), target) == 0
    ensures var found := Candidates(bodies, ids);
            var created, sources := Created(bodies, found), Sources(bodies, found);
            var kept := KeptRows(scrub, created, sources, derive, target);
            var stopped := AfterMerge(scrub, bodies, ids, derive, target, deleted + 1);
            var whole := AfterMerge(scrub, bodies, ids, derive, target, |ids| + 1);
            AfterMerge(scrub, stopped, ids, derive, target, |ids| + 1) == whole
            <==> (Settled(scrub, kept) || (deleted + 1 == |found| && Finish(scrub, created, kept, target).Err?))
  {
    MergeableParts(scrub, bodies, ids, derive, target);
    hide *;
    var found := Candidates(bodies, ids);
    var created, sources := Created(bodies, found), Sources(bodies, found);
    MergeResumes(scrub, bodies, ids, derive, target, deleted);
    LeftRepresented(scrub, created, sources, sources[deleted + 1..], derive, target);
    ResumableIs(scrub, created, KeptRows(scrub, created, sources, derive, target), sources[deleted + 1..], derive, target);
  }

  lemma NothingGathered(left: seq<Source>, derive: Deriver)
    requires left == []
    ensures Identities(Gathered(left, derive)) == {}
  {
    EmptyRows();
  }

  lemma FoundExist(bodies: Comments, ids: seq<nat>)
    ensures |Candidates(bodies, ids)| <= |ids|
    ensures forall id :: id in Candidates(bodies, ids) ==> id in bodies
  {
    CandidatesShort(bodies, ids);
    CandidatesAre(bodies, ids);
    EmptyIsNotAudit();
    hide IsAudit;
  }

  lemma StopIsHalf(scrub: Scrub, bodies: Comments, ids: seq<nat>, derive: Deriver, target: Target, deleted: nat)
    requires deleted < |Candidates(bodies, ids)| && TextFor(scrub, bodies, Candidates(bodies, ids), derive, target).Ok?
    ensures var found := Candidates(bodies, ids);
            var text := TextFor(scrub, bodies, found, derive, target).value;
            && AfterMerge(scrub, bodies, ids, derive, target, deleted + 1) == Half(bodies, found, text, deleted)
            && AfterMerge(scrub, bodies, ids, derive, target, |ids| + 1) == bodies[found[0] := text] - Members(found[1..])
  {
    hide Candidates, TextFor;
    CandidatesShort(bodies, ids);
    var found := Candidates(bodies, ids);
    assert Prefix(found[1..], deleted) == found[1..deleted + 1];
  }

  lemma PartOk(sources: seq<Source>, part: seq<Source>, derive: Deriver)
    requires SourcesOk(sources, derive) && forall s :: s in part ==> s in sources
    ensures SourcesOk(part, derive)
  {
    hide RowsOk, HiddenIdOk;
  }

  lemma {:induction false} CandidatesShort(bodies: Comments, ids: seq<nat>)
    ensures |Candidates(bodies, ids)| <= |ids|
  {
    hide IsAudit, BodyAt;
    if ids != [] {
      CandidatesShort(bodies, ids[1..]);
    }
  }

  lemma FinishesTheSame(scrub: Scrub, bodies: Comments, half: Comments, ids: seq<nat>, found: seq<nat>, text: string,
                        deleted: nat, derive: Deriver, target: Target)
    requires found != [] && deleted < |found| <= |ids| && NoRepeats(found)
    requires half == Half(bodies, found, text, deleted)
    requires Candidates(half, ids) == [found[0]] + found[deleted + 1..]
    requires forall id :: id in found ==> id in bodies
    ensures AfterMerge(scrub, half, ids, derive, target, |ids| + 1) == bodies[found[0] := text] - Members(found[1..])
         <==> || TextFor(scrub, half, Candidates(half, ids), derive, target) == Ok(text)
              || (deleted + 1 == |found| && TextFor(scrub, half, Candidates(half, ids), derive, target).Err?)
  {
    hide TextFor, Candidates;
    var left := found[deleted + 1..];
    var second := TextFor(scrub, half, [found[0]] + left, derive, target);
    var done := bodies[found[0] := text] - Members(found[1..]);
    var after := AfterMerge(scrub, half, ids, derive, target, |ids| + 1);
    assert ([found[0]] + left)[1..] == left && Prefix(left, |ids|) == left;
    assert found[1..] == found[1..deleted + 1] + left;
    assert found[0] !in found[1..];
    assert found[0] in done && done[found[0]] == text;
    if second.Ok? {
      assert after == half[found[0] := second.value] - Members(left);
      assert found[0] !in left;
      assert after[found[0]] == second.value;
      if second.value == text {
        assert forall id :: id in found[1..] <==> id in found[1..deleted + 1] || id in left;
        assert after == done;
      }
    } else if left == [] {
      assert found[1..deleted + 1] == found[1..] && after == half;
    } else {
      assert after == half && left[0] in found;
      assert left[0] in found[1..] && left[0] !in found[1..deleted + 1];
      assert left[0] in half && left[0] !in done;
    }
  }
}
