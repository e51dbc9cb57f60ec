/**
  Collapsing several audit comments into the lowest-numbered one. The keeper is rewritten first and the
  others are deleted one by one, so a stop in between leaves rows in two places until the merge runs again.
 */
module AuditMerge {
  import opened Wrappers
  import opened Text
  import opened AuditCodec
  import opened AuditComment

  /** What tells two rows apart: the delivery, or the id given to a row that had none, or else its content. */
  datatype Identity = Delivery(id: string) | Legacy(id: string) | Content(time: string, command: string, status: string)

  function IdentityOf(row: Row): Identity {
    if row.delivery.Some? then Delivery(row.delivery.value)
    else if row.legacy.Some? then Legacy(row.legacy.value)
    else Content(row.time, row.command, row.status)
  }

  function Identities(rows: seq<Row>): set<Identity> {
    set k | 0 <= k < |rows| :: IdentityOf(rows[k])
  }

  /** The rows whose identity is neither in `seen` nor carried by an earlier row. */
  function CanonicalFrom(rows: seq<Row>, seen: set<Identity>): seq<Row> {
    if rows == [] then []
    else if IdentityOf(rows[0]) in seen then CanonicalFrom(rows[1..], seen)
    else [rows[0]] + CanonicalFrom(rows[1..], seen + {IdentityOf(rows[0])})
  }

  function Canonical(rows: seq<Row>): seq<Row> { CanonicalFrom(rows, {}) }

  /** The loop behind Canonical. */
  method CanonicalRows(rows: seq<Row>) returns (canonical: seq<Row>)
    ensures canonical == Canonical(rows)
  {
    var seen: set<Identity> := {};
    canonical := [];
    var i := 0;
    assert rows[0..] == rows;
    while i < |rows|
      invariant 0 <= i <= |rows|
      invariant canonical + CanonicalFrom(rows[i..], seen) == Canonical(rows)
    {
      var identity := IdentityOf(rows[i]);
      assert rows[i..][1..] == rows[i + 1..];
      if identity !in seen {
        assert canonical + ([rows[i]] + CanonicalFrom(rows[i + 1..], seen + {identity}))
            == (canonical + [rows[i]]) + CanonicalFrom(rows[i + 1..], seen + {identity});
        seen := seen + {identity};
        canonical := canonical + [rows[i]];
      }
      i := i + 1;
    }
    assert rows[i..] == [] && canonical + [] == canonical;
  }

  predicate Distinct(rows: seq<Row>) {
    forall i, j :: 0 <= i < j < |rows| ==> IdentityOf(rows[i]) != IdentityOf(rows[j])
  }

  lemma IdentitiesCons(first: Row, rest: seq<Row>)
    ensures Identities([first] + rest) == {IdentityOf(first)} + Identities(rest)
  {
    var rows := [first] + rest;
    forall id ensures id in Identities(rows) <==> id in {IdentityOf(first)} + Identities(rest) {
      if id in Identities(rest) {
        var k :| 0 <= k < |rest| && IdentityOf(rest[k]) == id;
        assert IdentityOf(rows[k + 1]) == id;
      }
      if id == IdentityOf(first) {
        assert IdentityOf(rows[0]) == id;
      }
    }
  }

  lemma DistinctCons(first: Row, rest: seq<Row>)
    ensures Distinct([first] + rest) <==> Distinct(rest) && IdentityOf(first) !in Identities(rest)
  {
    var rows := [first] + rest;
    assert forall k :: 0 <= k < |rest| ==> rows[k + 1] == rest[k];
    if Distinct(rows) {
      forall k | 0 <= k < |rest| ensures IdentityOf(rest[k]) != IdentityOf(first) {
        assert IdentityOf(rows[0]) != IdentityOf(rows[k + 1]);
      }
      forall i, j | 0 <= i < j < |rest| ensures IdentityOf(rest[i]) != IdentityOf(rest[j]) {
        assert IdentityOf(rows[i + 1]) != IdentityOf(rows[j + 1]);
      }
    }
  }

  lemma {:induction false} CanonicalProperties(rows: seq<Row>, seen: set<Identity>)
    ensures Distinct(CanonicalFrom(rows, seen))
    ensures Identities(CanonicalFrom(rows, seen)) == Identities(rows) - seen
    ensures forall r :: r in CanonicalFrom(rows, seen) ==> r in rows
  {
    hide IdentityOf, Identities, Distinct;
    if rows == [] {
      EmptyRows();
    } else {
      var first, rest := rows[0], rows[1..];
      assert rows == [first] + rest;
      IdentitiesCons(first, rest);
      var more := if IdentityOf(first) in seen then seen else seen + {IdentityOf(first)};
      CanonicalProperties(rest, more);
      IdentitiesCons(first, CanonicalFrom(rest, more));
      DistinctCons(first, CanonicalFrom(rest, more));
    }
  }

  lemma EmptyRows()
    ensures Identities([]) == {} && Distinct([])
  {}

  lemma NoIdentities(rows: seq<Row>)
    ensures Identities(rows) == {} <==> rows == []
  {
    assert rows != [] ==> IdentityOf(rows[0]) in Identities(rows);
  }

  /** Rows with distinct identities, none seen before, all stay, and what follows is filtered against them. */
  lemma {:induction false} CanonicalConcat(rows: seq<Row>, more: seq<Row>, seen: set<Identity>)
    requires Distinct(rows) && Identities(rows) !! seen
    ensures CanonicalFrom(rows + more, seen) == rows + CanonicalFrom(more, seen + Identities(rows))
  {
    hide IdentityOf, Identities, Distinct;
    if rows == [] {
      EmptyRows();
      assert rows + more == more && seen + Identities(rows) == seen;
    } else {
      var first, rest := rows[0], rows[1..];
      assert rows == [first] + rest && (rows + more)[1..] == rest + more;
      IdentitiesCons(first, rest);
      DistinctCons(first, rest);
      CanonicalConcat(rest, more, seen + {IdentityOf(first)});
      assert seen + {IdentityOf(first)} + Identities(rest) == seen + Identities(rows);
    }
  }

  lemma CanonicalOfKnown(rows: seq<Row>, seen: set<Identity>)
    ensures CanonicalFrom(rows, seen) == [] <==> Identities(rows) <= seen
  {
    CanonicalProperties(rows, seen);
    NoIdentities(CanonicalFrom(rows, seen));
  }

  // ---------------------------------------------------------------------------------------------
  // Giving old rows an identity
  // ---------------------------------------------------------------------------------------------

  /** The id of the row at one position of one comment: a truncated hash, left open here. */
  type Deriver = (nat, nat) -> string

  function MigrateFrom(rows: seq<Row>, source: nat, derive: Deriver, at: nat): seq<Row> {
    if rows == [] then []
    else
      var row := if rows[0].delivery.None? && rows[0].legacy.None? then rows[0].(legacy := Some(derive(source, at))) else rows[0];
      [row] + MigrateFrom(rows[1..], source, derive, at + 1)
  }

  function Migrate(rows: seq<Row>, source: nat, derive: Deriver): seq<Row> { MigrateFrom(rows, source, derive, 0) }

  predicate Identified(rows: seq<Row>) {
    forall k :: 0 <= k < |rows| ==> rows[k].delivery.Some? || rows[k].legacy.Some?
  }

  lemma {:induction false} MigrateIdentifies(rows: seq<Row>, source: nat, derive: Deriver, at: nat)
    ensures Identified(MigrateFrom(rows, source, derive, at))
    ensures Identified(rows) ==> MigrateFrom(rows, source, derive, at) == rows
    ensures RowsOk(rows) && (forall n: nat :: HiddenIdOk(derive(source, n))) ==> RowsOk(MigrateFrom(rows, source, derive, at))
  {
    if rows != [] {
      MigrateIdentifies(rows[1..], source, derive, at + 1);
      hide TimeOk, StatusOk, HiddenIdOk;
      var out := MigrateFrom(rows, source, derive, at);
      assert forall k :: 0 < k < |out| ==> out[k] == MigrateFrom(rows[1..], source, derive, at + 1)[k - 1];
      assert Identified(rows) ==> Identified(rows[1..]);
      assert RowsOk(rows) ==> RowsOk(rows[1..]);
    }
  }

  // ---------------------------------------------------------------------------------------------
  // Merging
  // ---------------------------------------------------------------------------------------------

  /** One comment that takes part: its number and the rows read from it. */
  datatype Source = Source(id: nat, rows: seq<Row>)

  function Gathered(sources: seq<Source>, derive: Deriver): seq<Row> {
    if sources == [] then []
    else Migrate(sources[0].rows, sources[0].id, derive) + Gathered(sources[1..], derive)
  }

  /** The text the keeper gets. */
  function MergedText(scrub: Scrub, created: string, sources: seq<Source>, derive: Deriver, target: Target): Result<string, AuditError> {
    Finish(scrub, created, Canonical(Gathered(sources, derive)), target)
  }

  ghost predicate SourcesOk(sources: seq<Source>, derive: Deriver) {
    && (forall s :: s in sources ==> RowsOk(s.rows))
    && (forall id: nat, n: nat :: HiddenIdOk(derive(id, n)))
  }

  lemma {:induction false} GatheredOk(sources: seq<Source>, derive: Deriver)
    requires SourcesOk(sources, derive)
    ensures RowsOk(Gathered(sources, derive)) && Identified(Gathered(sources, derive))
  {
    if sources != [] {
      hide RowOk, HiddenIdOk;
      var first := sources[0];
      assert RowsOk(first.rows);
      MigrateIdentifies(first.rows, first.id, derive, 0);
      GatheredOk(sources[1..], derive);
    }
  }

  /** Every row of every comment keeps a representative, and each identity is written once. */
  lemma MergeKeepsIdentities(sources: seq<Source>, derive: Deriver)
    ensures var rows := Canonical(Gathered(sources, derive));
            Distinct(rows) && Identities(rows) == Identities(Gathered(sources, derive))
  {
    CanonicalProperties(Gathered(sources, derive), {});
  }

  /** The rows the keeper holds once it has been rewritten. */
  function KeptRows(scrub: Scrub, created: string, sources: seq<Source>, derive: Deriver, target: Target): seq<Row> {
    var rows := Canonical(Gathered(sources, derive));
    var d := Dropped(scrub, created, rows, target);
    if 0 <= d <= |rows| then WrittenRows(scrub, rows[d..]) else []
  }

  lemma {:induction false} CanonicalOk(rows: seq<Row>, seen: set<Identity>)
    ensures RowsOk(rows) ==> RowsOk(CanonicalFrom(rows, seen))
    ensures Identified(rows) ==> Identified(CanonicalFrom(rows, seen))
  {
    CanonicalProperties(rows, seen);
    hide RowOk;
    var out := CanonicalFrom(rows, seen);
    forall k | 0 <= k < |out| ensures exists j :: 0 <= j < |rows| && rows[j] == out[k] {
      assert out[k] in out;
    }
  }

  lemma WrittenIdentities(scrub: Scrub, rows: seq<Row>)
    requires Identified(rows)
    ensures Identified(WrittenRows(scrub, rows))
    ensures Identities(WrittenRows(scrub, rows)) == Identities(rows)
    ensures Distinct(rows) ==> Distinct(WrittenRows(scrub, rows))
  {
    hide Clean;
    var out := WrittenRows(scrub, rows);
    assert forall k :: 0 <= k < |rows| ==> out[k] == Written(scrub, rows[k]);
    assert forall k :: 0 <= k < |rows| ==> IdentityOf(out[k]) == IdentityOf(rows[k]);
  }

  lemma SuffixProperties(rows: seq<Row>, d: nat)
    requires d <= |rows|
    ensures Distinct(rows) ==> Distinct(rows[d..])
    ensures Identified(rows) ==> Identified(rows[d..])
    ensures Identities(rows[d..]) <= Identities(rows)
  {
    assert forall k :: 0 <= k < |rows[d..]| ==> rows[d..][k] == rows[d + k];
  }

  /** After the rewrite the keeper reads back as its kept rows, all of them identified and distinct. */
  lemma KeeperReadsBack(scrub: Scrub, created: string, sources: seq<Source>, derive: Deriver, target: Target)
    requires SourcesOk(sources, derive) && scrub.Valid() && CreatedOk(created) && target.Valid()
    requires MergedText(scrub, created, sources, derive, target).Ok?
    ensures var text := MergedText(scrub, created, sources, derive, target).value;
            var kept := KeptRows(scrub, created, sources, derive, target);
            && IsExpected(text, target) && ParseCreated(SplitLines(text)) == Ok(created) && ParseRows(text) == Ok(kept)
            && |text| <= MAX_AUDIT_BODY_CHARS && |kept| <= MAX_AUDIT_ROWS
            && Identified(kept) && Distinct(kept) && RowsOk(kept)
  {
    hide *;
    var all := Gathered(sources, derive);
    var rows := Canonical(all);
    CanonicalIs(all);
    MergedIs(scrub, created, sources, derive, target);
    GatheredOk(sources, derive);
    CanonicalOk(all, {});
    CanonicalProperties(all, {});
    FinishReadsBack(scrub, created, rows, target);
    TrimmingIsMinimal(scrub, created, rows, target);
    CapIs();
    var d := Dropped(scrub, created, rows, target);
    SuffixProperties(rows, d);
    WrittenIdentities(scrub, rows[d..]);
    WrittenSize(scrub, rows[d..]);
    ParsedRowsOk(MergedText(scrub, created, sources, derive, target).value);
  }

  lemma WrittenSize(scrub: Scrub, rows: seq<Row>)
    ensures |WrittenRows(scrub, rows)| == |rows|
  {
    hide Clean;
  }

  lemma CanonicalIs(rows: seq<Row>)
    ensures Canonical(rows) == CanonicalFrom(rows, {})
  {
    hide CanonicalFrom;
  }

  lemma CapIs()
    ensures MAX_AUDIT_ROWS == 200 && MAX_AUDIT_BODY_CHARS == 60000
  {}

  lemma MergedIs(scrub: Scrub, created: string, sources: seq<Source>, derive: Deriver, target: Target)
    ensures var rows := Canonical(Gathered(sources, derive));
            && MergedText(scrub, created, sources, derive, target) == Finish(scrub, created, rows, target)
            && (0 <= Dropped(scrub, created, rows, target) <= |rows| ==>
                  KeptRows(scrub, created, sources, derive, target) == WrittenRows(scrub, rows[Dropped(scrub, created, rows, target)..]))
  {
    hide Gathered, Canonical, Dropped, WrittenRows, Finish;
  }

  // ---------------------------------------------------------------------------------------------
  // Stopping and running again
  // ---------------------------------------------------------------------------------------------

  /** What a second merge starts from: the rewritten keeper and the comments not deleted yet. */
  function Restarted(kept: seq<Row>, keeper: nat, left: seq<Source>): seq<Source> {
    [Source(keeper, kept)] + left
  }

  lemma RestartedRows(kept: seq<Row>, keeper: nat, left: seq<Source>, derive: Deriver)
    requires Identified(kept) && Distinct(kept)
    ensures Canonical(Gathered(Restarted(kept, keeper, left), derive))
         == kept + CanonicalFrom(Gathered(left, derive), Identities(kept))
  {
    var again := Restarted(kept, keeper, left);
    assert again[1..] == left;
    MigrateIdentifies(kept, keeper, derive, 0);
    CanonicalConcat(kept, Gathered(left, derive), {});
    assert {} + Identities(kept) == Identities(kept);
  }

  lemma FinishFitting(scrub: Scrub, created: string, rows: seq<Row>, target: Target)
    requires !Oversize(scrub, created, rows, target) && |rows| <= MAX_AUDIT_ROWS
    requires forall k :: 0 <= k < |rows| ==> Clean(scrub, rows[k].command) != ""
    ensures Finish(scrub, created, rows, target) == Ok(Rendered(scrub, created, rows, target))
  {
    hide Oversize, Rendered, Clean;
  }

  lemma RenderedWritten(scrub: Scrub, created: string, rows: seq<Row>, target: Target)
    requires Settled(scrub, WrittenRows(scrub, rows))
    ensures Rendered(scrub, created, WrittenRows(scrub, rows), target) == Rendered(scrub, created, rows, target)
  {
    var out := WrittenRows(scrub, rows);
    hide Clean, RowText, Hidden;
    forall k | 0 <= k < |rows| ensures RowLine(scrub, out[k]) == RowLine(scrub, rows[k]) {
      assert out[k].command == Clean(scrub, rows[k].command) == Clean(scrub, out[k].command);
      WrittenHidden(scrub, rows[k]);
    }
    hide RowLine;
    assert RowLines(scrub, out) == RowLines(scrub, rows);
  }

  lemma WrittenHidden(scrub: Scrub, row: Row)
    ensures Hidden(Written(scrub, row)) == Hidden(row)
  {}

  lemma WrittenNotEmpty(scrub: Scrub, rows: seq<Row>)
    requires Settled(scrub, WrittenRows(scrub, rows)) && AllRenderable(scrub, rows)
    ensures forall k :: 0 <= k < |WrittenRows(scrub, rows)| ==> Clean(scrub, WrittenRows(scrub, rows)[k].command) != ""
  {
    hide Clean, RowOk;
    forall k | 0 <= k < |rows| ensures Clean(scrub, WrittenRows(scrub, rows)[k].command) != "" {
      assert Renderable(scrub, rows[k]);
    }
  }

  /** Rewriting rows that already fit and are clean gives the text they came from. */
  lemma FinishSettled(scrub: Scrub, created: string, rows: seq<Row>, target: Target)
    requires Settled(scrub, WrittenRows(scrub, rows)) && AllRenderable(scrub, rows) && |rows| <= MAX_AUDIT_ROWS
    requires !Oversize(scrub, created, rows, target)
    ensures Finish(scrub, created, WrittenRows(scrub, rows), target) == Ok(Rendered(scrub, created, rows, target))
  {
    RenderedWritten(scrub, created, rows, target);
    WrittenNotEmpty(scrub, rows);
    WrittenFits(scrub, created, rows, target);
    hide *;
    FinishFitting(scrub, created, WrittenRows(scrub, rows), target);
  }

  lemma WrittenFits(scrub: Scrub, created: string, rows: seq<Row>, target: Target)
    requires Rendered(scrub, created, WrittenRows(scrub, rows), target) == Rendered(scrub, created, rows, target)
    ensures Oversize(scrub, created, WrittenRows(scrub, rows), target) == Oversize(scrub, created, rows, target)
    ensures |WrittenRows(scrub, rows)| == |rows|
  {
    hide Rendered;
  }

  /** The last row written by a merge that still had something new to take in came from what was left. */
  lemma NewRowsShow(scrub: Scrub, kept: seq<Row>, novel: seq<Row>, d: nat)
    requires novel != [] && d < |kept + novel|
    requires Identified(novel) && Identities(novel) !! Identities(kept)
    ensures WrittenRows(scrub, (kept + novel)[d..]) != kept
  {
    hide Clean;
    var last := novel[|novel| - 1];
    var out := WrittenRows(scrub, (kept + novel)[d..]);
    assert out[|out| - 1] == Written(scrub, last);
    assert IdentityOf(Written(scrub, last)) == IdentityOf(last);
    assert IdentityOf(last) in Identities(novel);
    assert IdentityOf(out[|out| - 1]) in Identities(out);
  }

  /** A rerun that writes the keeper's own text had nothing new to take in and nothing left to clean. */
  lemma SameTextMeans(scrub: Scrub, kept: seq<Row>, novel: seq<Row>, d: nat)
    requires d <= |kept + novel| && (kept + novel != [] ==> d < |kept + novel|)
    requires WrittenRows(scrub, (kept + novel)[d..]) == kept
    requires Identified(novel) && Identities(novel) !! Identities(kept)
    ensures novel == [] && Settled(scrub, kept)
  {
    if novel != [] {
      NewRowsShow(scrub, kept, novel, d);
    } else {
      assert kept + novel == kept;
      hide Clean;
      assert |WrittenRows(scrub, kept[d..])| == |kept| - d;
      assert kept[0..] == kept;
      assert forall k :: 0 <= k < |kept| ==> WrittenRows(scrub, kept)[k].command == Clean(scrub, kept[k].command);
    }
  }

  /** What a rerun finds: the keeper's rows, and those of the comments left that have no representative among them. */
  lemma RerunFinds(scrub: Scrub, created: string, sources: seq<Source>, left: seq<Source>, keeper: nat, derive: Deriver, target: Target)
    requires scrub.Valid() && CreatedOk(created) && target.Valid()
    requires SourcesOk(sources, derive) && SourcesOk(left, derive)
    requires MergedText(scrub, created, sources, derive, target).Ok?
    ensures var kept := KeptRows(scrub, created, sources, derive, target);
            var novel := CanonicalFrom(Gathered(left, derive), Identities(kept));
            && MergedText(scrub, created, Restarted(kept, keeper, left), derive, target) == Finish(scrub, created, kept + novel, target)
            && (novel == [] <==> Identities(Gathered(left, derive)) <= Identities(kept))
            && Identified(novel) && Identities(novel) !! Identities(kept) && RowsOk(kept + novel)
  {
    hide *;
    var kept := KeptRows(scrub, created, sources, derive, target);
    var novel := CanonicalFrom(Gathered(left, derive), Identities(kept));
    KeeperReadsBack(scrub, created, sources, derive, target);
    RestartedRows(kept, keeper, left, derive);
    MergedIs(scrub, created, Restarted(kept, keeper, left), derive, target);
    CanonicalOfKnown(Gathered(left, derive), Identities(kept));
    GatheredOk(left, derive);
    CanonicalOk(Gathered(left, derive), Identities(kept));
    CanonicalProperties(Gathered(left, derive), Identities(kept));
    RowsOkConcat(kept, novel);
  }

  /**
    A merge that stopped after rewriting the keeper, at any point of its deletions, and runs again over the
    comments still there: the second run writes the same text if and only if the keeper's commands are fixed points
    of cleaning and every row of the comments left has its representative in the keeper, that is, the caps had not
    dropped one of them.
   */
  lemma RerunWritesTheSame(scrub: Scrub, created: string, sources: seq<Source>, left: seq<Source>, keeper: nat,
                           derive: Deriver, target: Target)
    requires scrub.Valid() && CreatedOk(created) && target.Valid()
    requires SourcesOk(sources, derive) && SourcesOk(left, derive)
    requires MergedText(scrub, created, sources, derive, target).Ok?
    ensures var kept := KeptRows(scrub, created, sources, derive, target);
            MergedText(scrub, created, Restarted(kept, keeper, left), derive, target)
              == MergedText(scrub, created, sources, derive, target)
            <==> Settled(scrub, kept) && Identities(Gathered(left, derive)) <= Identities(kept)
  {
    hide *;
    var kept := KeptRows(scrub, created, sources, derive, target);
    var novel := CanonicalFrom(Gathered(left, derive), Identities(kept));
    var second := MergedText(scrub, created, Restarted(kept, keeper, left), derive, target);
    KeeperReadsBack(scrub, created, sources, derive, target);
    RerunFinds(scrub, created, sources, left, keeper, derive, target);
    if Settled(scrub, kept) && novel == [] {
      assert kept + novel == kept;
      RerunSame(scrub, created, sources, derive, target);
    } else if second == MergedText(scrub, created, sources, derive, target) {
      FinishReadsBack(scrub, created, kept + novel, target);
      SameTextMeans(scrub, kept, novel, Dropped(scrub, created, kept + novel, target));
    }
  }

  /**
    Whatever cleaning does to the commands, a rerun that succeeds keeps the keeper's identities in their order, then
    those of the comments left that had no representative, less the oldest that the caps drop.
   */
  lemma RerunKeepsIdentities(scrub: Scrub, created: string, sources: seq<Source>, left: seq<Source>, keeper: nat,
                             derive: Deriver, target: Target)
    requires scrub.Valid() && CreatedOk(created) && target.Valid()
    requires SourcesOk(sources, derive) && SourcesOk(left, derive)
    requires MergedText(scrub, created, sources, derive, target).Ok?
    requires var kept := KeptRows(scrub, created, sources, derive, target);
             MergedText(scrub, created, Restarted(kept, keeper, left), derive, target).Ok?
    ensures var kept := KeptRows(scrub, created, sources, derive, target);
            var text := MergedText(scrub, created, Restarted(kept, keeper, left), derive, target).value;
            var all := kept + CanonicalFrom(Gathered(left, derive), Identities(kept));
            var d := Dropped(scrub, created, all, target);
            && ParseRows(text).Ok? && 0 <= d <= |all|
            && IdentityList(ParseRows(text).value) == IdentityList(all)[d..]
            && (Identities(Gathered(left, derive)) <= Identities(kept) ==> all == kept)
  {
    hide *;
    var kept := KeptRows(scrub, created, sources, derive, target);
    var novel := CanonicalFrom(Gathered(left, derive), Identities(kept));
    KeeperReadsBack(scrub, created, sources, derive, target);
    RerunFinds(scrub, created, sources, left, keeper, derive, target);
    FinishReadsBack(scrub, created, kept + novel, target);
    IdentifiedConcat(kept, novel);
    IdentityListWritten(scrub, kept + novel, Dropped(scrub, created, kept + novel, target));
    assert novel == [] ==> kept + novel == kept;
  }

  function IdentityList(rows: seq<Row>): seq<Identity> { seq(|rows|, k requires 0 <= k < |rows| => IdentityOf(rows[k])) }

  lemma IdentifiedConcat(a: seq<Row>, b: seq<Row>)
    requires Identified(a) && Identified(b)
    ensures Identified(a + b)
  {}

  lemma IdentityListWritten(scrub: Scrub, rows: seq<Row>, d: nat)
    requires d <= |rows| && Identified(rows)
    ensures |IdentityList(rows)| == |rows| && IdentityList(WrittenRows(scrub, rows[d..])) == IdentityList(rows)[d..]
  {
    hide Clean;
    var out := WrittenRows(scrub, rows[d..]);
    forall k | 0 <= k < |rows| - d ensures IdentityOf(out[k]) == IdentityOf(rows[d + k]) {
      assert out[k] == Written(scrub, rows[d..][k]) && rows[d..][k] == rows[d + k];
    }
  }

  lemma RowsOkConcat(a: seq<Row>, b: seq<Row>)
    requires RowsOk(a) && RowsOk(b)
    ensures RowsOk(a + b)
  {
    hide RowOk;
  }

  lemma RerunSame(scrub: Scrub, created: string, sources: seq<Source>, derive: Deriver, target: Target)
    requires scrub.Valid() && CreatedOk(created) && target.Valid() && SourcesOk(sources, derive)
    requires MergedText(scrub, created, sources, derive, target).Ok?
    requires Settled(scrub, KeptRows(scrub, created, sources, derive, target))
    ensures Finish(scrub, created, KeptRows(scrub, created, sources, derive, target), target)
         == MergedText(scrub, created, sources, derive, target)
  {
    var rows := Canonical(Gathered(sources, derive));
    GatheredOk(sources, derive);
    CanonicalOk(Gathered(sources, derive), {});
    hide Finish, Rendered, Dropped, AllRenderable, Gathered, Canonical, CreatedOk, RowsOk;
    hide Settled, Identified, SourcesOk, WrittenRows, IsExpected, ParseCreated, ParseRows, SplitLines;
    FinishReadsBack(scrub, created, rows, target);
    TrimmingIsMinimal(scrub, created, rows, target);
    FinishSettled(scrub, created, rows[Dropped(scrub, created, rows, target)..], target);
  }

  lemma {:induction false} GatheredIdentities(sources: seq<Source>, part: seq<Source>, derive: Deriver)
    requires forall s :: s in part ==> s in sources
    ensures Identities(Gathered(part, derive)) <= Identities(Gathered(sources, derive))
    decreases |part|
  {
    if part != [] {
      GatheredIdentities(sources, part[1..], derive);
      IdentitiesConcat(Migrate(part[0].rows, part[0].id, derive), Gathered(part[1..], derive));
      OneSourceIdentities(sources, part[0], derive);
    } else {
      EmptyRows();
    }
  }

  lemma {:induction false} OneSourceIdentities(sources: seq<Source>, one: Source, derive: Deriver)
    requires one in sources
    ensures Identities(Migrate(one.rows, one.id, derive)) <= Identities(Gathered(sources, derive))
  {
    IdentitiesConcat(Migrate(sources[0].rows, sources[0].id, derive), Gathered(sources[1..], derive));
    if one != sources[0] {
      OneSourceIdentities(sources[1..], one, derive);
    }
  }

  lemma {:induction false} IdentitiesConcat(a: seq<Row>, b: seq<Row>)
    ensures Identities(a + b) == Identities(a) + Identities(b)
  {
    if a == [] {
      EmptyRows();
      assert a + b == b;
    } else {
      assert a == [a[0]] + a[1..] && a + b == [a[0]] + (a[1..] + b);
      IdentitiesCons(a[0], a[1..]);
      IdentitiesCons(a[0], a[1..] + b);
      IdentitiesConcat(a[1..], b);
    }
  }

  /** Within the caps the condition always holds, whatever is left to delete. */
  lemma LeftRepresented(scrub: Scrub, created: string, sources: seq<Source>, left: seq<Source>, derive: Deriver, target: Target)
    requires SourcesOk(sources, derive) && forall s :: s in left ==> s in sources
    requires Dropped(scrub, created, Canonical(Gathered(sources, derive)), target) == 0
    ensures Identities(Gathered(left, derive)) <= Identities(KeptRows(scrub, created, sources, derive, target))
  {
    var rows := Canonical(Gathered(sources, derive));
    GatheredIdentities(sources, left, derive);
    MergeKeepsIdentities(sources, derive);
    GatheredOk(sources, derive);
    CanonicalOk(Gathered(sources, derive), {});
    assert rows[0..] == rows;
    hide MergedText, Gathered, Canonical, Dropped, RowsOk, HiddenIdOk, WrittenRows, Identities;
    WrittenIdentities(scrub, rows);
  }
}
