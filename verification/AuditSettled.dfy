/**
  Which comments a repeated merge rewrites. Every rewrite cleans all cells again: a cell that this code wrote settles
  with the merge's own cleaning, but a cell written by hand may need one more.
 */
module AuditSettled {
  import opened Wrappers
  import opened Text
  import opened AuditCodec
  import opened AuditComment
  import opened AuditMerge

  // ---------------------------------------------------------------------------------------------
  // A row that never was this code's
  // ---------------------------------------------------------------------------------------------

  lemma OneSource(scrub: Scrub, created: string, keeper: nat, row: Row, derive: Deriver, target: Target)
    requires row.delivery.Some?
    ensures Canonical(Gathered([Source(keeper, [row])], derive)) == [row]
    ensures KeptRows(scrub, created, [Source(keeper, [row])], derive, target) == [Written(scrub, row)]
  {
    hide *;
    OneGathered(keeper, row, derive);
    OneCanonical(row);
    MergedIs(scrub, created, [Source(keeper, [row])], derive, target);
    TrimmingIsMinimal(scrub, created, [row], target);
    var d := Dropped(scrub, created, [row], target);
    assert d == 0 && [row][d..] == [row];
    OneWritten(scrub, row);
  }

  lemma OneGathered(keeper: nat, row: Row, derive: Deriver)
    requires row.delivery.Some?
    ensures Gathered([Source(keeper, [row])], derive) == [row]
  {
    OneMigrates(row, keeper, derive);
    hide Migrate;
    assert [Source(keeper, [row])][1..] == [] && Gathered([], derive) == [] && [row] + [] == [row];
  }

  lemma OneWritten(scrub: Scrub, row: Row)
    ensures WrittenRows(scrub, [row]) == [Written(scrub, row)]
  {
    hide Clean;
  }

  lemma OneMigrates(row: Row, source: nat, derive: Deriver)
    requires row.delivery.Some?
    ensures Migrate([row], source, derive) == [row]
  {
    MigrateIdentifies([row], source, derive, 0);
  }

  lemma OneCanonical(row: Row)
    ensures Canonical([row]) == [row]
  {
    var seen := {} + {IdentityOf(row)};
    assert [row][1..] == [] && CanonicalFrom([], seen) == [] && [row] + [] == [row];
    assert IdentityOf([row][0]) !in {};
  }

  /** One row whose command cleaning changes twice: merging its comment again writes another text. */
  lemma RerunDiffers(scrub: Scrub, created: string, keeper: nat, row: Row, derive: Deriver, target: Target)
    requires scrub.Valid() && CreatedOk(created) && target.Valid()
    requires SourcesOk([Source(keeper, [row])], derive) && row.delivery.Some?
    requires Clean(scrub, Clean(scrub, row.command)) != Clean(scrub, row.command)
    requires MergedText(scrub, created, [Source(keeper, [row])], derive, target).Ok?
    ensures var sources := [Source(keeper, [row])];
            var kept := KeptRows(scrub, created, sources, derive, target);
            MergedText(scrub, created, Restarted(kept, keeper, []), derive, target) != MergedText(scrub, created, sources, derive, target)
  {
    hide *;
    var sources := [Source(keeper, [row])];
    NoSourcesOk(sources, derive);
    OneSource(scrub, created, keeper, row, derive, target);
    OneNotSettled(scrub, row);
    RerunWritesTheSame(scrub, created, sources, [], keeper, derive, target);
  }

  lemma NoSourcesOk(sources: seq<Source>, derive: Deriver)
    requires SourcesOk(sources, derive)
    ensures SourcesOk([], derive)
  {
    hide RowsOk, HiddenIdOk;
  }

  lemma OneNotSettled(scrub: Scrub, row: Row)
    requires Clean(scrub, Clean(scrub, row.command)) != Clean(scrub, row.command)
    ensures !Settled(scrub, [Written(scrub, row)])
  {
    hide Clean;
    assert [Written(scrub, row)][0].command == Clean(scrub, row.command);
  }

  // ---------------------------------------------------------------------------------------------
  // The cell
  // ---------------------------------------------------------------------------------------------

  /** Removing the comment in this cell leaves a token to redact, which happens at the next cleaning only. */
  const CELL := "confirm<!-- x -->TOKEN"
  const UNVEILED := "confirm" + " " + "TOKEN"
  const REDACTED := "confirm" + " " + "<redacted>"

  /** What redaction and the removal of comments do to these two texts. */
  predicate Redacts(scrub: Scrub) { scrub.pre(CELL) == UNVEILED && scrub.pre(UNVEILED) == REDACTED }

  predicate PlainWord(s: string) { s != "" && forall k :: 0 <= k < |s| ==> !Space(s[k]) && s[k] != '`' && s[k] != '|' }

  lemma {:induction false} WordEndAt(s: string, i: nat, end: nat)
    requires i <= end <= |s| && (forall k :: i <= k < end ==> !Space(s[k])) && (end == |s| || Space(s[end]))
    ensures WordEnd(s, i) == end
    decreases end - i
  {
    if i < end {
      WordEndAt(s, i + 1, end);
    }
  }

  lemma TwoWords(a: string, b: string)
    requires PlainWord(a) && PlainWord(b)
    ensures Collapse(a + " " + b) == a + " " + b
  {
    var s := a + " " + b;
    var rest := s[|a|..];
    assert forall k :: 0 <= k < |a| ==> s[k] == a[k];
    assert s[|a|] == ' ' && s[0..|a|] == a;
    assert rest[0] == ' ' && rest[1..] == b;
    assert forall k :: 1 <= k < |rest| ==> rest[k] == b[k - 1];
    WordEndAt(s, 0, |a|);
    WordEndAt(rest, 1, |rest|);
    WordAt(s, 0, |a|);
    WordAt(rest, 1, |rest|);
    assert rest[|rest|..] == "" && rest[1..|rest|] == b;
    NoWords();
    assert Words(rest) == [b] + [] == [b];
    assert s[|a|..] == rest && Words(s) == [a] + [b];
    JoinTwo(a, b);
  }

  lemma NoWords()
    ensures Words("") == []
  {}

  /** The first word of a text with at most one space before it. */
  lemma WordAt(s: string, from: nat, to: nat)
    requires from <= 1 && from < to <= |s| && (from == 1 ==> Space(s[0])) && !Space(s[from]) && WordEnd(s, from) == to
    ensures Words(s) == [s[from..to]] + Words(s[to..])
  {
    assert SkipSpaces(s, from) == from && SkipSpaces(s, 0) == from;
  }

  lemma JoinTwo(a: string, b: string)
    ensures Join([a] + [b], ' ') == a + " " + b
  {
    assert ([a] + [b])[1..] == [b];
  }

  lemma {:induction false} NothingToEscape(s: string)
    requires '`' !in s && '|' !in s
    ensures DropBackticks(s) == s && Unescape(s) == s && Escape(s) == s
  {
    if s != "" {
      assert s[0] in s && forall c :: c in s[1..] ==> c in s;
      assert |s| > 1 ==> s[1] in s;
      NothingToEscape(s[1..]);
      assert s == [s[0]] + s[1..];
    }
  }

  lemma TwoWordsClean(scrub: Scrub, command: string, a: string, b: string)
    requires PlainWord(a) && PlainWord(b) && scrub.pre(command) == a + " " + b
    ensures Clean(scrub, command) == a + " " + b
  {
    TwoWords(a, b);
    hide Collapse, DropBackticks, Escape, Unescape;
    NothingToEscape(a + " " + b);
  }

  lemma CellWords()
    ensures PlainWord("confirm") && PlainWord("TOKEN") && PlainWord("<redacted>")
    ensures UNVEILED != REDACTED
  {
    assert |UNVEILED| != |REDACTED|;
  }

  lemma CellShape()
    ensures CELL != "" && '`' !in CELL && '|' !in CELL
  {}

  lemma {:induction false} NoPipes(s: string)
    requires '|' !in s
    ensures PipesEscaped(s)
  {
    if s != "" {
      assert s[0] in s && forall c :: c in s[1..] ==> c in s;
      assert |s| > 1 ==> s[1] in s;
      NoPipes(s[1..]);
    }
  }

  /** The cell is cleaned twice before it settles, although the row pattern accepts it as it is. */
  lemma CellNeedsTwo(scrub: Scrub)
    requires Redacts(scrub)
    ensures PipesEscaped(CELL) && '`' !in CELL && CELL != ""
    ensures Clean(scrub, CELL) == UNVEILED && Clean(scrub, Clean(scrub, CELL)) == REDACTED != UNVEILED
  {
    CellWords();
    CellShape();
    NoPipes(CELL);
    hide Clean, CELL, PlainWord;
    TwoWordsClean(scrub, CELL, "confirm", "TOKEN");
    TwoWordsClean(scrub, UNVEILED, "confirm", "<redacted>");
  }

  /** A hand-edited comment with that cell in its one row: a merge that runs again writes another text. */
  lemma HandEditedCellDiffers(scrub: Scrub, created: string, keeper: nat, time: string, status: string, delivery: string,
                              derive: Deriver, target: Target)
    requires scrub.Valid() && CreatedOk(created) && target.Valid() && Redacts(scrub)
    requires TimeOk(time) && StatusOk(status) && HiddenIdOk(delivery) && forall id: nat, n: nat :: HiddenIdOk(derive(id, n))
    requires MergedText(scrub, created, [Source(keeper, [Row(time, CELL, status, Some(delivery), None)])], derive, target).Ok?
    ensures var row := Row(time, CELL, status, Some(delivery), None);
            var sources := [Source(keeper, [row])];
            var kept := KeptRows(scrub, created, sources, derive, target);
            && ParseRow(RowText(time, CELL, status, Hidden(row))) == Some(row)
            && MergedText(scrub, created, Restarted(kept, keeper, []), derive, target) != MergedText(scrub, created, sources, derive, target)
  {
    hide *;
    var row := Row(time, CELL, status, Some(delivery), None);
    CellNeedsTwo(scrub);
    CellRowOk(time, status, delivery);
    HiddenRoundTrip(row);
    StatusShape(status);
    TimeShape(time);
    RowTextRoundTrip(time, CELL, status, Hidden(row), (row.delivery, row.legacy));
    OneSourceOk(keeper, row, derive);
    RerunDiffers(scrub, created, keeper, row, derive, target);
  }

  lemma TimeShape(time: string)
    requires TimeOk(time)
    ensures Stripped(time) && '|' !in time
  {
    hide Stripped, OneLine;
  }

  lemma CellRowOk(time: string, status: string, delivery: string)
    requires TimeOk(time) && StatusOk(status) && HiddenIdOk(delivery)
    ensures RowOk(Row(time, CELL, status, Some(delivery), None)) && IdsOk(Row(time, CELL, status, Some(delivery), None))
  {
    hide TimeOk, StatusOk, HiddenIdOk, CELL;
  }

  lemma OneSourceOk(keeper: nat, row: Row, derive: Deriver)
    requires RowOk(row) && forall id: nat, n: nat :: HiddenIdOk(derive(id, n))
    ensures SourcesOk([Source(keeper, [row])], derive)
  {
    hide RowOk, HiddenIdOk;
  }

  // ---------------------------------------------------------------------------------------------
  // Rows of this code's own
  // ---------------------------------------------------------------------------------------------

  /** Cleaning a text without backquotes twice settles it: the first time unveils, the second redacts. */
  ghost predicate SettlesInTwo(scrub: Scrub) {
    forall text :: '`' !in text ==> Clean(scrub, Clean(scrub, Clean(scrub, text))) == Clean(scrub, Clean(scrub, text))
  }

  /** The cell was written from a command without backquotes, as every stored command is. */
  ghost predicate OwnCell(scrub: Scrub, command: string) { exists text :: '`' !in text && command == Clean(scrub, text) }

  ghost predicate OwnRows(scrub: Scrub, rows: seq<Row>) { forall k :: 0 <= k < |rows| ==> OwnCell(scrub, rows[k].command) }

  lemma OwnCellSettles(scrub: Scrub, command: string)
    requires SettlesInTwo(scrub) && OwnCell(scrub, command)
    ensures Clean(scrub, Clean(scrub, command)) == Clean(scrub, command)
  {
    hide Clean;
  }

  lemma {:induction false} MigratedOwn(scrub: Scrub, rows: seq<Row>, source: nat, derive: Deriver, at: nat)
    requires OwnRows(scrub, rows)
    ensures OwnRows(scrub, MigrateFrom(rows, source, derive, at))
  {
    hide OwnCell;
    if rows != [] {
      var out := MigrateFrom(rows, source, derive, at);
      assert forall k :: 0 <= k < |rows[1..]| ==> rows[1..][k] == rows[k + 1];
      MigratedOwn(scrub, rows[1..], source, derive, at + 1);
      assert forall k :: 0 < k < |out| ==> out[k] == MigrateFrom(rows[1..], source, derive, at + 1)[k - 1];
      assert out[0].command == rows[0].command;
    }
  }

  lemma {:induction false} GatheredOwn(scrub: Scrub, sources: seq<Source>, derive: Deriver)
    requires forall s :: s in sources ==> OwnRows(scrub, s.rows)
    ensures OwnRows(scrub, Gathered(sources, derive))
  {
    if sources != [] {
      MigratedOwn(scrub, sources[0].rows, sources[0].id, derive, 0);
      GatheredOwn(scrub, sources[1..], derive);
      hide OwnCell, Migrate;
    }
  }

  lemma CanonicalOwn(scrub: Scrub, rows: seq<Row>)
    requires OwnRows(scrub, rows)
    ensures OwnRows(scrub, Canonical(rows))
  {
    CanonicalProperties(rows, {});
    hide OwnCell, CanonicalFrom, Distinct, Identities;
    var out := Canonical(rows);
    forall k | 0 <= k < |out| ensures OwnCell(scrub, out[k].command) {
      assert out[k] in out && out[k] in rows;
    }
  }

  lemma WrittenOwn(scrub: Scrub, rows: seq<Row>, d: nat)
    requires d <= |rows| && OwnRows(scrub, rows) && SettlesInTwo(scrub)
    ensures Settled(scrub, WrittenRows(scrub, rows[d..]))
  {
    hide Clean, OwnCell, SettlesInTwo;
    var out := WrittenRows(scrub, rows[d..]);
    forall k | 0 <= k < |out| ensures Clean(scrub, out[k].command) == out[k].command {
      assert rows[d..][k] == rows[d + k];
      OwnCellSettles(scrub, rows[d + k].command);
    }
  }

  /** A merge of comments whose cells this code wrote leaves settled rows: running it again writes them as they are. */
  lemma OwnRowsSettle(scrub: Scrub, created: string, sources: seq<Source>, derive: Deriver, target: Target)
    requires SettlesInTwo(scrub) && forall s :: s in sources ==> OwnRows(scrub, s.rows)
    ensures Settled(scrub, KeptRows(scrub, created, sources, derive, target))
  {
    hide *;
    var rows := Canonical(Gathered(sources, derive));
    GatheredOwn(scrub, sources, derive);
    CanonicalOwn(scrub, Gathered(sources, derive));
    TrimmingIsMinimal(scrub, created, rows, target);
    MergedIs(scrub, created, sources, derive, target);
    WrittenOwn(scrub, rows, Dropped(scrub, created, rows, target));
  }

  /** So on such comments a rerun writes the same text exactly when the rows of the comments left are represented. */
  lemma OwnRerun(scrub: Scrub, created: string, sources: seq<Source>, left: seq<Source>, keeper: nat, derive: Deriver, target: Target)
    requires scrub.Valid() && CreatedOk(created) && target.Valid()
    requires SourcesOk(sources, derive) && SourcesOk(left, derive)
    requires MergedText(scrub, created, sources, derive, target).Ok?
    requires SettlesInTwo(scrub) && forall s :: s in sources ==> OwnRows(scrub, s.rows)
    ensures var kept := KeptRows(scrub, created, sources, derive, target);
            MergedText(scrub, created, Restarted(kept, keeper, left), derive, target)
              == MergedText(scrub, created, sources, derive, target)
            <==> Identities(Gathered(left, derive)) <= Identities(kept)
  {
    hide *;
    OwnRowsSettle(scrub, created, sources, derive, target);
    RerunWritesTheSame(scrub, created, sources, left, keeper, derive, target);
  }
}
