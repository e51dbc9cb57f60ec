/**
  The whole audit comment: recognising it, reading its rows, appending a row and changing a row's status.
  Nothing is kept besides the comment text, so every operation reads the rows out of the text first.
 */
module AuditComment {
  import opened Wrappers
  import opened Text
  import opened AuditCodec

  // ---------------------------------------------------------------------------------------------
  // Writing
  // ---------------------------------------------------------------------------------------------

  function RowLines(scrub: Scrub, rows: seq<Row>): seq<string> {
    seq(|rows|, k requires 0 <= k < |rows| => RowLine(scrub, rows[k]))
  }

  function HeadLines(usage: string, created: string): (lines: seq<string>)
    ensures |lines| == 8
  {
    [HEADING, "", usage, "", CREATED + " " + created, "", TABLE_HEADER, TABLE_SEP]
  }

  function CommentLines(scrub: Scrub, created: string, rows: seq<Row>, target: Target): seq<string> {
    HeadLines(scrub.usage, created) + RowLines(scrub, rows) + ["", Marker(target)]
  }

  function Rendered(scrub: Scrub, created: string, rows: seq<Row>, target: Target): string {
    JoinLines(CommentLines(scrub, created, rows, target))
  }

  /** Writing stops at a command whose cell cleans to nothing. */
  function Format(scrub: Scrub, created: string, rows: seq<Row>, target: Target): Result<string, AuditError> {
    if exists k :: 0 <= k < |rows| && Clean(scrub, rows[k].command) == "" then Err(EmptyCell)
    else Ok(Rendered(scrub, created, rows, target))
  }

  // ---------------------------------------------------------------------------------------------
  // Reading
  // ---------------------------------------------------------------------------------------------

  function FirstFilled(lines: seq<string>): Option<string> {
    if lines == [] then None
    else if Strip(lines[0]) != "" then Some(Strip(lines[0]))
    else FirstFilled(lines[1..])
  }

  /** Index of the last line that is not blank, or -1. */
  function LastFilled(lines: seq<string>): (n: int)
    ensures -1 <= n < |lines|
  {
    if lines == [] then -1
    else if Strip(lines[|lines| - 1]) != "" then |lines| - 1
    else LastFilled(lines[..|lines| - 1])
  }

  /** The marker of an audit comment, when the heading and the last line say that it is one. */
  function FindMarker(body: string): Option<(string, string)> {
    var lines := SplitLines(body);
    if FirstFilled(lines) != Some(HEADING) || LastFilled(lines) < 0 then None
    else ParseMarker(Strip(lines[LastFilled(lines)]))
  }

  predicate IsAudit(body: string) { FindMarker(body).Some? }

  predicate IsExpected(body: string, target: Target) {
    FindMarker(body) == Some((target.repo, Decimal(target.pr)))
  }

  /** Positions of the lines that pass a test. */
  function Positions(lines: seq<string>, test: string -> bool): (at: seq<nat>)
    ensures forall p :: p in at ==> p < |lines| && test(lines[p])
  {
    if lines == [] then []
    else
      var last := |lines| - 1;
      Positions(lines[..last], test) + if test(lines[last]) then [last] else []
  }

  lemma {:induction false} PositionsNone(lines: seq<string>, test: string -> bool)
    requires forall k :: 0 <= k < |lines| ==> !test(lines[k])
    ensures Positions(lines, test) == []
  {
    if lines != [] {
      PositionsNone(lines[..|lines| - 1], test);
    }
  }

  lemma {:induction false} PositionsOne(lines: seq<string>, test: string -> bool, at: nat)
    requires at < |lines| && test(lines[at])
    requires forall k :: 0 <= k < |lines| && k != at ==> !test(lines[k])
    ensures Positions(lines, test) == [at]
  {
    var last := |lines| - 1;
    if at == last {
      PositionsNone(lines[..last], test);
    } else {
      PositionsOne(lines[..last], test, at);
    }
  }

  predicate CreatedLine(line: string) { HasPrefix(Strip(line), CREATED) }
  predicate HeaderLine(line: string) { Strip(line) == TABLE_HEADER }
  predicate SepLine(line: string) { Strip(line) == TABLE_SEP }
  predicate FilledLine(line: string) { Strip(line) != "" }

  /** The position of the line that passes the test, when there is exactly one. */
  function Only(lines: seq<string>, test: string -> bool): (at: Option<nat>)
    ensures at.Some? ==> at.value < |lines| && test(lines[at.value])
  {
    var all := Positions(lines, test);
    if |all| == 1 then
      assert all[0] in all;
      Some(all[0])
    else None
  }

  lemma OnlyAt(lines: seq<string>, test: string -> bool, at: nat)
    requires at < |lines| && test(lines[at])
    requires forall k :: 0 <= k < |lines| && k != at ==> !test(lines[k])
    ensures Only(lines, test) == Some(at)
  {
    PositionsOne(lines, test, at);
  }

  /** Where the table body starts and where the marker line is. */
  function TableBounds(lines: seq<string>): (r: Result<(nat, nat), AuditError>)
    ensures r.Ok? ==> r.value.0 <= r.value.1 < |lines|
  {
    var marker := LastFilled(lines);
    if marker < 0 then Err(NoMarkerLine) else
    match Only(lines[..marker], CreatedLine)
    case None => Err(CreatedLineCount)
    case Some(created) => TableIn(lines, created, marker)
  }

  /** The one table between the Created line and the marker line. */
  function TableIn(lines: seq<string>, created: nat, marker: nat): (r: Result<(nat, nat), AuditError>)
    requires created < marker < |lines|
    ensures r.Ok? ==> r.value.0 <= r.value.1 == marker
  {
    var region := lines[created + 1..marker];
    match (Only(region, HeaderLine), Only(region, SepLine))
    case (Some(header), Some(sep)) =>
      if sep != header + 1 then Err(SeparatorPlace)
      else if Positions(region[..header], FilledLine) != [] then Err(ContentBeforeTable)
      else Ok((created + 1 + sep + 1, marker))
    case _ => Err(TableCount)
  }

  /** Rows until the first blank line; nothing but blank lines after it. */
  function ParseRowLines(lines: seq<string>, inRows: bool): Result<seq<Row>, AuditError> {
    if lines == [] then Ok([])
    else
      var line := Strip(lines[0]);
      if line == "" then ParseRowLines(lines[1..], false)
      else if !inRows then Err(ContentAfterTable)
      else
        var row := ParseRow(line);
        if row.None? then Err(UnparseableRow) else
        var rest := ParseRowLines(lines[1..], true);
        if rest.Err? then rest else Ok([row.value] + rest.value)
  }

  function ParseRows(body: string): Result<seq<Row>, AuditError> {
    if !IsAudit(body) then Ok([]) else TableRows(SplitLines(body))
  }

  function TableRows(lines: seq<string>): Result<seq<Row>, AuditError> {
    match TableBounds(lines)
    case Err(e) => Err(e)
    case Ok((from, to)) => ParseRowLines(lines[from..to], true)
  }

  /** The value of the one Created line of an audit comment. */
  function ParseCreated(lines: seq<string>): Result<string, AuditError> {
    match Only(lines, CreatedLine)
    case None => Err(CreatedLineCount)
    case Some(at) => Ok(Strip(Strip(lines[at])[|CREATED|..]))
  }

  /** The reading loop: rows are collected line by line. */
  method CollectRows(lines: seq<string>) returns (r: Result<seq<Row>, AuditError>)
    ensures r == ParseRowLines(lines, true)
  {
    hide ParseRow, Strip, Stripped;
    var rows: seq<Row> := [];
    var inRows := true;
    var i := 0;
    ghost var todo := ParseRowLines(lines, true);
    assert lines[0..] == lines && (todo.Ok? ==> todo.value == rows + todo.value);
    while i < |lines|
      invariant 0 <= i <= |lines|
      invariant todo == ParseRowLines(lines[i..], inRows)
      invariant ParseRowLines(lines, true) == if todo.Err? then todo else Ok(rows + todo.value)
    {
      var line := Strip(lines[i]);
      assert lines[i..][1..] == lines[i + 1..];
      if line == "" {
        inRows := false;
      } else if !inRows {
        return Err(ContentAfterTable);
      } else {
        var row := ParseRow(line);
        if row.None? {
          return Err(UnparseableRow);
        }
        ghost var rest := ParseRowLines(lines[i + 1..], true);
        assert rest.Ok? ==> rows + ([row.value] + rest.value) == (rows + [row.value]) + rest.value;
        rows := rows + [row.value];
      }
      i := i + 1;
      todo := ParseRowLines(lines[i..], inRows);
    }
    assert lines[i..] == [] && rows + [] == rows;
    r := Ok(rows);
  }

  // ---------------------------------------------------------------------------------------------
  // Reading back what was written
  // ---------------------------------------------------------------------------------------------

  predicate AllRenderable(scrub: Scrub, rows: seq<Row>) {
    forall k :: 0 <= k < |rows| ==> Renderable(scrub, rows[k])
  }

  predicate CreatedOk(created: string) { Stripped(created) && OneLine(created) }

  function WrittenRows(scrub: Scrub, rows: seq<Row>): seq<Row> {
    seq(|rows|, k requires 0 <= k < |rows| => Written(scrub, rows[k]))
  }

  lemma {:induction false} RowLinesRoundTrip(scrub: Scrub, rows: seq<Row>)
    requires AllRenderable(scrub, rows)
    ensures ParseRowLines(RowLines(scrub, rows) + [""], true) == Ok(WrittenRows(scrub, rows))
  {
    hide ParseRow, RowLine, Renderable, Strip, Stripped, Written;
    if rows == [] {
      StripStripped("");
      assert RowLines(scrub, rows) + [""] == [""] && [""][1..] == [] && WrittenRows(scrub, rows) == [];
    } else {
      var lines := RowLines(scrub, rows) + [""];
      assert lines[1..] == RowLines(scrub, rows[1..]) + [""];
      RowLineShape(scrub, rows[0]);
      StripStripped(lines[0]);
      RowRoundTrip(scrub, rows[0]);
      RowLinesRoundTrip(scrub, rows[1..]);
      assert WrittenRows(scrub, rows) == [Written(scrub, rows[0])] + WrittenRows(scrub, rows[1..]);
    }
  }

  /** What reading relies on: which lines of a comment with n rows pass which test. */
  predicate Laid(lines: seq<string>, n: nat) {
    && |lines| == n + 10
    && (forall k :: 0 <= k < n + 10 ==> OneLine(lines[k]))
    && Strip(lines[0]) == HEADING
    && (forall k :: 0 <= k < n + 10 ==> (CreatedLine(lines[k]) <==> k == 4))
    && (forall k :: 5 <= k < n + 9 ==> (HeaderLine(lines[k]) <==> k == 6))
    && (forall k :: 5 <= k < n + 9 ==> (SepLine(lines[k]) <==> k == 7))
    && !FilledLine(lines[5]) && FilledLine(lines[n + 9])
  }

  lemma BlankTests()
    ensures OneLine("") && !CreatedLine("") && !HeaderLine("") && !SepLine("") && !FilledLine("")
  {
    StripStripped("");
  }

  lemma FilledTests(line: string)
    requires line != "" && Stripped(line)
    ensures Strip(line) == line && FilledLine(line)
    ensures line[0] != 'C' ==> !CreatedLine(line)
    ensures '`' in line ==> !HeaderLine(line) && !SepLine(line)
  {
    StripStripped(line);
    assert '`' !in TABLE_HEADER && '`' !in TABLE_SEP;
    assert HasPrefix(line, CREATED) ==> line[..|CREATED|][0] == CREATED[0];
  }

  lemma HeadingTests()
    ensures OneLine(HEADING) && !CreatedLine(HEADING) && Strip(HEADING) == HEADING
  {
    FilledTests(HEADING);
  }

  lemma TableLinesDiffer()
    ensures TABLE_HEADER != TABLE_SEP
  {
    assert TABLE_HEADER[1] != TABLE_SEP[1];
  }

  lemma TableLineShapes()
    ensures OneLine(TABLE_HEADER) && Stripped(TABLE_HEADER) && TABLE_HEADER != "" && TABLE_HEADER[0] != 'C'
    ensures OneLine(TABLE_SEP) && Stripped(TABLE_SEP) && TABLE_SEP != "" && TABLE_SEP[0] != 'C'
  {}

  lemma TableTests()
    ensures OneLine(TABLE_HEADER) && HeaderLine(TABLE_HEADER) && !SepLine(TABLE_HEADER) && !CreatedLine(TABLE_HEADER)
    ensures OneLine(TABLE_SEP) && SepLine(TABLE_SEP) && !HeaderLine(TABLE_SEP) && !CreatedLine(TABLE_SEP)
  {
    hide Strip, Stripped, OneLine, CreatedLine, TABLE_HEADER, TABLE_SEP;
    TableLineShapes();
    TableLinesDiffer();
    FilledTests(TABLE_HEADER);
    FilledTests(TABLE_SEP);
  }

  lemma CreatedShape(line: string, created: string)
    requires CreatedOk(created) && line == CREATED + " " + created
    ensures OneLine(line) && CREATED + " " + "" == "" + CREATED + " "
    ensures Stripped(CREATED) && HasPrefix(CREATED, CREATED) && CREATED[|CREATED|..] == ""
    ensures created != "" ==> Stripped(line) && HasPrefix(line, CREATED) && line[|CREATED|..] == " " + created + ""
  {
    OneLineConcat(CREATED, " ");
    OneLineConcat(CREATED + " ", created);
    if created != "" {
      assert line[0] == CREATED[0] && line[|line| - 1] == created[|created| - 1];
      assert line[..|CREATED|] == CREATED;
    }
  }

  lemma CreatedTests(created: string)
    requires CreatedOk(created)
    ensures var line := CREATED + " " + created;
            CreatedLine(line) && OneLine(line) && Strip(Strip(line)[|CREATED|..]) == created
  {
    var line := CREATED + " " + created;
    CreatedShape(line, created);
    assert Stripped(created);
    hide Strip, OneLine, CREATED, CreatedOk;
    if created == "" {
      StripPadded("", CREATED, " ");
      StripStripped("");
    } else {
      StripStripped(line);
      StripPadded(" ", created, "");
    }
  }

  lemma RowTests(scrub: Scrub, row: Row)
    requires Renderable(scrub, row)
    ensures var line := RowLine(scrub, row);
            OneLine(line) && !CreatedLine(line) && !HeaderLine(line) && !SepLine(line)
  {
    RowLineShape(scrub, row);
    hide RowLine;
    FilledTests(RowLine(scrub, row));
  }

  lemma MarkerTests(target: Target)
    requires target.Valid()
    ensures var line := Marker(target);
            line != "" && OneLine(line) && !CreatedLine(line) && FilledLine(line) && Strip(line) == line
  {
    MarkerRoundTrip(target);
    hide Marker, ParseMarker;
    FilledTests(Marker(target));
  }

  predicate Plain(line: string) { OneLine(line) && !CreatedLine(line) && !HeaderLine(line) && !SepLine(line) }

  lemma {:induction false} LaidFrom(head: seq<string>, body: seq<string>, marker: string)
    requires |head| == 8 && HeadOk(head)
    requires forall k :: 0 <= k < |body| ==> Plain(body[k])
    requires OneLine(marker) && !CreatedLine(marker) && FilledLine(marker)
    ensures Laid(head + body + ["", marker], |body|)
  {
    BlankTests();
    hide CreatedLine, HeaderLine, SepLine, FilledLine, OneLine, Strip, HEADING;
    var lines := head + body + ["", marker];
    forall k | 8 <= k < |body| + 9 ensures Plain(lines[k]) {
      assert lines[k] == if k < |body| + 8 then body[k - 8] else "";
    }
    assert lines[|body| + 9] == marker;
    assert forall k :: 0 <= k < 8 ==> lines[k] == head[k];
  }

  predicate HeadOk(head: seq<string>)
    requires |head| == 8
  {
    && Strip(head[0]) == HEADING && !FilledLine(head[5])
    && (forall k :: 0 <= k < 8 ==> OneLine(head[k]) && (CreatedLine(head[k]) <==> k == 4))
    && (forall k :: 5 <= k < 8 ==> (HeaderLine(head[k]) <==> k == 6) && (SepLine(head[k]) <==> k == 7))
  }

  lemma HeadLaidFrom(heading: string, usage: string, created: string, header: string, sep: string)
    requires OneLine(heading) && !CreatedLine(heading) && Strip(heading) == HEADING
    requires OneLine(usage) && !CreatedLine(usage)
    requires OneLine(created) && CreatedLine(created)
    requires OneLine(header) && !CreatedLine(header) && HeaderLine(header) && !SepLine(header)
    requires OneLine(sep) && !CreatedLine(sep) && !HeaderLine(sep) && SepLine(sep)
    ensures HeadOk([heading, "", usage, "", created, "", header, sep])
  {
    BlankTests();
    hide CreatedLine, HeaderLine, SepLine, FilledLine, OneLine, Strip, HEADING;
  }

  lemma HeadLaid(scrub: Scrub, created: string)
    requires scrub.Valid() && CreatedOk(created)
    ensures HeadOk(HeadLines(scrub.usage, created))
  {
    FilledTests(scrub.usage);
    HeadingTests();
    TableTests();
    CreatedTests(created);
    hide CreatedLine, HeaderLine, SepLine, FilledLine, OneLine, Strip, Stripped, CreatedOk, HeadOk, HEADING, CREATED, TABLE_HEADER, TABLE_SEP;
    HeadLaidFrom(HEADING, scrub.usage, CREATED + " " + created, TABLE_HEADER, TABLE_SEP);
  }

  lemma CommentLaid(scrub: Scrub, created: string, rows: seq<Row>, target: Target)
    requires AllRenderable(scrub, rows) && scrub.Valid() && CreatedOk(created) && target.Valid()
    ensures Laid(CommentLines(scrub, created, rows, target), |rows|)
  {
    MarkerTests(target);
    HeadLaid(scrub, created);
    var body := RowLines(scrub, rows);
    hide Laid, HeadOk, FilledLine, OneLine, Strip, Stripped, RowLine, Marker, Renderable, CreatedOk, HeadLines, HEADING;
    hide CreatedLine, HeaderLine, SepLine;
    forall k | 0 <= k < |body| ensures Plain(body[k]) {
      RowTests(scrub, rows[k]);
    }
    LaidFrom(HeadLines(scrub.usage, created), body, Marker(target));
  }

  lemma LaidTable(lines: seq<string>, n: nat)
    requires Laid(lines, n)
    ensures TableIn(lines, 4, n + 9) == Ok((8, n + 9))
  {
    hide CreatedLine, HeaderLine, SepLine, FilledLine, OneLine, Strip, Only, Positions;
    var region := lines[5..n + 9];
    assert forall k :: 0 <= k < |region| ==> region[k] == lines[k + 5];
    OnlyAt(region, HeaderLine, 1);
    OnlyAt(region, SepLine, 2);
    PositionsNone(region[..1], FilledLine);
  }

  lemma LastFilledAt(lines: seq<string>)
    requires lines != [] && FilledLine(lines[|lines| - 1])
    ensures LastFilled(lines) == |lines| - 1
  {}

  lemma LaidBounds(lines: seq<string>, n: nat)
    requires Laid(lines, n)
    ensures Only(lines, CreatedLine) == Some(4)
    ensures TableBounds(lines) == Ok((8, n + 9))
  {
    hide CreatedLine, HeaderLine, SepLine, FilledLine, OneLine, Strip, Only, LastFilled, TableIn, HEADING, Positions;
    LastFilledAt(lines);
    LaidTable(lines, n);
    OnlyAt(lines, CreatedLine, 4);
    var before := lines[..n + 9];
    assert forall k :: 0 <= k < |before| ==> before[k] == lines[k];
    OnlyAt(before, CreatedLine, 4);
  }

  lemma {:induction false} FirstFilledAt(lines: seq<string>)
    requires lines != [] && FilledLine(lines[0])
    ensures FirstFilled(lines) == Some(Strip(lines[0]))
  {}

  /** What the layout gives back when it is read as a whole comment. */
  lemma LaidReadsBack(scrub: Scrub, created: string, rows: seq<Row>, target: Target, lines: seq<string>)
    requires AllRenderable(scrub, rows) && scrub.Valid() && CreatedOk(created) && target.Valid()
    requires lines == CommentLines(scrub, created, rows, target)
    ensures FirstFilled(lines) == Some(HEADING) && LastFilled(lines) == |lines| - 1
    ensures Strip(lines[|lines| - 1]) == Marker(target)
    ensures ParseCreated(lines) == Ok(created)
    ensures TableRows(lines) == Ok(WrittenRows(scrub, rows))
  {
    CommentLaid(scrub, created, rows, target);
    LaidBounds(lines, |rows|);
    MarkerTests(target);
    RowLinesRoundTrip(scrub, rows);
    CreatedTests(created);
    HeadingTests();
    assert HEADING != "";
    hide Strip, TableBounds, Only, CreatedLine, HeaderLine, SepLine, OneLine, RowLines, ParseRowLines, Marker, CREATED, HEADING;
    hide Renderable, CreatedOk, Laid, WrittenRows, HeadLines;
    FirstFilledAt(lines);
    LastFilledAt(lines);
    LaidSlices(scrub, created, rows, target);
  }

  lemma LaidSlices(scrub: Scrub, created: string, rows: seq<Row>, target: Target)
    ensures var lines := CommentLines(scrub, created, rows, target);
            && lines[8..|rows| + 9] == RowLines(scrub, rows) + [""]
            && lines[0] == HEADING && lines[4] == CREATED + " " + created && lines[|rows| + 9] == Marker(target)
  {
    hide Marker, HEADING, CREATED, RowLine;
  }

  lemma CommentSplits(scrub: Scrub, created: string, rows: seq<Row>, target: Target)
    requires AllRenderable(scrub, rows) && scrub.Valid() && CreatedOk(created) && target.Valid()
    ensures SplitLines(Rendered(scrub, created, rows, target)) == CommentLines(scrub, created, rows, target)
  {
    var lines := CommentLines(scrub, created, rows, target);
    CommentLaid(scrub, created, rows, target);
    MarkerTests(target);
    LaidSlices(scrub, created, rows, target);
    hide CommentLines, OneLine, Marker, FilledLine, CreatedLine, HeaderLine, SepLine, Strip, HEADING, CREATED;
    SplitJoinLines(lines);
  }

  /** Round trip: a written comment is recognised for its pull request and reads back as what was written. */
  lemma CommentRoundTrip(scrub: Scrub, created: string, rows: seq<Row>, target: Target)
    requires AllRenderable(scrub, rows) && scrub.Valid() && CreatedOk(created) && target.Valid()
    ensures var body := Rendered(scrub, created, rows, target);
            && IsExpected(body, target)
            && ParseRows(body) == Ok(WrittenRows(scrub, rows))
            && ParseCreated(SplitLines(body)) == Ok(created)
  {
    var lines := CommentLines(scrub, created, rows, target);
    CommentSplits(scrub, created, rows, target);
    LaidReadsBack(scrub, created, rows, target, lines);
    MarkerRoundTrip(target);
    hide CommentLines, SplitLines, Marker, ParseMarker, FirstFilled, LastFilled, Strip, TableRows, ParseCreated, HEADING;
    hide Renderable, CreatedOk, WrittenRows, Rendered;
  }

  /** Rows come back unchanged exactly when their commands are clean already. */
  lemma SettledRoundTrip(scrub: Scrub, created: string, rows: seq<Row>, target: Target)
    requires AllRenderable(scrub, rows) && scrub.Valid() && CreatedOk(created) && target.Valid()
    ensures ParseRows(Rendered(scrub, created, rows, target)) == Ok(rows) <==> Settled(scrub, rows)
  {
    hide Renderable, CreatedOk, ParseRows, Rendered, Clean, IsExpected, ParseCreated, SplitLines;
    CommentRoundTrip(scrub, created, rows, target);
    var out := WrittenRows(scrub, rows);
    if Settled(scrub, rows) {
      assert out == rows;
    } else {
      var k :| 0 <= k < |rows| && Clean(scrub, rows[k].command) != rows[k].command;
      assert out[k].command != rows[k].command;
    }
  }

  predicate Settled(scrub: Scrub, rows: seq<Row>) {
    forall k :: 0 <= k < |rows| ==> Clean(scrub, rows[k].command) == rows[k].command
  }

  // ---------------------------------------------------------------------------------------------
  // Reading arbitrary comments
  // ---------------------------------------------------------------------------------------------

  predicate RowsOk(rows: seq<Row>) { forall k :: 0 <= k < |rows| ==> RowOk(rows[k]) }

  lemma {:induction false} ParsedRowLinesOk(lines: seq<string>, inRows: bool)
    requires forall k :: 0 <= k < |lines| ==> OneLine(lines[k])
    requires ParseRowLines(lines, inRows).Ok?
    ensures RowsOk(ParseRowLines(lines, inRows).value)
  {
    hide OneLine, Strip, ParseRow, RowOk, Stripped;
    if lines != [] {
      var line := Strip(lines[0]);
      assert forall k :: 0 <= k < |lines[1..]| ==> lines[1..][k] == lines[k + 1];
      StripIsPart(lines[0]);
      if line == "" {
        ParsedRowLinesOk(lines[1..], false);
      } else {
        var rest := ParseRowLines(lines[1..], true);
        assert ParseRowLines(lines, inRows) == Ok([ParseRow(line).value] + rest.value);
        ParsedRowLinesOk(lines[1..], true);
        ParsedRowOk(line);
      }
    }
  }

  lemma TableRowsOk(lines: seq<string>)
    requires forall k :: 0 <= k < |lines| ==> OneLine(lines[k])
    requires TableRows(lines).Ok?
    ensures RowsOk(TableRows(lines).value)
  {
    hide TableBounds, OneLine, ParseRowLines, RowsOk;
    var (from, to) := TableBounds(lines).value;
    assert forall k :: 0 <= k < to - from ==> lines[from..to][k] == lines[from + k];
    ParsedRowLinesOk(lines[from..to], true);
  }

  lemma ParsedRowsOk(body: string)
    requires ParseRows(body).Ok?
    ensures RowsOk(ParseRows(body).value)
  {
    hide TableRows, IsAudit, SplitLines, OneLine, RowOk;
    var lines := SplitLines(body);
    assert forall k :: 0 <= k < |lines| ==> lines[k] in lines;
    if IsAudit(body) {
      TableRowsOk(lines);
    }
  }

  lemma ParsedCreatedOk(lines: seq<string>)
    requires forall l :: l in lines ==> OneLine(l)
    requires ParseCreated(lines).Ok?
    ensures CreatedOk(ParseCreated(lines).value)
  {
    hide Strip, CreatedLine, OneLine, Only, CREATED;
    var line := lines[Only(lines, CreatedLine).value];
    StripIsPart(line);
    CreatedLineHasPrefix(line);
    var value := Strip(line)[|CREATED|..];
    OneLineConcat(Strip(line)[..|CREATED|], value);
    assert Strip(line) == Strip(line)[..|CREATED|] + value;
    StripIsPart(value);
  }

  lemma CreatedLineHasPrefix(line: string)
    requires CreatedLine(line)
    ensures |CREATED| <= |Strip(line)|
  {}

  // ---------------------------------------------------------------------------------------------
  // Trimming to the caps
  // ---------------------------------------------------------------------------------------------

  function LastRows(rows: seq<Row>): seq<Row> {
    if |rows| > MAX_AUDIT_ROWS then rows[|rows| - MAX_AUDIT_ROWS..] else rows
  }

  predicate Oversize(scrub: Scrub, created: string, rows: seq<Row>, target: Target) {
    |Rendered(scrub, created, rows, target)| > MAX_AUDIT_BODY_CHARS
  }

  /** Drop the oldest rows until the text fits or one row is left. */
  function Fit(scrub: Scrub, created: string, rows: seq<Row>, target: Target): seq<Row> {
    if |rows| > 1 && Oversize(scrub, created, rows, target) then Fit(scrub, created, rows[1..], target) else rows
  }

  /** The cap policy: the last rows that fit, or an error when a single row does not. */
  function Finish(scrub: Scrub, created: string, rows: seq<Row>, target: Target): Result<string, AuditError> {
    var kept := LastRows(rows);
    if Format(scrub, created, kept, target).Err? then Err(EmptyCell) else
    var fitted := Fit(scrub, created, kept, target);
    if Oversize(scrub, created, fitted, target) then Err(TooLarge)
    else Ok(Rendered(scrub, created, fitted, target))
  }

  /** The trimming loop. */
  method TrimToFit(scrub: Scrub, created: string, all: seq<Row>, target: Target)
    returns (r: Result<string, AuditError>)
    ensures r == Finish(scrub, created, all, target)
  {
    hide Rendered;
    var rows := LastRows(all);
    var first := Format(scrub, created, rows, target);
    if first.Err? {
      return Err(EmptyCell);
    }
    while |Rendered(scrub, created, rows, target)| > MAX_AUDIT_BODY_CHARS && |rows| > 1
      invariant Fit(scrub, created, rows, target) == Fit(scrub, created, LastRows(all), target)
      decreases |rows|
    {
      rows := rows[1..];
    }
    if |Rendered(scrub, created, rows, target)| > MAX_AUDIT_BODY_CHARS {
      return Err(TooLarge);
    }
    r := Ok(Rendered(scrub, created, rows, target));
  }

  /** How many of the oldest rows the caps drop. */
  function Dropped(scrub: Scrub, created: string, rows: seq<Row>, target: Target): int {
    |rows| - |Fit(scrub, created, LastRows(rows), target)|
  }

  lemma FitStep(scrub: Scrub, created: string, rows: seq<Row>, target: Target)
    ensures Fit(scrub, created, rows, target) ==
            if |rows| > 1 && Oversize(scrub, created, rows, target) then Fit(scrub, created, rows[1..], target) else rows
  {
    hide Oversize;
  }

  lemma {:induction false} FitIsSuffix(scrub: Scrub, created: string, rows: seq<Row>, target: Target)
    ensures var fitted := Fit(scrub, created, rows, target);
            var d := |rows| - |fitted|;
            && 0 <= d && fitted == rows[d..] && (rows != [] ==> fitted != [])
            && (d > 0 ==> Oversize(scrub, created, rows[d - 1..], target))
            && (Oversize(scrub, created, fitted, target) ==> |fitted| <= 1)
  {
    hide *;
    FitStep(scrub, created, rows, target);
    if |rows| > 1 && Oversize(scrub, created, rows, target) {
      FitIsSuffix(scrub, created, rows[1..], target);
      var d := |rows| - 1 - |Fit(scrub, created, rows[1..], target)|;
      SliceOfSlice(rows, 1, d);
      if d > 0 {
        SliceOfSlice(rows, 1, d - 1);
      } else {
        assert rows[0..] == rows;
      }
    } else {
      assert rows[0..] == rows;
    }
  }

  lemma LastRowsIs(rows: seq<Row>)
    ensures var cut := |rows| - |LastRows(rows)|;
            && 0 <= cut <= |rows| && LastRows(rows) == rows[cut..]
            && |LastRows(rows)| <= MAX_AUDIT_ROWS && (cut > 0 ==> |LastRows(rows)| == MAX_AUDIT_ROWS)
            && (rows != [] ==> LastRows(rows) != [])
  {}

  lemma SliceOfSlice<T>(all: seq<T>, cut: nat, from: nat)
    requires cut <= |all| && from <= |all| - cut
    ensures all[cut..][from..] == all[cut + from..]
  {}

  lemma DroppedIs(scrub: Scrub, created: string, rows: seq<Row>, target: Target)
    ensures Dropped(scrub, created, rows, target) == |rows| - |Fit(scrub, created, LastRows(rows), target)|
  {
    hide Fit, LastRows;
  }

  /**
    The caps drop only the oldest rows, and no more than they must: keeping one row more would exceed the
    row count or the body size. The row just added is always kept.
   */
  lemma TrimmingIsMinimal(scrub: Scrub, created: string, rows: seq<Row>, target: Target)
    ensures var d := Dropped(scrub, created, rows, target);
            && 0 <= d <= |rows| && |rows| - d <= MAX_AUDIT_ROWS && (rows != [] ==> d < |rows|)
            && Fit(scrub, created, LastRows(rows), target) == rows[d..]
            && (d > 0 ==> |rows| - d == MAX_AUDIT_ROWS || Oversize(scrub, created, rows[d - 1..], target))
  {
    hide *;
    DroppedIs(scrub, created, rows, target);
    LastRowsIs(rows);
    FitIsSuffix(scrub, created, LastRows(rows), target);
    Suffixes(rows, LastRows(rows), Fit(scrub, created, LastRows(rows), target));
  }

  /** A suffix of a suffix, and the one that is one longer. */
  lemma Suffixes<T>(all: seq<T>, last: seq<T>, fitted: seq<T>)
    requires |fitted| <= |last| <= |all| && last == all[|all| - |last|..] && fitted == last[|last| - |fitted|..]
    ensures fitted == all[|all| - |fitted|..]
    ensures |fitted| < |last| ==> last[|last| - |fitted| - 1..] == all[|all| - |fitted| - 1..]
  {}

  lemma FinishUnfolds(scrub: Scrub, created: string, rows: seq<Row>, target: Target)
    requires Finish(scrub, created, rows, target).Ok?
    ensures var fitted := Fit(scrub, created, LastRows(rows), target);
            && Finish(scrub, created, rows, target) == Ok(Rendered(scrub, created, fitted, target))
            && |Rendered(scrub, created, fitted, target)| <= MAX_AUDIT_BODY_CHARS
    ensures forall k :: 0 <= k < |LastRows(rows)| ==> Clean(scrub, LastRows(rows)[k].command) != ""
  {
    hide Fit, LastRows, Clean, Rendered;
  }

  lemma RenderablePart(scrub: Scrub, rows: seq<Row>, cut: nat, d: nat)
    requires RowsOk(rows) && cut <= d <= |rows|
    requires forall k :: 0 <= k < |rows[cut..]| ==> Clean(scrub, rows[cut..][k].command) != ""
    ensures AllRenderable(scrub, rows[d..])
  {
    hide Clean, RowOk;
    forall k | 0 <= k < |rows[d..]| ensures Renderable(scrub, rows[d..][k]) {
      assert rows[d..][k] == rows[d + k] == rows[cut..][d + k - cut];
    }
  }

  lemma FinishReadsBack(scrub: Scrub, created: string, rows: seq<Row>, target: Target)
    requires RowsOk(rows) && scrub.Valid() && CreatedOk(created) && target.Valid()
    requires Finish(scrub, created, rows, target).Ok?
    ensures var body := Finish(scrub, created, rows, target).value;
            var d := Dropped(scrub, created, rows, target);
            && 0 <= d <= |rows| && (rows != [] ==> d < |rows|)
            && body == Rendered(scrub, created, rows[d..], target)
            && AllRenderable(scrub, rows[d..])
            && IsExpected(body, target) && ParseCreated(SplitLines(body)) == Ok(created)
            && ParseRows(body) == Ok(WrittenRows(scrub, rows[d..]))
            && |body| <= MAX_AUDIT_BODY_CHARS
  {
    hide *;
    FinishUnfolds(scrub, created, rows, target);
    TrimmingIsMinimal(scrub, created, rows, target);
    LastRowsIs(rows);
    FitIsSuffix(scrub, created, LastRows(rows), target);
    var d := Dropped(scrub, created, rows, target);
    DroppedIs(scrub, created, rows, target);
    RenderablePart(scrub, rows, |rows| - |LastRows(rows)|, d);
    CommentRoundTrip(scrub, created, rows[d..], target);
  }

  // ---------------------------------------------------------------------------------------------
  // Appending
  // ---------------------------------------------------------------------------------------------

  datatype Entry = Entry(command: string, status: string, when: string, delivery: Option<string>)

  function NewRow(scrub: Scrub, entry: Entry): Row {
    Row(entry.when, Normalized(scrub, entry.command), entry.status, entry.delivery, None)
  }

  predicate HasDelivery(rows: seq<Row>, id: string) {
    exists k :: 0 <= k < |rows| && rows[k].delivery == Some(id)
  }

  predicate KnownDelivery(rows: seq<Row>, delivery: Option<string>) {
    delivery.Some? && HasDelivery(rows, delivery.value)
  }

  /** Append one row; the empty text stands for a comment that does not exist yet. */
  function Append(scrub: Scrub, body: string, entry: Entry, target: Target): Result<string, AuditError> {
    if !StatusOk(entry.status) then Err(BadStatus)
    else if entry.delivery.Some? && !HiddenIdOk(entry.delivery.value) then Err(BadDeliveryId)
    else if body == "" || !IsExpected(body, target) then Finish(scrub, entry.when, [NewRow(scrub, entry)], target)
    else
      match ParseCreated(SplitLines(body))
      case Err(e) => Err(e)
      case Ok(created) =>
        match ParseRows(body)
        case Err(e) => Err(e)
        case Ok(rows) =>
          if KnownDelivery(rows, entry.delivery) then Ok(body)
          else Finish(scrub, created, rows + [NewRow(scrub, entry)], target)
  }

  predicate EntryOk(entry: Entry) { TimeOk(entry.when) }

  /**
    Appending to a comment of this pull request: either the delivery is already there and the text is returned
    as it was, or the rows read back are the old rows and the new one, less the oldest rows the caps drop.
   */
  lemma AppendKeepsRows(scrub: Scrub, body: string, created: string, rows: seq<Row>, entry: Entry, target: Target)
    requires scrub.Valid() && target.Valid() && EntryOk(entry)
    requires body != "" && IsExpected(body, target)
    requires ParseCreated(SplitLines(body)) == Ok(created) && ParseRows(body) == Ok(rows)
    requires Append(scrub, body, entry, target).Ok?
    ensures var after := Append(scrub, body, entry, target).value;
            if KnownDelivery(rows, entry.delivery) then after == body
            else
              var all := rows + [NewRow(scrub, entry)];
              var d := Dropped(scrub, created, all, target);
              && 0 <= d < |all|
              && IsExpected(after, target)
              && ParseCreated(SplitLines(after)) == Ok(created)
              && ParseRows(after) == Ok(WrittenRows(scrub, all[d..]))
  {
    AppendUnfolds(scrub, body, created, rows, entry, target);
    if !KnownDelivery(rows, entry.delivery) {
      ParsedRowsOk(body);
      ParsedCreatedOk(SplitLines(body));
      NewRowOk(scrub, entry);
      hide *;
      var all := rows + [NewRow(scrub, entry)];
      RowsOkAppend(rows, NewRow(scrub, entry));
      FinishReadsBack(scrub, created, all, target);
    }
  }

  lemma AppendUnfolds(scrub: Scrub, body: string, created: string, rows: seq<Row>, entry: Entry, target: Target)
    requires body != "" && IsExpected(body, target)
    requires ParseCreated(SplitLines(body)) == Ok(created) && ParseRows(body) == Ok(rows)
    requires Append(scrub, body, entry, target).Ok?
    ensures StatusOk(entry.status) && (entry.delivery.Some? ==> HiddenIdOk(entry.delivery.value))
    ensures Append(scrub, body, entry, target) ==
            if KnownDelivery(rows, entry.delivery) then Ok(body)
            else Finish(scrub, created, rows + [NewRow(scrub, entry)], target)
  {
    hide IsExpected, ParseCreated, SplitLines, ParseRows, Finish, NewRow, StatusOk, HiddenIdOk, KnownDelivery;
  }

  lemma RowsOkAppend(rows: seq<Row>, row: Row)
    requires RowsOk(rows) && RowOk(row)
    ensures RowsOk(rows + [row])
  {
    hide RowOk;
  }

  lemma NewRowOk(scrub: Scrub, entry: Entry)
    requires StatusOk(entry.status) && TimeOk(entry.when)
    requires entry.delivery.Some? ==> HiddenIdOk(entry.delivery.value)
    ensures RowOk(NewRow(scrub, entry))
  {}

  /** The first append, or one over a text that is not this pull request's audit comment, starts a new table. */
  lemma AppendStarts(scrub: Scrub, body: string, entry: Entry, target: Target)
    requires scrub.Valid() && target.Valid() && EntryOk(entry)
    requires body == "" || !IsExpected(body, target)
    requires Append(scrub, body, entry, target).Ok?
    ensures var after := Append(scrub, body, entry, target).value;
            && after != "" && IsExpected(after, target)
            && ParseCreated(SplitLines(after)) == Ok(entry.when)
            && ParseRows(after) == Ok(WrittenRows(scrub, [NewRow(scrub, entry)]))
  {
    hide *;
    AppendStartsBy(scrub, body, entry, target);
    TimeIsCreated(entry);
    NewRowOk(scrub, entry);
    var all := [NewRow(scrub, entry)];
    OneRowOk(NewRow(scrub, entry));
    FinishReadsBack(scrub, entry.when, all, target);
    var d := Dropped(scrub, entry.when, all, target);
    assert d == 0 && all[d..] == all;
    ExpectedNotEmpty(target);
  }

  lemma AppendStartsBy(scrub: Scrub, body: string, entry: Entry, target: Target)
    requires body == "" || !IsExpected(body, target)
    requires Append(scrub, body, entry, target).Ok?
    ensures StatusOk(entry.status) && (entry.delivery.Some? ==> HiddenIdOk(entry.delivery.value))
    ensures Append(scrub, body, entry, target) == Finish(scrub, entry.when, [NewRow(scrub, entry)], target)
  {
    hide IsExpected, ParseCreated, SplitLines, ParseRows, Finish, NewRow, StatusOk, HiddenIdOk, KnownDelivery;
  }

  lemma OneRowOk(row: Row)
    requires RowOk(row)
    ensures RowsOk([row])
  {
    hide RowOk;
  }

  lemma TimeIsCreated(entry: Entry)
    requires EntryOk(entry)
    ensures TimeOk(entry.when) && CreatedOk(entry.when)
  {
    hide Stripped, OneLine;
  }

  lemma ExpectedNotEmpty(target: Target)
    ensures !IsExpected("", target)
  {
    assert SplitLines("") == [];
  }

  /**
    A redelivered webhook adds nothing: once an append has put a delivery into the comment, appending the same
    delivery again, with whatever command and time, returns the text unchanged. (The caps never drop the row
    that was just added, but a later append may drop it; see RememberedExactly.)
   */
  lemma RedeliveryIsSilent(scrub: Scrub, body: string, entry: Entry, again: Entry, target: Target)
    requires scrub.Valid() && target.Valid() && EntryOk(entry)
    requires entry.delivery.Some? && again.delivery == entry.delivery && StatusOk(again.status)
    requires Append(scrub, body, entry, target).Ok?
    ensures var after := Append(scrub, body, entry, target).value;
            Append(scrub, after, again, target) == Ok(after)
  {
    var after := Append(scrub, body, entry, target).value;
    assert HiddenIdOk(entry.delivery.value);
    ExpectedNotEmpty(target);
    if body == "" || !IsExpected(body, target) {
      AppendStarts(scrub, body, entry, target);
      DeliverySurvives(scrub, [], NewRow(scrub, entry), 0, entry.delivery.value);
      RedeliveryUnchanged(scrub, after, again, target);
    } else {
      var created := ParseCreated(SplitLines(body)).value;
      var rows := ParseRows(body).value;
      AppendKeepsRows(scrub, body, created, rows, entry, target);
      if KnownDelivery(rows, entry.delivery) {
        RedeliveryUnchanged(scrub, after, again, target);
      } else {
        var all := rows + [NewRow(scrub, entry)];
        DeliverySurvives(scrub, rows, NewRow(scrub, entry), Dropped(scrub, created, all, target), entry.delivery.value);
        RedeliveryUnchanged(scrub, after, again, target);
      }
    }
  }

  /** Whether appending an entry leaves a delivery in the table: its row must not be among those the caps drop. */
  predicate Remembered(scrub: Scrub, created: string, rows: seq<Row>, entry: Entry, target: Target, id: string) {
    var all := rows + [NewRow(scrub, entry)];
    var d := Dropped(scrub, created, all, target);
    if KnownDelivery(rows, entry.delivery) then HasDelivery(rows, id)
    else 0 <= d <= |all| && HasDelivery(all[d..], id)
  }

  /**
    A delivery is known only as long as its row is in the table, and a redelivery adds a row exactly when it is not
    known any more: after any append, appending a delivery returns the text unchanged if and only if the caps left
    one of its rows, and otherwise the delivery's new row is the last one.
   */
  lemma RememberedExactly(scrub: Scrub, body: string, created: string, rows: seq<Row>, entry: Entry, again: Entry, target: Target)
    requires scrub.Valid() && target.Valid() && EntryOk(entry) && EntryOk(again)
    requires body != "" && IsExpected(body, target)
    requires ParseCreated(SplitLines(body)) == Ok(created) && ParseRows(body) == Ok(rows)
    requires Append(scrub, body, entry, target).Ok?
    requires var after := Append(scrub, body, entry, target).value; Append(scrub, after, again, target).Ok?
    requires again.delivery.Some?
    ensures var after := Append(scrub, body, entry, target).value;
            var twice := Append(scrub, after, again, target);
            && (twice == Ok(after) <==> Remembered(scrub, created, rows, entry, target, again.delivery.value))
            && ParseRows(twice.value).Ok? && HasDelivery(ParseRows(twice.value).value, again.delivery.value)
            && (twice != Ok(after) ==> EndsWith(ParseRows(twice.value).value, again.delivery))
  {
    hide *;
    var id := again.delivery.value;
    var after := Append(scrub, body, entry, target).value;
    AppendKeepsRows(scrub, body, created, rows, entry, target);
    var all := rows + [NewRow(scrub, entry)];
    var d := Dropped(scrub, created, all, target);
    RememberedIs(scrub, created, rows, entry, target, id);
    ExpectedNotEmpty(target);
    var kept := ParseRows(after).value;
    if !KnownDelivery(rows, entry.delivery) {
      WrittenDelivery(scrub, all[d..], id);
    }
    KnownIs(kept, again.delivery);
    AppendKeepsRows(scrub, after, created, kept, again, target);
    if !HasDelivery(kept, id) {
      var more := kept + [NewRow(scrub, again)];
      var e := Dropped(scrub, created, more, target);
      NewRowDelivery(scrub, again);
      DeliverySurvives(scrub, kept, NewRow(scrub, again), e, id);
    }
  }

  predicate EndsWith(rows: seq<Row>, delivery: Option<string>) { rows != [] && rows[|rows| - 1].delivery == delivery }

  lemma RememberedIs(scrub: Scrub, created: string, rows: seq<Row>, entry: Entry, target: Target, id: string)
    ensures var all := rows + [NewRow(scrub, entry)];
            var d := Dropped(scrub, created, all, target);
            Remembered(scrub, created, rows, entry, target, id) <==>
              if KnownDelivery(rows, entry.delivery) then HasDelivery(rows, id) else 0 <= d <= |all| && HasDelivery(all[d..], id)
  {
    hide Dropped, NewRow, KnownDelivery, HasDelivery;
  }

  lemma KnownIs(rows: seq<Row>, delivery: Option<string>)
    ensures KnownDelivery(rows, delivery) <==> delivery.Some? && HasDelivery(rows, delivery.value)
  {
    hide HasDelivery;
  }

  lemma NewRowDelivery(scrub: Scrub, entry: Entry)
    ensures NewRow(scrub, entry).delivery == entry.delivery
  {
    hide Normalized;
  }

  lemma WrittenDelivery(scrub: Scrub, rows: seq<Row>, id: string)
    ensures HasDelivery(WrittenRows(scrub, rows), id) <==> HasDelivery(rows, id)
  {
    hide Clean;
    var out := WrittenRows(scrub, rows);
    assert forall k :: 0 <= k < |rows| ==> out[k].delivery == rows[k].delivery;
  }

  /** So a delivery does come back: in a full table its only row is the oldest one, and anything else is appended. */
  lemma EvictedDeliveryReturns(scrub: Scrub, created: string, rows: seq<Row>, entry: Entry, target: Target, id: string)
    requires |rows| == MAX_AUDIT_ROWS && rows[0].delivery == Some(id) && !HasDelivery(rows[1..], id)
    requires !KnownDelivery(rows, entry.delivery)
    ensures HasDelivery(rows, id) && !Remembered(scrub, created, rows, entry, target, id)
  {
    var row := NewRow(scrub, entry);
    var all := rows + [row];
    var d := Dropped(scrub, created, all, target);
    TrimmingIsMinimal(scrub, created, all, target);
    NewRowDelivery(scrub, entry);
    hide Dropped, Fit, NewRow, Oversize;
    assert KnownDelivery(rows, Some(id));
    forall k | 0 <= k < |all[d..]| ensures all[d..][k].delivery != Some(id) {
      assert all[d..][k] == all[d + k];
      assert d + k < |rows| ==> all[d + k] == rows[1..][d + k - 1];
    }
  }

  lemma DeliverySurvives(scrub: Scrub, rows: seq<Row>, row: Row, d: int, id: string)
    requires row.delivery == Some(id) && 0 <= d <= |rows|
    ensures HasDelivery(WrittenRows(scrub, (rows + [row])[d..]), id)
    ensures EndsWith(WrittenRows(scrub, (rows + [row])[d..]), Some(id))
    ensures (rows + [row])[d..] == rows[d..] + [row]
  {
    hide Clean;
    var out := WrittenRows(scrub, (rows + [row])[d..]);
    assert out[|rows| - d] == Written(scrub, row);
  }

  lemma RedeliveryUnchanged(scrub: Scrub, body: string, again: Entry, target: Target)
    requires body != "" && IsExpected(body, target) && ParseCreated(SplitLines(body)).Ok? && ParseRows(body).Ok?
    requires StatusOk(again.status) && again.delivery.Some? && HiddenIdOk(again.delivery.value)
    requires HasDelivery(ParseRows(body).value, again.delivery.value)
    ensures Append(scrub, body, again, target) == Ok(body)
  {
    hide IsExpected, ParseCreated, SplitLines, ParseRows, Finish, NewRow, StatusOk, HiddenIdOk, HasDelivery;
  }

  // ---------------------------------------------------------------------------------------------
  // Changing a status
  // ---------------------------------------------------------------------------------------------

  function Restamped(row: Row, delivery: string, status: string): Row {
    if row.delivery == Some(delivery) then row.(status := status) else row
  }

  function Restamp(rows: seq<Row>, delivery: string, status: string): seq<Row> {
    seq(|rows|, k requires 0 <= k < |rows| => Restamped(rows[k], delivery, status))
  }

  /** Give the row of a delivery a new status; a text without such a row is returned as it was. */
  function UpdateStatus(scrub: Scrub, body: string, delivery: string, status: string, target: Target): Result<string, AuditError> {
    if !StatusOk(status) then Err(BadStatus)
    else if !HiddenIdOk(delivery) then Err(BadDeliveryId)
    else if !IsExpected(body, target) then Ok(body)
    else
      match ParseCreated(SplitLines(body))
      case Err(e) => Err(e)
      case Ok(created) =>
        match ParseRows(body)
        case Err(e) => Err(e)
        case Ok(rows) =>
          if Restamp(rows, delivery, status) == rows then Ok(body)
          else Finish(scrub, created, Restamp(rows, delivery, status), target)
  }

  predicate DeliveryHasStatus(body: string, delivery: string, status: string) {
    && ParseRows(body).Ok?
    && exists k :: 0 <= k < |ParseRows(body).value| && ParseRows(body).value[k].delivery == Some(delivery)
                   && ParseRows(body).value[k].status == status
  }

  lemma UpdateUnfolds(scrub: Scrub, body: string, created: string, rows: seq<Row>, delivery: string, status: string, target: Target)
    requires IsExpected(body, target)
    requires ParseCreated(SplitLines(body)) == Ok(created) && ParseRows(body) == Ok(rows)
    requires UpdateStatus(scrub, body, delivery, status, target).Ok?
    ensures StatusOk(status) && HiddenIdOk(delivery)
    ensures UpdateStatus(scrub, body, delivery, status, target) ==
            if Restamp(rows, delivery, status) == rows then Ok(body)
            else Finish(scrub, created, Restamp(rows, delivery, status), target)
  {
    hide IsExpected, ParseCreated, SplitLines, ParseRows, Finish, StatusOk, HiddenIdOk, Restamp;
  }

  /** A status change keeps every row in its place and touches only the status of the rows of that delivery. */
  lemma UpdateKeepsRows(scrub: Scrub, body: string, created: string, rows: seq<Row>, delivery: string, status: string, target: Target)
    requires scrub.Valid() && target.Valid()
    requires IsExpected(body, target)
    requires ParseCreated(SplitLines(body)) == Ok(created) && ParseRows(body) == Ok(rows)
    requires UpdateStatus(scrub, body, delivery, status, target).Ok?
    ensures var after := UpdateStatus(scrub, body, delivery, status, target).value;
            var changed := Restamp(rows, delivery, status);
            if changed == rows then after == body
            else
              var d := Dropped(scrub, created, changed, target);
              && 0 <= d < |rows|
              && IsExpected(after, target)
              && ParseCreated(SplitLines(after)) == Ok(created)
              && ParseRows(after) == Ok(WrittenRows(scrub, changed[d..]))
  {
    UpdateUnfolds(scrub, body, created, rows, delivery, status, target);
    var changed := Restamp(rows, delivery, status);
    if changed != rows {
      ParsedRowsOk(body);
      ParsedCreatedOk(SplitLines(body));
      RestampOk(rows, delivery, status);
      hide *;
      FinishReadsBack(scrub, created, changed, target);
    }
  }

  lemma RestampOk(rows: seq<Row>, delivery: string, status: string)
    requires RowsOk(rows) && StatusOk(status)
    ensures RowsOk(Restamp(rows, delivery, status)) && |Restamp(rows, delivery, status)| == |rows|
    ensures Restamp(rows, delivery, status) != rows ==> rows != []
  {
    hide TimeOk, HiddenIdOk, StatusOk;
  }
}
