/**
  The durable audit comment: a Markdown table between a heading and a marker line, one row per command.
  The table is the storage format, so what is written must be read back unchanged.
 */
module AuditCodec {
  import opened Wrappers
  import opened Text

  const MAX_AUDIT_ROWS: nat := 200
  const MAX_AUDIT_BODY_CHARS: nat := 60000
  const MAX_COMMAND_CONTEXT_CHARS: nat := 200

  const HEADING := "## openci-tf commands"
  const TABLE_HEADER := "| Time | Command | Status |"
  const TABLE_SEP := "|------|---------|--------|"
  const CREATED := "Created:"

  predicate StatusOk(status: string) { status == "accepted" || status == "not supported" }

  datatype Row = Row(time: string, command: string, status: string, delivery: Option<string>, legacy: Option<string>)

  datatype AuditError =
    | NoMarkerLine | CreatedLineCount | TableCount | SeparatorPlace | ContentBeforeTable | ContentAfterTable
    | UnparseableRow | BadStatus | BadDeliveryId | EmptyCell | TooLarge

  /** The pull request an audit comment belongs to. */
  datatype Target = Target(repo: string, pr: nat) {
    predicate Valid() { repo != "" && ':' !in repo && Stripped(repo) && OneLine(repo) && pr >= 1 }
  }

  /**
    The text this model leaves open: `pre` stands for token redaction followed by the removal of HTML comments
    and marker tokens, `digest` for the truncation hash, `usage` for the line that lists the commands.
   */
  datatype Scrub = Scrub(pre: string -> string, digest: string -> string, usage: string) {
    predicate Valid() { |usage| >= 2 && usage[0] == '`' && usage[|usage| - 1] == '`' && OneLine(usage) }
  }

  // ---------------------------------------------------------------------------------------------
  // Command cells
  // ---------------------------------------------------------------------------------------------

  function Unescape(s: string): (r: string)
    ensures forall c :: c in r ==> c in s
  {
    if s == "" then ""
    else if |s| >= 2 && s[0] == '\\' && s[1] == '|' then "|" + Unescape(s[2..])
    else [s[0]] + Unescape(s[1..])
  }

  function Escape(s: string): (r: string)
    ensures forall c :: c in r ==> c in s || c == '\\'
  {
    if s == "" then ""
    else (if s[0] == '|' then "\\|" else [s[0]]) + Escape(s[1..])
  }

  function DropBackticks(s: string): (r: string)
    ensures '`' !in r && forall c :: c in r ==> c in s
  {
    if s == "" then ""
    else (if s[0] == '`' then "" else [s[0]]) + DropBackticks(s[1..])
  }

  /** What the cell pattern accepts between backquotes: an escaped pipe, or anything that is not a pipe. */
  predicate PipesEscaped(s: string) {
    || s == ""
    || (|s| >= 2 && s[0] == '\\' && s[1] == '|' && PipesEscaped(s[2..]))
    || (s[0] != '|' && !(|s| >= 2 && s[0] == '\\' && s[1] == '|') && PipesEscaped(s[1..]))
  }

  lemma {:induction false} UnescapeEscape(s: string)
    ensures Unescape(Escape(s)) == s
  {
    if s != "" {
      UnescapeEscape(s[1..]);
      var rest := Escape(s[1..]);
      if s[0] == '|' {
        assert ("\\|" + rest)[2..] == rest;
      } else {
        assert Escape(s) == [s[0]] + rest && ([s[0]] + rest)[1..] == rest;
        if |s| > 1 {
          assert rest == (if s[1] == '|' then "\\|" else [s[1]]) + Escape(s[2..]);
        }
      }
    }
  }

  lemma {:induction false} EscapeEscapesPipes(s: string)
    ensures PipesEscaped(Escape(s)) && !HasPrefix(Escape(s), ['|'])
  {
    if s != "" {
      EscapeEscapesPipes(s[1..]);
      var rest := Escape(s[1..]);
      if s[0] == '|' {
        assert ("\\|" + rest)[2..] == rest;
      } else {
        assert ([s[0]] + rest)[1..] == rest;
      }
    }
  }

  function Clean(scrub: Scrub, command: string): string {
    Escape(Unescape(DropBackticks(Collapse(scrub.pre(command)))))
  }

  lemma {:induction false} JoinedWordsOneLine(words: seq<string>)
    requires forall w :: w in words ==> forall k :: 0 <= k < |w| ==> !Space(w[k])
    ensures OneLine(Join(words, ' '))
  {
    if |words| > 1 {
      JoinedWordsOneLine(words[1..]);
      assert OneLine(words[0] + [' ']);
    }
  }

  lemma OneLineByMembers(a: string, b: string)
    requires OneLine(b) && forall c :: c in a ==> c in b || c == '\\'
    ensures OneLine(a)
  {
    forall k | 0 <= k < |a| ensures !LineBreak(a[k]) {
      assert a[k] in a;
    }
  }

  lemma CleanCell(scrub: Scrub, command: string)
    ensures OneLine(Clean(scrub, command)) && '`' !in Clean(scrub, command) && PipesEscaped(Clean(scrub, command))
  {
    var raw := scrub.pre(command);
    JoinedWordsOneLine(Words(raw));
    var bare := Unescape(DropBackticks(Collapse(raw)));
    EscapeEscapesPipes(bare);
    hide Escape, Unescape, DropBackticks, PipesEscaped, LineBreak, OneLine;
    OneLineByMembers(Clean(scrub, command), Collapse(raw));
  }

  function Bound(scrub: Scrub, command: string): string {
    if |command| <= MAX_COMMAND_CONTEXT_CHARS then command
    else command[..MAX_COMMAND_CONTEXT_CHARS] + " [truncated sha256:" + scrub.digest(command) + "]"
  }

  function Normalized(scrub: Scrub, command: string): string { Bound(scrub, Clean(scrub, command)) }

  // ---------------------------------------------------------------------------------------------
  // One row
  // ---------------------------------------------------------------------------------------------

  predicate HiddenIdOk(id: string) {
    id != "" && '>' !in id && forall k :: 0 <= k < |id| ==> !Space(id[k])
  }

  const DELIVERY_OPEN := "<!-- d:"
  const LEGACY_OPEN := "<!-- l:"
  const HIDDEN_CLOSE := " -->"

  function Hidden(row: Row): string {
    if row.delivery.Some? && row.delivery.value != "" then DELIVERY_OPEN + row.delivery.value + HIDDEN_CLOSE
    else if row.legacy.Some? && row.legacy.value != "" then LEGACY_OPEN + row.legacy.value + HIDDEN_CLOSE
    else ""
  }

  function Padded(s: string): string { [' '] + s + [' '] }

  /** One table line: | time | `command` | status | and then the hidden id. */
  function RowText(time: string, cell: string, status: string, hidden: string): string {
    "" + ['|'] + (Padded(time) + ['|'] + ([' '] + ['`'] + (cell + ['`'] + TailText(status, hidden))))
  }

  function TailText(status: string, hidden: string): string {
    [' '] + ['|'] + (Padded(status) + ['|'] + hidden)
  }

  function RowLine(scrub: Scrub, row: Row): string {
    RowText(row.time, Clean(scrub, row.command), row.status, Hidden(row))
  }

  function Cut(s: string, c: char): (r: Option<(string, string)>)
    ensures r.Some? ==> s == r.value.0 + [c] + r.value.1 && c !in r.value.0
  {
    var n := IndexOf(s, c);
    if n == |s| then None else Some((s[..n], s[n + 1..]))
  }

  lemma CutAt(a: string, c: char, b: string)
    requires c !in a
    ensures Cut(a + [c] + b, c) == Some((a, b))
  {
    IndexOfAt(a, c, b);
    assert (a + [c] + b)[..|a|] == a && (a + [c] + b)[|a| + 1..] == b;
  }

  /** The identity comment at the end of a row: nothing, a delivery id or a legacy id. */
  function ParseHidden(t: string): Option<(Option<string>, Option<string>)> {
    if t == "" then Some((None, None))
    else if |t| > 11 && HasSuffix(t, HIDDEN_CLOSE) && HiddenIdOk(t[7..|t| - 4]) then
      if HasPrefix(t, DELIVERY_OPEN) then Some((Some(t[7..|t| - 4]), None))
      else if HasPrefix(t, LEGACY_OPEN) then Some((None, Some(t[7..|t| - 4])))
      else None
    else None
  }

  /** The row pattern: time, backquoted command whose pipes are escaped, status, optional hidden id. */
  function ParseRow(line: string): Option<Row> {
    match Cut(line, '|')
    case None => None
    case Some((lead, afterLead)) =>
      if lead != "" then None else
      match Cut(afterLead, '|')
      case None => None
      case Some((timeCell, afterTime)) => if timeCell == "" then None else ParseCommand(Strip(timeCell), afterTime)
  }

  function ParseCommand(time: string, rest: string): Option<Row> {
    match Cut(rest, '`')
    case None => None
    case Some((gap, afterGap)) =>
      if !Blank(gap) then None else
      match Cut(afterGap, '`')
      case None => None
      case Some((command, tail)) =>
        if command == "" || !PipesEscaped(command) then None else ParseTail(time, command, tail)
  }

  function ParseTail(time: string, command: string, rest: string): Option<Row> {
    match Cut(rest, '|')
    case None => None
    case Some((gap, afterGap)) =>
      if !Blank(gap) then None else
      match Cut(afterGap, '|')
      case None => None
      case Some((statusCell, tail)) =>
        if !StatusOk(Strip(statusCell)) then None else
        match ParseHidden(Strip(tail))
        case None => None
        case Some((delivery, legacy)) => Some(Row(time, command, Strip(statusCell), delivery, legacy))
  }

  predicate TimeOk(time: string) { Stripped(time) && OneLine(time) && '|' !in time }

  predicate IdsOk(row: Row) {
    && (row.delivery.Some? ==> HiddenIdOk(row.delivery.value))
    && (row.legacy.Some? ==> HiddenIdOk(row.legacy.value))
    && (row.delivery.None? || row.legacy.None?)
  }

  /** The shape of every row that was read from a table. */
  predicate RowOk(row: Row) { TimeOk(row.time) && StatusOk(row.status) && IdsOk(row) }

  /** What a row needs so that writing it loses nothing. */
  predicate Renderable(scrub: Scrub, row: Row) { RowOk(row) && Clean(scrub, row.command) != "" }

  function Written(scrub: Scrub, row: Row): Row { row.(command := Clean(scrub, row.command)) }

  lemma OneLineConcat(a: string, b: string)
    ensures OneLine(a + b) <==> OneLine(a) && OneLine(b)
  {
    var s := a + b;
    assert s[..|a|] == a && s[|a|..] == b;
    if OneLine(s) {
      assert forall k :: 0 <= k < |a| ==> a[k] == s[k];
      assert forall k :: 0 <= k < |b| ==> b[k] == s[|a| + k];
    }
  }

  lemma HiddenCommentShape(open: string, id: string)
    requires |open| == 7 && OneLine(open) && !Space(open[0]) && HiddenIdOk(id)
    ensures var t := open + id + HIDDEN_CLOSE;
            && t != "" && Strip(t) == t && OneLine(t) && !Space(t[|t| - 1])
            && |t| > 11 && HasSuffix(t, HIDDEN_CLOSE) && HasPrefix(t, open) && t[7..|t| - 4] == id
  {
    var t := open + id + HIDDEN_CLOSE;
    assert t[0] == open[0];
    assert t[|t| - 1] == HIDDEN_CLOSE[3] == '>';
    StripStripped(t);
    OneLineConcat(open, id);
    OneLineConcat(open + id, HIDDEN_CLOSE);
    assert t[..7] == open && t[|t| - 4..] == HIDDEN_CLOSE;
  }

  lemma HiddenRoundTrip(row: Row)
    requires IdsOk(row)
    ensures ParseHidden(Strip(Hidden(row))) == Some((row.delivery, row.legacy))
    ensures OneLine(Hidden(row)) && (Hidden(row) == "" || !Space(Hidden(row)[|Hidden(row)| - 1]))
  {
    if row.delivery.Some? {
      HiddenCommentShape(DELIVERY_OPEN, row.delivery.value);
      ParseHiddenBy(Hidden(row), row.delivery.value, true);
    } else if row.legacy.Some? {
      HiddenCommentShape(LEGACY_OPEN, row.legacy.value);
      ParseHiddenBy(Hidden(row), row.legacy.value, false);
    } else {
      StripStripped("");
    }
  }

  lemma ParseHiddenBy(t: string, id: string, delivery: bool)
    requires |t| > 11 && HasSuffix(t, HIDDEN_CLOSE) && t[7..|t| - 4] == id && HiddenIdOk(id)
    requires HasPrefix(t, if delivery then DELIVERY_OPEN else LEGACY_OPEN)
    ensures ParseHidden(t) == Some(if delivery then (Some(id), None) else (None, Some(id)))
  {
    if !delivery {
      assert t[..7][5] == LEGACY_OPEN[5] == 'l' != 'd' == DELIVERY_OPEN[5];
    }
  }

  lemma PaddedStrips(s: string)
    requires Stripped(s)
    ensures Strip(Padded(s)) == s && Padded(s) != ""
    ensures '|' !in s ==> '|' !in Padded(s)
  {
    StripPadded([' '], s, [' ']);
  }

  lemma ParseTailBy(time: string, command: string, rest: string, gap: string, afterGap: string, statusCell: string,
                    tail: string, ids: (Option<string>, Option<string>))
    requires Blank(gap) && Cut(rest, '|') == Some((gap, afterGap)) && Cut(afterGap, '|') == Some((statusCell, tail))
    requires StatusOk(Strip(statusCell)) && ParseHidden(Strip(tail)) == Some(ids)
    ensures ParseTail(time, command, rest) == Some(Row(time, command, Strip(statusCell), ids.0, ids.1))
  {}

  lemma ParseCommandBy(time: string, rest: string, gap: string, afterGap: string, command: string, tail: string)
    requires Blank(gap) && Cut(rest, '`') == Some((gap, afterGap)) && Cut(afterGap, '`') == Some((command, tail))
    requires command != "" && PipesEscaped(command)
    ensures ParseCommand(time, rest) == ParseTail(time, command, tail)
  {}

  lemma ParseRowBy(line: string, afterLead: string, timeCell: string, afterTime: string)
    requires Cut(line, '|') == Some(("", afterLead)) && Cut(afterLead, '|') == Some((timeCell, afterTime))
    requires timeCell != ""
    ensures ParseRow(line) == ParseCommand(Strip(timeCell), afterTime)
  {}

  lemma TailRoundTrip(time: string, command: string, status: string, hidden: string, ids: (Option<string>, Option<string>))
    requires StatusOk(status) && Stripped(status) && '|' !in status
    requires ParseHidden(Strip(hidden)) == Some(ids)
    ensures ParseTail(time, command, TailText(status, hidden)) == Some(Row(time, command, status, ids.0, ids.1))
  {
    hide StatusOk, Strip, Stripped, ParseHidden, ParseTail, Padded, Cut;
    var afterGap := Padded(status) + ['|'] + hidden;
    BlankSpace();
    PaddedStrips(status);
    CutAt([' '], '|', afterGap);
    CutAt(Padded(status), '|', hidden);
    ParseTailBy(time, command, TailText(status, hidden), [' '], afterGap, Padded(status), hidden, ids);
  }

  lemma BlankSpace()
    ensures Blank([' '])
  {}

  lemma StatusShape(status: string)
    requires StatusOk(status)
    ensures status != "" && Stripped(status) && OneLine(status) && '|' !in status
  {}

  /** Reading a written row returns it, with the cleaned command. */
  lemma RowRoundTrip(scrub: Scrub, row: Row)
    requires Renderable(scrub, row)
    ensures ParseRow(RowLine(scrub, row)) == Some(Written(scrub, row))
  {
    var cell, hidden := Clean(scrub, row.command), Hidden(row);
    CleanCell(scrub, row.command);
    HiddenRoundTrip(row);
    StatusShape(row.status);
    RowTextRoundTrip(row.time, cell, row.status, hidden, (row.delivery, row.legacy));
  }

  lemma RowTextRoundTrip(time: string, cell: string, status: string, hidden: string, ids: (Option<string>, Option<string>))
    requires Stripped(time) && '|' !in time
    requires cell != "" && '`' !in cell && PipesEscaped(cell)
    requires StatusOk(status) && Stripped(status) && '|' !in status
    requires ParseHidden(Strip(hidden)) == Some(ids)
    ensures ParseRow(RowText(time, cell, status, hidden)) == Some(Row(time, cell, status, ids.0, ids.1))
  {
    var afterTime := [' '] + ['`'] + (cell + ['`'] + TailText(status, hidden));
    var afterLead := Padded(time) + ['|'] + afterTime;
    var line := "" + ['|'] + afterLead;
    hide StatusOk, Strip, Stripped, ParseHidden, ParseCommand, ParseRow, Padded, Cut, TailText, PipesEscaped;
    PaddedStrips(time);
    CutAt(Padded(time), '|', afterTime);
    CutAt("", '|', afterLead);
    ParseRowBy(line, afterLead, Padded(time), afterTime);
    CommandRoundTrip(time, cell, status, hidden, ids);
  }

  lemma CommandRoundTrip(time: string, cell: string, status: string, hidden: string, ids: (Option<string>, Option<string>))
    requires cell != "" && '`' !in cell && PipesEscaped(cell)
    requires StatusOk(status) && Stripped(status) && '|' !in status
    requires ParseHidden(Strip(hidden)) == Some(ids)
    ensures ParseCommand(time, [' '] + ['`'] + (cell + ['`'] + TailText(status, hidden)))
         == Some(Row(time, cell, status, ids.0, ids.1))
  {
    BlankSpace();
    hide *;
    var tail := TailText(status, hidden);
    var afterGap := cell + ['`'] + tail;
    CutAt([' '], '`', afterGap);
    CutAt(cell, '`', tail);
    ParseCommandBy(time, [' '] + ['`'] + afterGap, [' '], afterGap, cell, tail);
    TailRoundTrip(time, cell, status, hidden, ids);
  }

  lemma RowTextOneLine(time: string, cell: string, status: string, hidden: string)
    requires OneLine(time) && OneLine(cell) && OneLine(status) && OneLine(hidden)
    ensures OneLine(RowText(time, cell, status, hidden))
  {
    BlankOneLine();
    hide OneLine;
    var last := Padded(status) + ['|'] + hidden;
    var afterGap := cell + ['`'] + TailText(status, hidden);
    var afterTime := [' '] + ['`'] + afterGap;
    PaddedOneLine(status);
    PaddedOneLine(time);
    OneLineConcat(Padded(status), ['|']);
    OneLineConcat(Padded(status) + ['|'], hidden);
    OneLineConcat([' '] + ['|'], last);
    OneLineConcat(cell, ['`']);
    OneLineConcat(cell + ['`'], TailText(status, hidden));
    OneLineConcat([' '] + ['`'], afterGap);
    OneLineConcat(Padded(time), ['|']);
    OneLineConcat(Padded(time) + ['|'], afterTime);
    OneLineConcat("" + ['|'], Padded(time) + ['|'] + afterTime);
  }

  lemma BlankOneLine()
    ensures OneLine([' '] + ['|']) && OneLine([' '] + ['`']) && OneLine("" + ['|']) && OneLine(['|']) && OneLine(['`'])
  {}

  lemma PaddedOneLine(s: string)
    requires OneLine(s)
    ensures OneLine(Padded(s))
  {}

  /** A written row is one line that starts with a pipe, has a backquote, and needs no stripping. */
  lemma RowTextShape(time: string, cell: string, status: string, hidden: string)
    requires OneLine(time) && OneLine(cell) && OneLine(status) && OneLine(hidden)
    requires hidden == "" || !Space(hidden[|hidden| - 1])
    ensures var line := RowText(time, cell, status, hidden);
            line != "" && OneLine(line) && Stripped(line) && line[0] == '|' && '`' in line
  {
    RowTextOneLine(time, cell, status, hidden);
    hide OneLine, Padded;
    var line := RowText(time, cell, status, hidden);
    var last := Padded(status) + ['|'] + hidden;
    var afterTime := [' '] + ['`'] + (cell + ['`'] + TailText(status, hidden));
    assert line[0] == '|' && afterTime[1] == '`' && afterTime == line[|line| - |afterTime|..];
    assert last == line[|line| - |last|..];
    assert last[|last| - 1] == if hidden == "" then '|' else hidden[|hidden| - 1];
    assert line[|line| - 1] == last[|last| - 1];
  }

  lemma RowLineShape(scrub: Scrub, row: Row)
    requires Renderable(scrub, row)
    ensures var line := RowLine(scrub, row);
            line != "" && OneLine(line) && Stripped(line) && line[0] == '|' && '`' in line
  {
    CleanCell(scrub, row.command);
    HiddenRoundTrip(row);
    StatusShape(row.status);
    RowTextShape(row.time, Clean(scrub, row.command), row.status, Hidden(row));
  }

  lemma CutOneLine(s: string, c: char)
    requires OneLine(s) && Cut(s, c).Some?
    ensures OneLine(Cut(s, c).value.0) && OneLine(Cut(s, c).value.1)
  {
    var (a, b) := Cut(s, c).value;
    OneLineConcat(a + [c], b);
    OneLineConcat(a, [c]);
  }

  lemma ParsedTailOk(time: string, command: string, rest: string)
    requires ParseTail(time, command, rest).Some? && TimeOk(time)
    ensures var row := ParseTail(time, command, rest).value;
            RowOk(row) && row.time == time && row.command == command
  {
    hide Strip, Cut, Blank, TimeOk;
  }

  lemma ParsedCommandOk(time: string, rest: string)
    requires ParseCommand(time, rest).Some? && TimeOk(time)
    ensures RowOk(ParseCommand(time, rest).value)
  {
    hide Strip, Cut, Blank, TimeOk, ParseTail, RowOk, PipesEscaped;
    var (gap, afterGap) := Cut(rest, '`').value;
    var (command, tail) := Cut(afterGap, '`').value;
    ParsedTailOk(time, command, tail);
  }

  /** A row that was read can be written again. */
  lemma ParsedRowOk(line: string)
    requires ParseRow(line).Some? && OneLine(line)
    ensures RowOk(ParseRow(line).value)
  {
    var (lead, afterLead) := Cut(line, '|').value;
    var (timeCell, afterTime) := Cut(afterLead, '|').value;
    CutOneLine(line, '|');
    CutOneLine(afterLead, '|');
    StripIsPart(timeCell);
    hide Strip, Cut, ParseCommand, RowOk;
    ParsedCommandOk(Strip(timeCell), afterTime);
  }

  // ---------------------------------------------------------------------------------------------
  // The marker line
  // ---------------------------------------------------------------------------------------------

  const MARKER_OPEN := "comment_object_id:"
  const PR_OPEN := ":::pr-"
  const MARKER_CLOSE := "::commands-run"

  function Marker(target: Target): string {
    MARKER_OPEN + " " + target.repo + PR_OPEN + Decimal(target.pr) + MARKER_CLOSE
  }

  /** The marker pattern on a stripped line; a repository name that is all spaces keeps its last one. */
  function ParseMarker(line: string): Option<(string, string)> {
    if !HasPrefix(line, MARKER_OPEN) then None else
    match Cut(line[|MARKER_OPEN|..], ':')
    case None => None
    case Some((repo, afterRepo)) =>
      if repo == "" || !HasPrefix([':'] + afterRepo, PR_OPEN) then None else
      match Cut(([':'] + afterRepo)[|PR_OPEN|..], ':')
      case None => None
      case Some((digits, tail)) =>
        if digits == "" || !AllDigits(digits) || [':'] + tail != MARKER_CLOSE then None
        else Some((if LStrip(repo) == "" then repo[|repo| - 1..] else LStrip(repo), digits))
  }

  lemma ParseMarkerBy(line: string, repo: string, afterRepo: string, digits: string, tail: string)
    requires HasPrefix(line, MARKER_OPEN)
    requires Cut(line[|MARKER_OPEN|..], ':') == Some((repo, afterRepo)) && repo != ""
    requires HasPrefix([':'] + afterRepo, PR_OPEN) && Cut(([':'] + afterRepo)[|PR_OPEN|..], ':') == Some((digits, tail))
    requires digits != "" && AllDigits(digits) && [':'] + tail == MARKER_CLOSE
    requires LStrip(repo) != ""
    ensures ParseMarker(line) == Some((LStrip(repo), digits))
  {}

  lemma MarkerRoundTrip(target: Target)
    requires target.Valid()
    ensures ParseMarker(Marker(target)) == Some((target.repo, Decimal(target.pr)))
    ensures var m := Marker(target); m != "" && OneLine(m) && Stripped(m) && m[0] == 'c'
  {
    hide *;
    MarkerColons();
    TargetParts(target);
    var repo, digits := " " + target.repo, Decimal(target.pr);
    MarkerIs(target);
    MarkerShape(target.repo, digits, Marker(target));
    DigitsNoColon(digits);
    MarkerTextParses(MARKER_OPEN, PR_OPEN, MARKER_CLOSE, repo, digits);
    var m := MARKER_OPEN + repo + PR_OPEN + digits + MARKER_CLOSE;
    assert m == Marker(target);
    ParseMarkerBy(m, repo, PR_OPEN[1..] + digits + MARKER_CLOSE, digits, MARKER_CLOSE[1..]);
  }

  lemma MarkerIs(target: Target)
    ensures Marker(target) == MARKER_OPEN + " " + target.repo + PR_OPEN + Decimal(target.pr) + MARKER_CLOSE
    ensures Decimal(target.pr) != "" && AllDigits(Decimal(target.pr))
  {
    hide Decimal, MARKER_OPEN, PR_OPEN, MARKER_CLOSE;
  }

  /** The cuts that reading a marker makes. */
  lemma MarkerTextParses(open: string, middle: string, close: string, repo: string, digits: string)
    requires middle != "" && middle[0] == ':' && close != "" && close[0] == ':' && ':' !in repo && ':' !in digits
    ensures var m := open + repo + middle + digits + close;
            var afterRepo := middle[1..] + digits + close;
            && HasPrefix(m, open) && Cut(m[|open|..], ':') == Some((repo, afterRepo))
            && HasPrefix([':'] + afterRepo, middle)
            && Cut(([':'] + afterRepo)[|middle|..], ':') == Some((digits, close[1..]))
  {
    hide Cut;
    var m := open + repo + middle + digits + close;
    var afterRepo := middle[1..] + digits + close;
    assert m[..|open|] == open && m[|open|..] == repo + [':'] + afterRepo;
    CutAt(repo, ':', afterRepo);
    assert [':'] + afterRepo == middle + (digits + close);
    assert ([':'] + afterRepo)[..|middle|] == middle;
    assert ([':'] + afterRepo)[|middle|..] == digits + close == digits + [':'] + close[1..];
    CutAt(digits, ':', close[1..]);
  }

  lemma MarkerColons()
    ensures PR_OPEN != "" && PR_OPEN[0] == ':' && MARKER_CLOSE != "" && MARKER_CLOSE[0] == ':'
    ensures [':'] + MARKER_CLOSE[1..] == MARKER_CLOSE
  {}

  lemma TargetParts(target: Target)
    requires target.Valid()
    ensures ':' !in " " + target.repo && OneLine(target.repo)
    ensures LStrip(" " + target.repo) == target.repo != ""
  {
    LStripPadded(" ", target.repo);
  }

  lemma DigitsNoColon(digits: string)
    requires AllDigits(digits)
    ensures ':' !in digits
  {}

  lemma MarkerParts()
    ensures OneLine(MARKER_OPEN) && OneLine(" ") && OneLine(PR_OPEN) && OneLine(MARKER_CLOSE)
    ensures MARKER_OPEN != "" && MARKER_OPEN[0] == 'c' && MARKER_CLOSE != "" && !Space(MARKER_CLOSE[|MARKER_CLOSE| - 1])
    ensures !Space('c')
  {}

  lemma DigitsOneLine(digits: string)
    requires AllDigits(digits)
    ensures OneLine(digits)
  {}

  lemma MarkerShape(repo: string, digits: string, m: string)
    requires OneLine(repo) && AllDigits(digits)
    requires m == MARKER_OPEN + " " + repo + PR_OPEN + digits + MARKER_CLOSE
    ensures m != "" && OneLine(m) && Stripped(m) && m[0] == 'c'
  {
    MarkerParts();
    DigitsOneLine(digits);
    hide OneLine, MARKER_OPEN, PR_OPEN, MARKER_CLOSE, AllDigits, Space;
    OneLineConcat(MARKER_OPEN, " ");
    OneLineConcat(MARKER_OPEN + " ", repo);
    OneLineConcat(MARKER_OPEN + " " + repo, PR_OPEN);
    OneLineConcat(MARKER_OPEN + " " + repo + PR_OPEN, digits);
    OneLineConcat(MARKER_OPEN + " " + repo + PR_OPEN + digits, MARKER_CLOSE);
    assert m[0] == MARKER_OPEN[0] && m[|m| - 1] == MARKER_CLOSE[|MARKER_CLOSE| - 1];
  }
}
