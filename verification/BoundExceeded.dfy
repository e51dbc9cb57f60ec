/** A wrapped report that comes back longer than its limit, at every limit that leaves room for anything. */
module BoundExceeded {
  import opened Wrappers
  import opened Text
  import opened CommentBounds
  import opened BoundComment

  const OPENING := "<details>" + "\n" + "<summary>" + "x" + "</summary>" + "\n\n"

  /** A block of artifacts that is opened and never closed. */
  const TAIL := "> <details>\n" + REPORT_ARTIFACTS_MARKER

  function Xs(n: nat): string { seq(n, _ => 'x') }

  function Inner(n: nat): string { Xs(n) + TAIL }

  // ---------------------------------------------------------------------------------------------
  // Searching
  // ---------------------------------------------------------------------------------------------

  lemma {:induction false} FindNone(s: string, part: string, from: nat)
    requires from <= |s| && part != "" && part[0] !in s
    ensures Find(s, part, from) == None
    decreases |s| - from
  {
    if from + |part| <= |s| {
      assert s[from..from + |part|][0] == s[from] && s[from] in s;
      if from < |s| {
        FindNone(s, part, from + 1);
      }
    }
  }

  lemma {:induction false} FindAt(s: string, part: string, from: nat, at: nat)
    requires from <= at && at + |part| <= |s| && s[at..at + |part|] == part && part != ""
    requires forall k :: from <= k < at ==> s[k] != part[0]
    ensures Find(s, part, from) == Some(at)
    decreases at - from
  {
    if from < at {
      assert s[from..from + |part|][0] == s[from];
      FindAt(s, part, from + 1, at);
    }
  }

  lemma NotContained(s: string, part: string)
    requires part != "" && part[0] !in s
    ensures !Contains(s, part)
  {
    forall i | 0 <= i <= |s| - |part| ensures s[i..][..|part|] != part {
      assert s[i..][..|part|][0] == s[i];
    }
  }

  lemma {:induction false} OpensAfter(x: string, s: string, word: WordTest)
    requires '<' !in x
    ensures Opens(x + s, word) == Opens(s, word)
  {
    if x == "" {
      assert x + s == s;
    } else {
      assert x[0] != '<' && '<' !in x[1..] && (x + s)[1..] == x[1..] + s;
      OpensAfter(x[1..], s, word);
    }
  }

  lemma NoTags(s: string, word: WordTest)
    requires '<' !in s
    ensures Opens(s, word) == 0 && Closes(s) == 0
  {
    assert s + "" == s;
    OpensAfter(s, "", word);
    ClosesAfter(s, "");
  }

  /** A tag that is neither an opening nor a closing details tag does not count. */
  lemma OtherTag(s: string, word: WordTest)
    requires |s| >= 3 && s[0] == '<' && s[1] != 'd' && s[1] != 'D' && s[2] != 'd' && s[2] != 'D'
    ensures Opens(s, word) == Opens(s[1..], word) && Closes(s) == Closes(s[1..])
  {}

  lemma DetailsTag(s: string, word: WordTest)
    requires !word('>') && HasPrefix(s, "<details>")
    ensures Opens(s, word) == 1 + Opens(s[1..], word) && Closes(s) == Closes(s[1..])
  {
    var tag := "<details>";
    assert s[0] == tag[0] && s[1] == tag[1] && s[2] == tag[2] && s[3] == tag[3] && s[4] == tag[4] && s[5] == tag[5];
    assert s[6] == tag[6] && s[7] == tag[7] && s[8] == tag[8];
    hide Opens, Closes;
    OpensStep(s, word);
  }

  lemma OpensStep(s: string, word: WordTest)
    requires s != ""
    ensures Opens(s, word) == (if OpensHere(s, word) then 1 else 0) + Opens(s[1..], word)
    ensures Closes(s) == (if ClosesHere(s) then 1 else 0) + Closes(s[1..])
  {
    hide OpensHere, ClosesHere;
  }

  const A := "> "
  const B := "details>\n" + "> "
  const C := "summary>Artifacts"
  const D := "/summary>"

  lemma MarkerPieces()
    ensures REPORT_ARTIFACTS_MARKER == "> " + ("<" + (C + ("<" + D)))
    ensures "> <details>\n" == A + ("<" + "details>\n")
  {}

  lemma TailPieces()
    ensures TAIL == A + ("<" + (B + ("<" + (C + ("<" + D)))))
  {
    MarkerPieces();
    hide A, C, D, REPORT_ARTIFACTS_MARKER;
    assert "details>\n" + ("> " + ("<" + (C + ("<" + D)))) == B + ("<" + (C + ("<" + D)));
  }

  lemma NamesHaveNoTag()
    ensures '<' !in A && '<' !in B && '<' !in C && '<' !in D
    ensures |C| >= 2 && C[0] == 's' && C[1] == 'u' && |D| >= 2 && D[0] == '/' && D[1] == 's'
  {}

  lemma HeadHasNoTag()
    ensures '<' !in NOTE_HEAD
  {}

  lemma ReasonHasNoTag()
    ensures '<' !in NOTE_REASON
  {}

  lemma HintHasNoTag()
    ensures '<' !in NOTE_HINT
  {}

  lemma NoteHasNoTag()
    ensures '<' !in NOTE
  {
    hide NOTE_HEAD, NOTE_REASON, NOTE_HINT;
    HeadHasNoTag();
    ReasonHasNoTag();
    HintHasNoTag();
    assert '<' !in NOTE_TEXT && '<' !in "\n\n" && '<' !in "\n";
  }

  lemma DetailsHead(rest: string)
    ensures HasPrefix("<" + (B + rest), "<details>")
  {
    assert ("<" + (B + rest))[..9] == "<details>";
  }

  /** One details block is opened in the tail, and none is closed. */
  lemma TailTags(word: WordTest)
    requires !word('>')
    ensures Opens(TAIL + NOTE, word) == 1 && Closes(TAIL + NOTE) == 0
  {
    hide *;
    TailPieces();
    NamesHaveNoTag();
    NoteHasNoTag();
    var last := D + NOTE;
    var third := C + ("<" + last);
    var second := B + ("<" + third);
    assert TAIL + NOTE == A + ("<" + second);
    assert '<' !in last;
    LastTags(last, word);
    NameTag(C, last, word);
    assert third[0] == 's' && third[1] == 'u';
    AfterName(third, word);
    NameTag(B, third, word);
    DetailsHead("<" + third);
    DetailsTag("<" + second, word);
    assert ("<" + second)[1..] == second;
    NameTag(A, second, word);
  }

  lemma LastTags(last: string, word: WordTest)
    requires '<' !in last && |last| >= 2 && last[0] != 'd' && last[0] != 'D' && last[1] != 'd' && last[1] != 'D'
    ensures Opens("<" + last, word) == 0 && Closes("<" + last) == 0
  {
    hide Opens, Closes;
    NoTags(last, word);
    AfterName(last, word);
  }

  lemma AfterName(rest: string, word: WordTest)
    requires |rest| >= 2 && rest[0] != 'd' && rest[0] != 'D' && rest[1] != 'd' && rest[1] != 'D'
    ensures Opens("<" + rest, word) == Opens(rest, word) && Closes("<" + rest) == Closes(rest)
  {
    hide Opens, Closes;
    assert ("<" + rest)[1..] == rest;
    OtherTag("<" + rest, word);
  }

  lemma NameTag(name: string, rest: string, word: WordTest)
    requires '<' !in name
    ensures Opens(name + ("<" + rest), word) == Opens("<" + rest, word)
    ensures Closes(name + ("<" + rest)) == Closes("<" + rest)
  {
    hide Opens, Closes;
    OpensAfter(name, "<" + rest, word);
    ClosesAfter(name, "<" + rest);
  }

  // ---------------------------------------------------------------------------------------------
  // Bounding the inner text
  // ---------------------------------------------------------------------------------------------

  lemma PlainTrim(n: nat, word: WordTest)
    ensures RStrip(Xs(n)) == Xs(n) && CloseOpen(Xs(n), word) == Xs(n)
  {
    NoFences(Xs(n));
    NoTags(Xs(n), word);
    hide Fences, Opens, Closes;
    assert TrimEnd(Xs(n), n) == n;
    assert Xs(n)[..n] == Xs(n);
  }

  lemma TrimXs(n: nat, m: nat, word: WordTest)
    requires 0 < m <= n
    ensures TrimAndClose(Xs(n), m, word) == Xs(m)
  {
    hide CloseOpen;
    PlainTrim(m, word);
    assert Xs(n)[..m] == Xs(m);
  }

  lemma MarkerShapes()
    ensures ARTIFACT_MARKER != "" && ARTIFACT_MARKER[0] == '#' && PLAN_MARKER != "" && PLAN_MARKER[0] == '#'
    ensures REPORT_PLAN_MARKER != "" && REPORT_PLAN_MARKER[0] == '>'
    ensures '#' !in TAIL && TAIL == "> <details>\n" + REPORT_ARTIFACTS_MARKER && TAIL[0] == '>'
    ensures "> <summary>Security"[0] == '>' && "> <summary>Cost"[0] == '>' && "> <summary>Execution"[0] == '>'
  {}

  lemma NoteShape()
    ensures Strip(NOTE) != "" && Strip(NOTE)[0] == '>'
  {
    BlankEnds();
    NoteText();
    hide NOTE_TEXT;
    StripPadded("\n\n", NOTE_TEXT, "\n");
  }

  lemma NoteText()
    ensures Stripped(NOTE_TEXT) && NOTE_TEXT != "" && NOTE_TEXT[0] == '>'
  {}

  lemma BlankEnds()
    ensures Blank("\n\n") && Blank("\n")
  {}

  lemma XsNever(n: nat, c: char)
    requires c != 'x'
    ensures c !in Xs(n)
  {}

  lemma PlainPlan(n: nat, m: nat, word: WordTest)
    requires 0 < m <= n
    ensures TruncatePlan(Xs(n), m, word) == Xs(m)
  {
    hide TrimAndClose, Find;
    MarkerShapes();
    XsNever(n, '#');
    XsNever(n, '>');
    FindNone(Xs(n), PLAN_MARKER, 0);
    FindNone(Xs(n), REPORT_PLAN_MARKER, 0);
    TrimXs(n, m, word);
  }

  lemma PlainMiddle(n: nat, word: WordTest)
    ensures StripMiddle(Xs(n)) == Xs(n)
  {
    hide Find, RStrip;
    MarkerShapes();
    XsNever(n, '>');
    FindNone(Xs(n), "> <summary>Security", 0);
    FindNone(Xs(n), "> <summary>Cost", 0);
    FindNone(Xs(n), "> <summary>Execution", 0);
    NoCuts([None, None, None], n);
    assert Xs(n)[..n] == Xs(n);
    PlainTrim(n, word);
  }

  lemma {:induction false} NoCuts(cuts: seq<Option<nat>>, n: nat)
    requires forall k :: 0 <= k < |cuts| ==> cuts[k].None?
    ensures Least(cuts, n) == n
  {
    if cuts != [] {
      NoCuts(cuts[1..], n);
    }
  }

  lemma InnerKept(n: nat, word: WordTest)
    ensures Kept(Inner(n), REPORT_ARTIFACTS_MARKER) == Some(Section(Xs(n), TAIL, ""))
    ensures !Contains(Inner(n), ARTIFACT_MARKER) && Contains(Inner(n), REPORT_ARTIFACTS_MARKER)
  {
    MarkerShapes();
    XsNever(n, '#');
    XsNever(n, '>');
    var inner := Inner(n);
    assert '#' !in inner;
    NotContained(inner, ARTIFACT_MARKER);
    hide Find, StripMiddle, TAIL, ARTIFACT_MARKER, REPORT_ARTIFACTS_MARKER;
    assert inner[n..n + |TAIL|] == TAIL && inner[n..] == TAIL && inner[..n] == Xs(n);
    FindAt(inner, TAIL, 0, n);
    PlainMiddle(n, word);
    assert TAIL[12..] == REPORT_ARTIFACTS_MARKER && inner[n + 12..][..|REPORT_ARTIFACTS_MARKER|] == REPORT_ARTIFACTS_MARKER;
  }

  /** The bounded inner text fills its room exactly, and has an open block. */
  lemma InnerBounded(n: nat, room: int, word: WordTest)
    requires !word('>') && |NOTE| + |TAIL| < room <= n
    ensures var bounded := BoundInner(Inner(n), room, "", word);
            |bounded| == room && Missing(bounded, Inner(n), word) == 1
  {
    hide *;
    InnerKept(n, word);
    var m := room - |NOTE| - |TAIL|;
    PlainPlan(n, m, word);
    NoteShape();
    XsNever(m, '>');
    NotContained(Xs(m), Strip(NOTE));
    Preserved(n, m, room, word);
    var bounded := BoundInner(Inner(n), room, "", word);
    assert bounded == Xs(m) + (TAIL + NOTE);
    XsNever(m, '<');
    OpensAfter(Xs(m), TAIL + NOTE, word);
    ClosesAfter(Xs(m), TAIL + NOTE);
    TailTags(word);
    MissingIs(bounded, Inner(n), word);
    XsSize(m);
  }

  lemma XsSize(n: nat)
    ensures |Xs(n)| == n
  {}

  lemma MissingIs(bounded: string, original: string, word: WordTest)
    requires Contains(original, REPORT_ARTIFACTS_MARKER) && Opens(bounded, word) == 1 && Closes(bounded) == 0
    ensures Missing(bounded, original, word) == 1
  {
    hide Contains, Opens, Closes, REPORT_ARTIFACTS_MARKER;
  }

  lemma Preserved(n: nat, m: nat, room: int, word: WordTest)
    requires room == m + |NOTE| + |TAIL| && m > 0
    requires Kept(Inner(n), REPORT_ARTIFACTS_MARKER) == Some(Section(Xs(n), TAIL, ""))
    requires !Contains(Inner(n), ARTIFACT_MARKER) && Contains(Inner(n), REPORT_ARTIFACTS_MARKER)
    requires TruncatePlan(Xs(n), m, word) == Xs(m) && !Contains(Xs(m), Strip(NOTE))
    ensures BoundInner(Inner(n), room, "", word) == Xs(m) + TAIL + NOTE
  {
    hide Kept, Contains, TruncatePlan, Strip, NOTE, TAIL, Inner, Xs, ARTIFACT_MARKER, REPORT_ARTIFACTS_MARKER;
    assert Xs(m) + TAIL + "" + NOTE + "" == Xs(m) + TAIL + NOTE;
  }

  // ---------------------------------------------------------------------------------------------
  // The wrapper
  // ---------------------------------------------------------------------------------------------

  /** The characters of the opening stay where they are. */
  lemma OpeningAt(inner: string, k: nat)
    requires k < 32
    ensures |OPENING| == 32 && (OPENING + inner)[k] == OPENING[k]
  {}

  lemma TagAt(inner: string, at: nat, tag: string)
    requires at + |tag| <= 32 && |OPENING| == 32 && OPENING[at..at + |tag|] == tag
    ensures Tag(OPENING + inner, at, tag)
  {
    hide OPENING;
    forall k | 0 <= k < |tag| ensures Letter((OPENING + inner)[at + k], tag[k]) {
      assert OPENING[at..at + |tag|][k] == OPENING[at + k];
    }
  }

  lemma OpeningTags(inner: string)
    requires inner != "" && inner[0] == 'x'
    ensures var body := OPENING + inner;
            && Tag(body, 0, "<details>") && Tag(body, 10, "<summary>") && !Tag(body, 19, "</summary>") && Tag(body, 20, "</summary>")
            && |OPENING| == 32 && body[9] == '\n' && body[10] == '<' && body[30] == '\n' && body[31] == '\n' && body[32] == 'x'
  {
    var body := OPENING + inner;
    OpeningAt(inner, 9);
    OpeningAt(inner, 10);
    OpeningAt(inner, 19);
    OpeningAt(inner, 30);
    OpeningAt(inner, 31);
    OpeningSlices();
    hide OPENING, Tag;
    TagAt(inner, 0, "<details>");
    TagAt(inner, 10, "<summary>");
    TagAt(inner, 20, "</summary>");
    assert !Letter('x', '<');
    NotTag(body, 19, "</summary>");
    assert body[32] == inner[0];
  }

  lemma OpeningSlices()
    ensures |OPENING| == 32 && OPENING[0..9] == "<details>" && OPENING[10..19] == "<summary>" && OPENING[20..30] == "</summary>"
    ensures OPENING[9] == '\n' && OPENING[10] == '<' && OPENING[19] == 'x' && OPENING[30] == '\n' && OPENING[31] == '\n'
  {
    SliceOf("", "<details>", "\n" + "<summary>" + "x" + "</summary>" + "\n\n");
    SliceOf("<details>" + "\n", "<summary>", "x" + "</summary>" + "\n\n");
    SliceOf("<details>" + "\n" + "<summary>" + "x", "</summary>", "\n\n");
  }

  lemma SliceOf(a: string, b: string, c: string)
    ensures (a + b + c)[|a|..|a| + |b|] == b
  {}

  lemma NotTag(s: string, at: nat, tag: string)
    requires at < |s| && tag != "" && !Letter(s[at], tag[0])
    ensures !Tag(s, at, tag)
  {}

  lemma OneSpace(s: string, i: nat)
    requires i + 1 < |s| && Space(s[i]) && !Space(s[i + 1])
    ensures SkipSpaces(s, i) == i + 1
  {}

  lemma TwoSpaces(s: string, i: nat)
    requires i + 2 < |s| && s[i] == '\n' && s[i + 1] == '\n' && !Space(s[i + 2])
    ensures SkipSpaces(s, i) == i + 2 && AfterBlankLine(s, i, i + 2) == Some(i + 2)
  {
    OneSpace(s, i + 1);
  }

  lemma PrefixFound(body: string)
    requires |body| > 32 && Tag(body, 0, "<details>") && Tag(body, 10, "<summary>")
    requires !Tag(body, 19, "</summary>") && Tag(body, 20, "</summary>")
    requires body[9] == '\n' && body[10] == '<' && body[30] == '\n' && body[31] == '\n' && body[32] == 'x'
    ensures DetailsPrefix(body) == Some(32)
  {
    OneSpace(body, 9);
    TwoSpaces(body, 30);
    hide Tag, SkipSpaces, AfterBlankLine;
    assert SummaryEnd(body, 20) == Some(32);
  }

  lemma Wraps(n: nat)
    requires n > 0
    ensures Unwrap(OPENING + Inner(n)) == Some(Wrapped(OPENING, Inner(n), ""))
  {
    var body := OPENING + Inner(n);
    assert Inner(n)[0] == 'x';
    OpeningTags(Inner(n));
    PrefixFound(body);
    hide DetailsPrefix, OPENING;
    assert body[..32] == OPENING && body[32..] == Inner(n);
    NoClosingEnd(n);
  }

  lemma NoClosingEnd(n: nat)
    ensures !HasSuffix(Inner(n), CLOSING)
  {
    var inner := Inner(n);
    assert inner[|inner| - 2] == TAIL[|TAIL| - 2] == 'y';
    if |CLOSING| <= |inner| {
      assert inner[|inner| - |CLOSING|..][|CLOSING| - 2] == inner[|inner| - 2];
    }
  }

  /**
    The limit fails at every limit that leaves the inner text more room than the note and the block need: a long text
    with a block of artifacts that is never closed comes back with exactly thirteen characters too many.
   */
  lemma LimitExceeded(n: nat, max: nat, word: WordTest)
    requires !word('\n') && !word('>') && |OPENING| + |NOTE| + |TAIL| < max <= n
    ensures |BoundComment.BoundComment(OPENING + Inner(n), max, "", word)| == max + 13
  {
    hide *;
    Wraps(n);
    SizesAre(n);
    var room := max - |OPENING|;
    InnerBounded(n, room, word);
    AddedTagsStay(BoundInner(Inner(n), room, "", word), 1);
    WrappedResult(n, max, word);
  }

  lemma SizesAre(n: nat)
    ensures |Inner(n)| == n + |TAIL| && |OPENING| == 32
  {}

  lemma WrappedResult(n: nat, max: nat, word: WordTest)
    requires Unwrap(OPENING + Inner(n)) == Some(Wrapped(OPENING, Inner(n), ""))
    requires |OPENING| < max < |OPENING| + |Inner(n)|
    requires Missing(BoundInner(Inner(n), max - |OPENING|, "", word), Inner(n), word) == 1
    ensures |BoundComment.BoundComment(OPENING + Inner(n), max, "", word)|
         == |OPENING| + |RStrip(BoundInner(Inner(n), max - |OPENING|, "", word) + Repeat(QUOTED_CLOSING, 1))|
  {
    hide Unwrap, Missing, BoundInner, Inner, OPENING, Repeat, RStrip;
  }
}
