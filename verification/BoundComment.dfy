/**
  The size limit of a whole comment: which part is cut when the comment is too long, and what survives. Lengths
  are counted in characters, and slices with negative ends count from the back.
 */
module BoundComment {
  import opened Wrappers
  import opened Text
  import opened CommentBounds

  const NOTE_HEAD := "> Comment truncated "
  const NOTE_REASON := "for GitHub size limits. "
  const NOTE_HINT := "See S3 artifacts for full output."
  const NOTE_TEXT := NOTE_HEAD + NOTE_REASON + NOTE_HINT
  const NOTE := "\n\n" + NOTE_TEXT + "\n"
  const COST_MARKER := "### Cost Analysis"
  const PLAN_MARKER := "### Plan"
  const ARTIFACT_MARKER := "### Download and execution artifacts"
  const REPORT_ARTIFACTS_MARKER := "> <summary>Artifacts</summary>"
  const REPORT_PLAN_MARKER := "> <details>\n> <summary>Plan"

  /** The slice up to n, where a negative n counts from the end. */
  function UpTo(s: string, n: int): string {
    if n >= 0 then (if n <= |s| then s[..n] else s) else if -n <= |s| then s[..|s| + n] else ""
  }

  /** The slice from -n on; for n = 0 that is the whole text. */
  function FromBack(s: string, n: int): string {
    if n > 0 then (if n <= |s| then s[|s| - n..] else s) else if -n <= |s| then s[-n..] else ""
  }

  function Find(s: string, part: string, from: nat): Option<nat>
    requires from <= |s|
    ensures Find(s, part, from).Some? ==> from <= Find(s, part, from).value <= |s| - |part|
    decreases |s| - from
  {
    if from + |part| > |s| then None
    else if s[from..from + |part|] == part then Some(from)
    else if from == |s| then None else Find(s, part, from + 1)
  }

  function FindLast(s: string, part: string, below: nat): Option<nat>
    requires below <= |s|
    ensures FindLast(s, part, below).Some? ==> FindLast(s, part, below).value < below
    decreases below
  {
    if below == 0 then None
    else if HasPrefix(s[below - 1..], part) && below - 1 + |part| <= |s| then Some(below - 1)
    else FindLast(s, part, below - 1)
  }

  predicate SectionHere(s: string) {
    || HasPrefix(s, "\n\n> <details>")
    || (HasPrefix(s, "\n### ") && |s| > 5 && s[5] != '#')
    || HasPrefix(s, "\n## CI Details")
  }

  function NextSection(s: string, from: nat): Option<nat>
    requires from <= |s|
    ensures NextSection(s, from).Some? ==> from <= NextSection(s, from).value <= |s|
    decreases |s| - from
  {
    if SectionHere(s[from..]) then Some(from) else if from == |s| then None else NextSection(s, from + 1)
  }

  /** Before the marker, the section that starts with it, and what follows. */
  datatype Section = Section(before: string, section: string, after: string)

  function Extract(body: string, marker: string): (r: Option<Section>)
    ensures r.Some? ==> body == r.value.before + r.value.section + r.value.after && HasPrefix(r.value.section, marker)
  {
    match Find(body, marker, 0)
    case None => None
    case Some(at) =>
      FindMatches(body, marker, 0);
      var cut := SplitAt(body[at..], |marker|);
      assert body == body[..at] + body[at..];
      Some(Section(body[..at], cut.0, cut.1))
  }

  /** Split before the next section after n characters. */
  function SplitAt(s: string, n: nat): (r: (string, string))
    requires n <= |s|
    ensures s == r.0 + r.1 && n <= |r.0| && r.0[..n] == s[..n]
  {
    match NextSection(s[n..], 0)
    case None => (s, "")
    case Some(k) => (s[..n + k], s[n + k..])
  }

  lemma {:induction false} FindMatches(s: string, part: string, from: nat)
    requires from <= |s| && Find(s, part, from).Some?
    ensures s[Find(s, part, from).value..][..|part|] == part
    decreases |s| - from
  {
    if s[from..from + |part|] == part {
      assert s[from..][..|part|] == s[from..from + |part|];
    } else {
      FindMatches(s, part, from + 1);
    }
  }

  function PlanSection(body: string): Option<(Section, string)> {
    if Extract(body, PLAN_MARKER).Some? then Some((Extract(body, PLAN_MARKER).value, PLAN_MARKER))
    else if Extract(body, REPORT_PLAN_MARKER).Some? then Some((Extract(body, REPORT_PLAN_MARKER).value, REPORT_PLAN_MARKER))
    else None
  }

  /** Shorten the plan section and keep what is around it, when that is possible at all. */
  function TruncatePlan(body: string, max: int, word: WordTest): string {
    match PlanSection(body)
    case None => TrimAndClose(body, max, word)
    case Some((s, marker)) =>
      var budget := max - |s.before| - |s.after|;
      if budget <= |marker| then RStrip(UpTo(s.before + s.after, max))
      else if |s.section| <= budget then s.before + s.section + s.after
      else if budget - |NOTE| <= |marker| then RStrip(UpTo(s.before + s.after, max))
      else s.before + TrimAndClose(s.section, budget - |NOTE|, word) + NOTE + s.after
  }

  function TruncateHead(body: string, max: int, suffix: string, word: WordTest): string {
    if |NOTE| + |suffix| >= max then FromBack(suffix, max)
    else TrimAndClose(body, max - |NOTE| - |suffix|, word) + NOTE + suffix
  }

  /** The end of the text before the first of the child blocks that a bounded report drops. */
  function StripMiddle(before: string): string {
    var cuts := [Find(before, "> <summary>Security", 0), Find(before, "> <summary>Cost", 0), Find(before, "> <summary>Execution", 0)];
    RStrip(before[..Least(cuts, |before|)])
  }

  function Least(cuts: seq<Option<nat>>, n: nat): (m: nat)
    ensures m <= n
  {
    if cuts == [] then n
    else Least(cuts[1..], if cuts[0].Some? && cuts[0].value < n then cuts[0].value else n)
  }

  function ReportArtifactsStart(body: string): (r: Option<nat>)
    ensures r.Some? ==> r.value <= |body|
  {
    var whole := Find(body, "> <details>\n" + REPORT_ARTIFACTS_MARKER, 0);
    if whole.Some? then whole
    else
      var at := Find(body, REPORT_ARTIFACTS_MARKER, 0);
      if at.None? then None
      else
        var prior := FindLast(body[..at.value], "> <details>", at.value);
        if prior.Some? then prior else at
  }

  /** The section kept for a marker, with the text before it that may be cut. */
  function Kept(body: string, marker: string): Option<Section> {
    if marker == REPORT_ARTIFACTS_MARKER then
      match ReportArtifactsStart(body)
      case None => None
      case Some(start) => Some(Section(StripMiddle(body[..start]), body[start..], ""))
    else Extract(body, marker)
  }

  function PreserveSection(body: string, marker: string, max: int, suffix: string, word: WordTest): string {
    match Kept(body, marker)
    case None => TruncateHead(body, max, suffix, word)
    case Some(s) =>
      var reserved := |NOTE| + |suffix| + |s.section| + |s.after|;
      if reserved >= max then TruncateHead(body, max, suffix, word)
      else
        var before := TruncatePlan(s.before, max - reserved, word);
        before + s.section + s.after + (if Contains(before, Strip(NOTE)) then "" else NOTE) + suffix
  }

  function BoundInner(body: string, max: int, suffix: string, word: WordTest): string {
    if Contains(body, ARTIFACT_MARKER) then PreserveSection(body, ARTIFACT_MARKER, max, suffix, word)
    else if Contains(body, REPORT_ARTIFACTS_MARKER) then PreserveSection(body, REPORT_ARTIFACTS_MARKER, max, suffix, word)
    else if Contains(body, COST_MARKER) then PreserveSection(body, COST_MARKER, max, suffix, word)
    else TruncateHead(body, max, suffix, word)
  }

  // ---------------------------------------------------------------------------------------------
  // The details wrapper
  // ---------------------------------------------------------------------------------------------

  predicate Tag(s: string, at: nat, tag: string) {
    at + |tag| <= |s| && forall k :: 0 <= k < |tag| ==> Letter(s[at + k], tag[k])
  }

  /** The last position of the space run from..end just after an empty line. */
  function AfterBlankLine(s: string, from: nat, end: nat): (r: Option<nat>)
    requires from <= end <= |s|
    ensures r.Some? ==> from + 2 <= r.value <= end
    decreases end
  {
    if end < from + 2 then None
    else if s[end - 2] == '\n' && s[end - 1] == '\n' then Some(end)
    else AfterBlankLine(s, from, end - 1)
  }

  function SummaryEnd(s: string, at: nat): (r: Option<nat>)
    requires at <= |s|
    ensures r.Some? ==> at <= r.value <= |s|
    decreases |s| - at
  {
    if Tag(s, at, "</summary>") && AfterBlankLine(s, at + 10, SkipSpaces(s, at + 10)).Some?
    then AfterBlankLine(s, at + 10, SkipSpaces(s, at + 10))
    else if at == |s| then None else SummaryEnd(s, at + 1)
  }

  /** The length of the opening: a details tag, a summary, and an empty line. */
  function DetailsPrefix(body: string): (r: Option<nat>)
    ensures r.Some? ==> r.value <= |body|
  {
    if !Tag(body, 0, "<details>") then None
    else
      var i := SkipSpaces(body, 9);
      if i == 9 || body[i - 1] != '\n' || !Tag(body, i, "<summary>") then None else SummaryEnd(body, i + 9)
  }

  function Unwrap(body: string): (r: Option<Wrapped>)
    ensures r.Some? ==> body == r.value.prefix + r.value.inner + r.value.closing && |r.value.closing| <= |CLOSING|
  {
    match DetailsPrefix(body)
    case None => None
    case Some(n) =>
      var rest := body[n..];
      if HasSuffix(rest, CLOSING) then Some(Wrapped(body[..n], rest[..|rest| - |CLOSING|], CLOSING))
      else Some(Wrapped(body[..n], rest, ""))
  }

  /** Closing tags missing in the bounded text of a wrapped report. */
  function Missing(bounded: string, original: string, word: WordTest): nat {
    if Contains(original, REPORT_ARTIFACTS_MARKER) && Opens(bounded, word) > Closes(bounded)
    then Opens(bounded, word) - Closes(bounded) else 0
  }

  function BoundComment(body: string, max: int, suffix: string, word: WordTest): string {
    if |body| + |suffix| <= max then body + suffix
    else
      match Unwrap(body)
      case None => BoundInner(body, max, suffix, word)
      case Some(w) =>
        var reserved := |w.prefix| + |w.closing| + |suffix|;
        if reserved >= max then UpTo(w.prefix + w.closing + suffix, max)
        else
          var bounded := BoundInner(w.inner, max - reserved, "", word);
          w.prefix + RStrip(bounded + Repeat(QUOTED_CLOSING, Missing(bounded, w.inner, word))) + w.closing + suffix
  }

  // ---------------------------------------------------------------------------------------------
  // Sizes
  // ---------------------------------------------------------------------------------------------

  lemma TrimSize(body: string, max: int, word: WordTest)
    requires !word('\n') && max >= 0
    ensures |TrimAndClose(body, max, word)| <= max
  {
    hide CloseOpen;
    if max > 0 {
      TrimmingIsBest(body, max, word);
    }
  }

  lemma PlanSize(body: string, max: int, word: WordTest)
    requires !word('\n') && max >= 0
    ensures |TruncatePlan(body, max, word)| <= max
  {
    hide TrimAndClose, PlanSection, NOTE;
    match PlanSection(body)
    case None => TrimSize(body, max, word);
    case Some((s, marker)) =>
      var budget := max - |s.before| - |s.after|;
      if budget - |NOTE| > |marker| {
        TrimSize(s.section, budget - |NOTE|, word);
      }
  }

  lemma HeadSize(body: string, max: int, suffix: string, word: WordTest)
    requires !word('\n') && max > 0
    ensures |TruncateHead(body, max, suffix, word)| <= max
    ensures |suffix| <= max ==> HasSuffix(TruncateHead(body, max, suffix, word), suffix)
  {
    hide TrimAndClose, NOTE;
    if |NOTE| + |suffix| < max {
      TrimSize(body, max - |NOTE| - |suffix|, word);
    }
  }

  lemma PreserveSize(body: string, marker: string, max: int, suffix: string, word: WordTest)
    requires !word('\n') && max > 0
    ensures |PreserveSection(body, marker, max, suffix, word)| <= max
    ensures |suffix| <= max ==> HasSuffix(PreserveSection(body, marker, max, suffix, word), suffix)
  {
    hide TruncateHead, TruncatePlan, Kept, Contains, NOTE;
    HeadSize(body, max, suffix, word);
    match Kept(body, marker)
    case None =>
    case Some(s) =>
      var reserved := |NOTE| + |suffix| + |s.section| + |s.after|;
      if reserved < max {
        PlanSize(s.before, max - reserved, word);
      }
  }

  lemma InnerSize(body: string, max: int, suffix: string, word: WordTest)
    requires !word('\n') && max > 0
    ensures |BoundInner(body, max, suffix, word)| <= max
    ensures |suffix| <= max ==> HasSuffix(BoundInner(body, max, suffix, word), suffix)
  {
    hide TruncateHead, PreserveSection, Contains, ARTIFACT_MARKER, REPORT_ARTIFACTS_MARKER, COST_MARKER;
    PreserveSize(body, ARTIFACT_MARKER, max, suffix, word);
    PreserveSize(body, REPORT_ARTIFACTS_MARKER, max, suffix, word);
    PreserveSize(body, COST_MARKER, max, suffix, word);
    HeadSize(body, max, suffix, word);
  }

  /** A wrapped body taken apart; the closing is empty when the body does not end with one. */
  datatype Wrapped = Wrapped(prefix: string, inner: string, closing: string)

  /** The closing tags that the details path adds back after bounding. */
  function Readded(body: string, max: int, suffix: string, word: WordTest): nat {
    match Unwrap(body)
    case None => 0
    case Some(w) =>
      var reserved := |w.prefix| + |w.closing| + |suffix|;
      if reserved >= max then 0 else Missing(BoundInner(w.inner, max - reserved, "", word), w.inner, word)
  }

  lemma {:induction false} RepeatSize(piece: string, n: nat)
    ensures |Repeat(piece, n)| == |piece| * n
  {
    if n > 0 {
      RepeatSize(piece, n - 1);
    }
  }

  /**
    The bound: for a positive limit the comment has at most that many characters, and thirteen more for each
    closing tag that the details path adds back. The suffix survives whenever it fits by itself, or, in the
    details path, whenever it fits together with the opening and the closing.
   */
  lemma BoundHolds(body: string, max: int, suffix: string, word: WordTest)
    requires !word('\n') && max > 0
    ensures |BoundComment(body, max, suffix, word)| <= max + 13 * Readded(body, max, suffix, word)
    ensures Unwrap(body).None? && |suffix| <= max ==> HasSuffix(BoundComment(body, max, suffix, word), suffix)
    ensures Unwrap(body).Some? && |Unwrap(body).value.prefix| + |Unwrap(body).value.closing| + |suffix| <= max ==>
              HasSuffix(BoundComment(body, max, suffix, word), suffix)
  {
    hide BoundInner, Unwrap, Missing, RStrip, Repeat;
    match Unwrap(body)
    case None => InnerSize(body, max, suffix, word);
    case Some(w) =>
      var reserved := |w.prefix| + |w.closing| + |suffix|;
      if reserved < max {
        InnerSize(w.inner, max - reserved, "", word);
        var bounded := BoundInner(w.inner, max - reserved, "", word);
        RepeatSize(QUOTED_CLOSING, Missing(bounded, w.inner, word));
        RStripShorter(bounded + Repeat(QUOTED_CLOSING, Missing(bounded, w.inner, word)));
      }
  }

  lemma RStripShorter(s: string)
    ensures |RStrip(s)| <= |s|
  {}

  lemma {:induction false} RepeatEnds(piece: string, n: nat)
    requires n > 0 && piece != ""
    ensures var r := Repeat(piece, n); r != "" && r[|r| - 1] == piece[|piece| - 1]
  {}

  /** Closing tags that were added back are not stripped off again. */
  lemma AddedTagsStay(bounded: string, n: nat)
    requires n > 0
    ensures |RStrip(bounded + Repeat(QUOTED_CLOSING, n))| == |bounded| + 13 * n
  {
    RepeatSize(QUOTED_CLOSING, n);
    RepeatEnds(QUOTED_CLOSING, n);
    var s := bounded + Repeat(QUOTED_CLOSING, n);
    assert s[|s| - 1] == '>';
    hide Repeat;
    assert TrimEnd(s, |s|) == |s|;
  }

  /** What is left for the inner text of a wrapped body. */
  function Room(w: Wrapped, max: int, suffix: string): int { max - |w.prefix| - |w.closing| - |suffix| }

  /**
    When the limit is exceeded: the comment is too long, it is wrapped, the bounded inner text has lost closing tags,
    and adding them back needs more room than bounding left. Without tags to add back the limit always holds.
   */
  lemma ExceededExactly(body: string, max: int, suffix: string, word: WordTest)
    requires !word('\n') && max > 0
    ensures |BoundComment(body, max, suffix, word)| > max <==>
              && |body| + |suffix| > max && Unwrap(body).Some? && Readded(body, max, suffix, word) > 0
              && var room := Room(Unwrap(body).value, max, suffix);
                 |BoundInner(Unwrap(body).value.inner, room, "", word)| + 13 * Readded(body, max, suffix, word) > room
  {
    hide BoundInner, Unwrap, Missing, RStrip, Repeat;
    BoundHolds(body, max, suffix, word);
    match Unwrap(body)
    case None =>
    case Some(w) =>
      var room := Room(w, max, suffix);
      if room > 0 && Readded(body, max, suffix, word) > 0 {
        AddedTagsStay(BoundInner(w.inner, room, "", word), Readded(body, max, suffix, word));
      }
  }

  /** With a limit of zero the bound fails: outside the details path the whole suffix comes back. */
  lemma ZeroLimitReturnsSuffix(body: string, suffix: string, word: WordTest)
    requires Unwrap(body).None? && body + suffix != ""
    ensures BoundComment(body, 0, suffix, word) == suffix
    ensures |BoundComment(body, 0, suffix, word)| <= 0 <==> suffix == ""
  {
    hide Unwrap, Contains, Kept, TruncatePlan, TrimAndClose, ARTIFACT_MARKER, REPORT_ARTIFACTS_MARKER, COST_MARKER, NOTE;
  }
}
