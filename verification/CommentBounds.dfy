/**
  Cutting a comment down to a size limit without leaving a code fence or a details block open. Word characters
  are a parameter: a details tag only counts when no word character follows its name.
 */
module CommentBounds {
  import opened Text

  type WordTest = char -> bool

  // ---------------------------------------------------------------------------------------------
  // Counting
  // ---------------------------------------------------------------------------------------------

  /** Code fences, from left to right without overlap. */
  function Fences(s: string): nat {
    if |s| < 3 then 0
    else if s[0] == '`' && s[1] == '`' && s[2] == '`' then 1 + Fences(s[3..])
    else Fences(s[1..])
  }

  /** The letter in either case, with the letters Unicode folds to it. */
  predicate Letter(c: char, lower: char) {
    || c == lower
    || ('a' <= lower <= 'z' && 'A' <= c <= 'Z' && c as int + 32 == lower as int)
    || (lower == 'i' && (c == '\U{130}' || c == '\U{131}'))
    || (lower == 's' && c == '\U{17F}')
  }

  predicate Name(s: string, at: nat)
    requires at + 7 <= |s|
  {
    Letter(s[at], 'd') && Letter(s[at + 1], 'e') && Letter(s[at + 2], 't') && Letter(s[at + 3], 'a')
    && Letter(s[at + 4], 'i') && Letter(s[at + 5], 'l') && Letter(s[at + 6], 's')
  }

  predicate OpensHere(s: string, word: WordTest) { |s| >= 8 && s[0] == '<' && Name(s, 1) && (|s| == 8 || !word(s[8])) }

  predicate ClosesHere(s: string) { |s| >= 10 && s[0] == '<' && s[1] == '/' && Name(s, 2) && s[9] == '>' }

  function Opens(s: string, word: WordTest): nat {
    if s == "" then 0 else (if OpensHere(s, word) then 1 else 0) + Opens(s[1..], word)
  }

  function Closes(s: string): nat {
    if s == "" then 0 else (if ClosesHere(s) then 1 else 0) + Closes(s[1..])
  }

  /** No match of anything counted here spans a line break, so counts add up across one. */
  lemma {:induction false} FencesSplit(a: string, b: string)
    requires b != "" && b[0] == '\n'
    ensures Fences(a + b) == Fences(a) + Fences(b)
  {
    if a == "" {
      assert a + b == b;
    } else if |a| >= 3 && a[0] == '`' && a[1] == '`' && a[2] == '`' {
      assert (a + b)[3..] == a[3..] + b;
      FencesSplit(a[3..], b);
    } else {
      assert (a + b)[1..] == a[1..] + b;
      FencesSplit(a[1..], b);
      assert |a| < 3 ==> (a + b)[|a|] == '\n';
    }
  }

  lemma OpensHereSplit(a: string, b: string, word: WordTest)
    requires a != "" && b != "" && b[0] == '\n' && !word('\n')
    ensures OpensHere(a + b, word) <==> OpensHere(a, word)
  {
    assert (a + b)[|a|] == '\n';
    assert forall k :: 0 <= k < |a| ==> (a + b)[k] == a[k];
  }

  lemma {:induction false} OpensSplit(a: string, b: string, word: WordTest)
    requires b != "" && b[0] == '\n' && !word('\n')
    ensures Opens(a + b, word) == Opens(a, word) + Opens(b, word)
  {
    if a == "" {
      assert a + b == b;
    } else {
      hide OpensHere;
      OpensHereSplit(a, b, word);
      assert (a + b)[1..] == a[1..] + b;
      OpensSplit(a[1..], b, word);
    }
  }

  lemma ClosesHereSplit(a: string, b: string)
    requires a != "" && b != "" && b[0] == '\n'
    ensures ClosesHere(a + b) <==> ClosesHere(a)
  {
    assert (a + b)[|a|] == '\n';
    assert forall k :: 0 <= k < |a| ==> (a + b)[k] == a[k];
  }

  lemma {:induction false} ClosesSplit(a: string, b: string)
    requires b != "" && b[0] == '\n'
    ensures Closes(a + b) == Closes(a) + Closes(b)
  {
    if a == "" {
      assert a + b == b;
    } else {
      hide ClosesHere;
      ClosesHereSplit(a, b);
      assert (a + b)[1..] == a[1..] + b;
      ClosesSplit(a[1..], b);
    }
  }

  lemma {:induction false} NoFences(s: string)
    requires '`' !in s
    ensures Fences(s) == 0
    ensures forall t: string :: |t| == 3 && t[0] == '`' && t[1] == '`' && t[2] == '`' ==> Fences(s + t) == 1
  {
    if s != "" {
      assert s[0] != '`' && '`' !in s[1..];
      NoFences(s[1..]);
      forall t: string | |t| == 3 && t[0] == '`' && t[1] == '`' && t[2] == '`' ensures Fences(s + t) == 1 {
        assert (s + t)[1..] == s[1..] + t;
      }
    } else {
      forall t: string | |t| == 3 && t[0] == '`' && t[1] == '`' && t[2] == '`' ensures Fences(s + t) == 1 {
        assert s + t == t && t[3..] == "";
      }
    }
  }

  /** A text whose only angle bracket opens with a slash holds no opening tag. */
  lemma {:induction false} NoOpens(s: string, word: WordTest)
    requires forall k :: 0 <= k < |s| && s[k] == '<' ==> k + 1 < |s| && s[k + 1] == '/'
    ensures Opens(s, word) == 0
  {
    if s != "" {
      forall k | 0 <= k < |s[1..]| && s[1..][k] == '<' ensures k + 1 < |s[1..]| && s[1..][k + 1] == '/' {
        assert s[k + 1] == '<';
      }
      NoOpens(s[1..], word);
    }
  }

  lemma {:induction false} ClosesAfter(x: string, tag: string)
    requires '<' !in x
    ensures Closes(x + tag) == Closes(tag)
  {
    if x == "" {
      assert x + tag == tag;
    } else {
      assert x[0] != '<' && '<' !in x[1..];
      assert (x + tag)[1..] == x[1..] + tag;
      ClosesAfter(x[1..], tag);
    }
  }

  lemma {:induction false} ShortCloses(s: string)
    requires |s| < 10
    ensures Closes(s) == 0
  {
    if s != "" {
      ShortCloses(s[1..]);
    }
  }

  // ---------------------------------------------------------------------------------------------
  // Closing what a cut left open
  // ---------------------------------------------------------------------------------------------

  predicate Contains(s: string, part: string) { exists i :: 0 <= i <= |s| - |part| && s[i..][..|part|] == part }

  const FENCE := "\n```"
  const QUOTED_FENCE := "\n> ```"
  const CLOSING := "\n\n</details>"
  const QUOTED_CLOSING := "\n> </details>"

  function Repeat(piece: string, n: nat): string { if n == 0 then "" else Repeat(piece, n - 1) + piece }

  function CloseFences(s: string): string {
    if Fences(s) % 2 == 0 then s
    else s + if Contains(s, QUOTED_FENCE) || HasPrefix(s, QUOTED_FENCE[1..]) then QUOTED_FENCE else FENCE
  }

  function CloseDetails(s: string, word: WordTest): string {
    var opens, closes := Opens(s, word), Closes(s);
    if opens <= closes then s
    else s + Repeat(if Contains(s, "> <details>") || Contains(s, QUOTED_CLOSING) then QUOTED_CLOSING else CLOSING, opens - closes)
  }

  function CloseOpen(text: string, word: WordTest): string { CloseDetails(CloseFences(RStrip(text)), word) }

  /** Every fence is closed, and there are at least as many closing as opening tags. */
  predicate Balanced(s: string, word: WordTest) { Fences(s) % 2 == 0 && Opens(s, word) <= Closes(s) }

  lemma FencePiece(quoted: bool, word: WordTest)
    ensures var piece := if quoted then QUOTED_FENCE else FENCE;
            piece != "" && piece[0] == '\n' && Fences(piece) == 1 && Opens(piece, word) == 0 && Closes(piece) == 0
  {
    var head := if quoted then "\n> " else "\n";
    var piece := if quoted then QUOTED_FENCE else FENCE;
    assert piece == head + "```";
    NoFences(head);
    NoOpens(piece, word);
    ShortCloses(piece);
  }

  const TAG := "</details>"

  lemma TagCloses()
    ensures Closes(TAG) == 1 && |TAG| == 10 && '`' !in TAG && TAG[0] == '<' && TAG[1] == '/'
    ensures forall k :: 1 < k < 10 ==> TAG[k] != '<'
  {
    ShortCloses(TAG[1..]);
    assert ClosesHere(TAG);
  }

  lemma QuotedShapes()
    ensures QUOTED_CLOSING == "\n> " + TAG && CLOSING == "\n\n" + TAG
  {}

  lemma ClosingPiece(quoted: bool, word: WordTest)
    ensures var piece := if quoted then QUOTED_CLOSING else CLOSING;
            piece != "" && piece[0] == '\n' && |piece| <= 13 && Fences(piece) == 0 && Opens(piece, word) == 0 && Closes(piece) == 1
  {
    hide *;
    TagCloses();
    QuotedShapes();
    TaggedPiece(if quoted then "\n> " else "\n\n", TAG, word);
  }

  lemma TaggedPiece(head: string, tag: string, word: WordTest)
    requires '<' !in head && '`' !in head && '`' !in tag && |tag| == 10 && tag[0] == '<' && tag[1] == '/'
    requires forall k :: 1 < k < 10 ==> tag[k] != '<'
    ensures Fences(head + tag) == 0 && Opens(head + tag, word) == 0 && Closes(head + tag) == Closes(tag)
  {
    hide Fences, Opens, Closes;
    var piece := head + tag;
    NoFences(piece);
    ClosesAfter(head, tag);
    forall k | 0 <= k < |piece| && piece[k] == '<' ensures k + 1 < |piece| && piece[k + 1] == '/' {
      assert k == |head|;
    }
    NoOpens(piece, word);
  }

  lemma {:induction false} RepeatCounts(s: string, piece: string, n: nat, word: WordTest)
    requires piece != "" && piece[0] == '\n' && Fences(piece) == 0 && Opens(piece, word) == 0 && Closes(piece) == 1 && !word('\n')
    ensures Fences(s + Repeat(piece, n)) == Fences(s) && Opens(s + Repeat(piece, n), word) == Opens(s, word)
    ensures Closes(s + Repeat(piece, n)) == Closes(s) + n
  {
    if n == 0 {
      assert s + "" == s;
    } else {
      var before := s + Repeat(piece, n - 1);
      RepeatCounts(s, piece, n - 1, word);
      assert s + Repeat(piece, n) == before + piece;
      FencesSplit(before, piece);
      OpensSplit(before, piece, word);
      ClosesSplit(before, piece);
    }
  }

  lemma CloseFencesEven(s: string, word: WordTest)
    requires !word('\n')
    ensures Fences(CloseFences(s)) % 2 == 0
    ensures Opens(CloseFences(s), word) == Opens(s, word) && Closes(CloseFences(s)) == Closes(s)
  {
    hide Fences, Opens, Closes, Contains, HasPrefix, FENCE, QUOTED_FENCE;
    if Fences(s) % 2 == 1 {
      FencePiece(true, word);
      FencePiece(false, word);
      var piece := CloseFences(s)[|s|..];
      assert piece == QUOTED_FENCE || piece == FENCE;
      assert CloseFences(s) == s + piece;
      FencesSplit(s, piece);
      OpensSplit(s, piece, word);
      ClosesSplit(s, piece);
    }
  }

  lemma CloseDetailsEnough(s: string, word: WordTest)
    requires !word('\n')
    ensures Fences(CloseDetails(s, word)) == Fences(s) && Opens(CloseDetails(s, word), word) <= Closes(CloseDetails(s, word))
    ensures HasPrefix(CloseDetails(s, word), s)
  {
    hide Fences, Opens, Closes, Contains, CLOSING, QUOTED_CLOSING, Repeat;
    if Opens(s, word) > Closes(s) {
      ClosingPiece(true, word);
      ClosingPiece(false, word);
      RepeatCounts(s, QUOTED_CLOSING, Opens(s, word) - Closes(s), word);
      RepeatCounts(s, CLOSING, Opens(s, word) - Closes(s), word);
    }
  }

  lemma CloseFencesExtends(s: string)
    ensures HasPrefix(CloseFences(s), s)
  {
    hide Fences, Contains, FENCE, QUOTED_FENCE;
  }

  /** Closing works: whatever the text, what comes out is balanced and still starts with the stripped text. */
  lemma CloseOpenBalances(text: string, word: WordTest)
    requires !word('\n')
    ensures Balanced(CloseOpen(text, word), word) && HasPrefix(CloseOpen(text, word), RStrip(text))
  {
    hide Fences, Opens, Closes, CloseFences, CloseDetails, RStrip;
    var s := CloseFences(RStrip(text));
    CloseFencesEven(RStrip(text), word);
    CloseFencesExtends(RStrip(text));
    CloseDetailsEnough(s, word);
    var r := CloseDetails(s, word);
    assert r[..|RStrip(text)|] == s[..|RStrip(text)|];
  }

  lemma CloseOpenEmpty(word: WordTest)
    ensures CloseOpen("", word) == ""
  {}

  // ---------------------------------------------------------------------------------------------
  // Trimming
  // ---------------------------------------------------------------------------------------------

  /** The longest prefix of at most n characters whose closed form has at most max. */
  function Fit(text: string, n: nat, max: nat, word: WordTest): (k: nat)
    requires n <= |text|
    ensures k <= n
  {
    if n == 0 || |CloseOpen(text[..n], word)| <= max then n else Fit(text, n - 1, max, word)
  }

  function Min(a: nat, b: nat): nat { if a < b then a else b }

  function TrimAndClose(text: string, max: int, word: WordTest): string {
    if max <= 0 then "" else CloseOpen(text[..Fit(text, Min(max, |text|), max, word)], word)
  }

  lemma {:induction false} FitFits(text: string, n: nat, max: nat, word: WordTest)
    requires n <= |text|
    ensures var k := Fit(text, n, max, word);
            |CloseOpen(text[..k], word)| <= max && forall j :: k < j <= n ==> |CloseOpen(text[..j], word)| > max
  {
    hide CloseOpen;
    if n == 0 {
      assert text[..0] == "";
      CloseOpenEmpty(word);
    } else if |CloseOpen(text[..n], word)| > max {
      FitFits(text, n - 1, max, word);
    }
  }

  /**
    Trimming gives the longest prefix that still fits once closed: at most the limit, balanced, and every longer
    prefix within the limit would have become too long by closing it.
   */
  lemma TrimmingIsBest(text: string, max: int, word: WordTest)
    requires !word('\n') && max > 0
    ensures var r := TrimAndClose(text, max, word);
            && |r| <= max && Balanced(r, word)
            && exists k :: 0 <= k <= Min(max, |text|) && r == CloseOpen(text[..k], word)
                           && forall j :: k < j <= Min(max, |text|) ==> |CloseOpen(text[..j], word)| > max
  {
    hide CloseOpen, Balanced;
    var n := Min(max, |text|);
    FitFits(text, n, max, word);
    CloseOpenBalances(text[..Fit(text, n, max, word)], word);
  }

  lemma RStripStep(text: string, m: nat, n: nat)
    requires n <= |text| && TrimEnd(text, n) <= m <= n
    ensures RStrip(text[..m]) == RStrip(text[..n]) == text[..TrimEnd(text, n)]
    ensures TrimEnd(text, m) == TrimEnd(text, n)
  {
    TrimEndPrefix(text, n);
    TrimEndPrefix(text, m);
    TrimEndSame(text, m, n);
  }

  lemma {:induction false} TrimEndSame(text: string, m: nat, n: nat)
    requires n <= |text| && TrimEnd(text, n) <= m <= n
    ensures TrimEnd(text, m) == TrimEnd(text, n)
  {
    if m < n {
      TrimEndSame(text, m, n - 1);
    }
  }

  lemma {:induction false} TrimEndPrefix(text: string, n: nat)
    requires n <= |text|
    ensures TrimEnd(text[..n], |text[..n]|) == TrimEnd(text, n)
    ensures RStrip(text[..n]) == text[..TrimEnd(text, n)]
  {
    TrimEndWithin(text, n, n);
    assert text[..n][..TrimEnd(text, n)] == text[..TrimEnd(text, n)];
  }

  lemma {:induction false} TrimEndWithin(text: string, n: nat, m: nat)
    requires m <= n <= |text|
    ensures TrimEnd(text[..n], m) == TrimEnd(text, m)
  {
    if m > 0 {
      TrimEndWithin(text, n, m - 1);
    }
  }

  /** Trailing space does not matter to closing, so prefixes that differ only by it close to the same text. */
  lemma {:induction false} FitSkipsSpace(text: string, m: nat, n: nat, max: nat, word: WordTest)
    requires n <= |text| && TrimEnd(text, n) <= m <= n && |CloseOpen(text[..n], word)| > max
    ensures Fit(text, n, max, word) == Fit(text, m, max, word)
  {
    RStripStep(text, m, n);
    hide CloseFences, CloseDetails;
    if m < n {
      TrimEndSame(text, n - 1, n);
      RStripStep(text, n - 1, n);
      if n - 1 > 0 || m < n - 1 {
        FitSkipsSpace(text, m, n - 1, max, word);
      }
    }
  }

  /** The best closed form among the prefixes of at most n characters. */
  function Best(text: string, n: nat, max: nat, word: WordTest): string
    requires n <= |text|
  {
    CloseOpen(text[..Fit(text, n, max, word)], word)
  }

  /** It is found from the prefix without its trailing space as well. */
  lemma BestStripped(text: string, n: nat, max: nat, word: WordTest)
    requires n <= |text|
    ensures var m := TrimEnd(text, n);
            && RStrip(text[..n]) == text[..m] && CloseOpen(text[..m], word) == CloseOpen(text[..n], word)
            && Best(text, n, max, word) == Best(text, m, max, word)
  {
    hide CloseFences, CloseDetails;
    var m := TrimEnd(text, n);
    TrimEndSame(text, m, n);
    RStripStep(text, m, n);
    if |CloseOpen(text[..n], word)| > max {
      FitSkipsSpace(text, m, n, max, word);
    }
  }

  lemma BestShorter(text: string, n: nat, max: nat, word: WordTest)
    requires 0 < n <= |text| && |CloseOpen(text[..n], word)| > max
    ensures Best(text, n, max, word) == Best(text, n - 1, max, word)
  {
    hide CloseOpen;
  }

  /** The trimming loop: it cuts characters off the end, skips the space before the cut, and closes again. */
  method Trim(text: string, max: int, word: WordTest) returns (closed: string)
    ensures closed == TrimAndClose(text, max, word)
  {
    hide CloseOpen, RStrip, Fit;
    if max <= 0 {
      return "";
    }
    var trimmed := RStrip(text[..Min(max, |text|)]);
    closed := CloseOpen(trimmed, word);
    ghost var n := TrimEnd(text, Min(max, |text|));
    BestStripped(text, Min(max, |text|), max, word);
    while |closed| > max && trimmed != ""
      invariant n == |trimmed| <= |text| && trimmed == text[..n]
      invariant closed == CloseOpen(trimmed, word)
      invariant Best(text, n, max, word) == TrimAndClose(text, max, word)
      decreases |trimmed|
    {
      BestShorter(text, n, max, word);
      BestStripped(text, n - 1, max, word);
      assert trimmed[..|trimmed| - 1] == text[..n - 1];
      trimmed := RStrip(trimmed[..|trimmed| - 1]);
      closed := CloseOpen(trimmed, word);
      n := TrimEnd(text, n - 1);
    }
    LastPrefix(text, n, max, word);
  }

  lemma LastPrefix(text: string, n: nat, max: nat, word: WordTest)
    requires n <= |text| && (|CloseOpen(text[..n], word)| <= max || n == 0)
    ensures Fit(text, n, max, word) == n
  {
    hide CloseOpen;
  }
}
