/** The string operations the comment formats rely on: whitespace, lines, joining and splitting. */
module Text {

  /** Characters that end a line. */
  predicate LineBreak(c: char) {
    '\n' <= c <= '\r' || '\U{1C}' <= c <= '\U{1E}' || c == '\U{85}' || c == '\U{2028}' || c == '\U{2029}'
  }

  /** Whitespace, as stripping, splitting and the pattern class for spaces see it. */
  predicate Space(c: char) {
    || LineBreak(c)
    || c == ' ' || c == '\t' || c == '\U{1F}' || c == '\U{A0}' || c == '\U{1680}'
    || '\U{2000}' <= c <= '\U{200A}' || c == '\U{202F}' || c == '\U{205F}' || c == '\U{3000}'
  }

  predicate Digit(c: char) { '0' <= c <= '9' }

  predicate HasPrefix(s: string, p: string) { |p| <= |s| && s[..|p|] == p }

  predicate HasSuffix(s: string, p: string) { |p| <= |s| && s[|s| - |p|..] == p }

  /** Position of the first c, or the length when there is none. */
  function IndexOf(s: string, c: char): (n: nat)
    ensures n <= |s| && (n < |s| ==> s[n] == c) && forall k :: 0 <= k < n ==> s[k] != c
  {
    if s == "" || s[0] == c then 0 else 1 + IndexOf(s[1..], c)
  }

  lemma {:induction false} IndexOfAt(a: string, c: char, b: string)
    requires c !in a
    ensures IndexOf(a + [c] + b, c) == |a|
  {
    var s := a + [c] + b;
    assert s[|a|] == c;
    assert forall k :: 0 <= k < |a| ==> s[k] == a[k];
  }

  // ---------------------------------------------------------------------------------------------
  // Stripping
  // ---------------------------------------------------------------------------------------------

  /** The first position from i on that holds no space. */
  function SkipSpaces(s: string, i: nat): (n: nat)
    requires i <= |s|
    ensures i <= n <= |s|
    ensures forall k :: i <= k < n ==> Space(s[k])
    ensures n < |s| ==> !Space(s[n])
    decreases |s| - i
  {
    if i < |s| && Space(s[i]) then SkipSpaces(s, i + 1) else i
  }

  /** The end of the text before n without its trailing spaces. */
  function TrimEnd(s: string, n: nat): (m: nat)
    requires n <= |s|
    ensures m <= n
    ensures forall k :: m <= k < n ==> Space(s[k])
    ensures m > 0 ==> !Space(s[m - 1])
  {
    if n > 0 && Space(s[n - 1]) then TrimEnd(s, n - 1) else n
  }

  function LStrip(s: string): string { s[SkipSpaces(s, 0)..] }

  function RStrip(s: string): string { s[..TrimEnd(s, |s|)] }

  function Strip(s: string): (r: string)
    ensures |r| <= |s| && Stripped(r)
  {
    RStrip(LStrip(s))
  }

  predicate Stripped(s: string) { s == "" || (!Space(s[0]) && !Space(s[|s| - 1])) }

  predicate Blank(s: string) { forall k :: 0 <= k < |s| ==> Space(s[k]) }

  lemma LStripPadded(pad: string, s: string)
    requires Blank(pad) && (s == "" || !Space(s[0]))
    ensures LStrip(pad + s) == s
  {
    var t := pad + s;
    var n := SkipSpaces(t, 0);
    assert s != "" ==> t[|pad|] == s[0];
    assert forall k :: 0 <= k < |pad| ==> t[k] == pad[k];
    assert n == |pad|;
  }

  lemma RStripPadded(s: string, pad: string)
    requires Blank(pad) && (s == "" || !Space(s[|s| - 1]))
    ensures RStrip(s + pad) == s
  {
    var t := s + pad;
    var m := TrimEnd(t, |t|);
    assert s != "" ==> t[|s| - 1] == s[|s| - 1];
    assert forall k :: |s| <= k < |t| ==> t[k] == pad[k - |s|];
    assert m == |s|;
  }

  lemma StripPadded(left: string, s: string, right: string)
    requires Blank(left) && Blank(right) && Stripped(s)
    ensures Strip(left + s + right) == s
  {
    if s == "" {
      var all := left + s + right;
      assert all + "" == all;
      LStripPadded(all, "");
    } else {
      assert left + s + right == left + (s + right);
      LStripPadded(left, s + right);
      RStripPadded(s, right);
    }
  }

  lemma StripStripped(s: string)
    requires Stripped(s)
    ensures Strip(s) == s
  {
    StripPadded("", s, "");
    assert "" + s + "" == s;
  }

  lemma StripIsPart(s: string)
    ensures forall c :: c in Strip(s) ==> c in s
    ensures OneLine(s) ==> OneLine(Strip(s))
  {
    var n := SkipSpaces(s, 0);
    assert forall k :: 0 <= k < |Strip(s)| ==> Strip(s)[k] == s[n + k];
  }

  // ---------------------------------------------------------------------------------------------
  // Lines
  // ---------------------------------------------------------------------------------------------

  predicate OneLine(s: string) { forall k :: 0 <= k < |s| ==> !LineBreak(s[k]) }

  function LineEnd(s: string): (n: nat)
    ensures n <= |s| && OneLine(s[..n]) && (n < |s| ==> LineBreak(s[n]))
  {
    if s == "" || LineBreak(s[0]) then 0
    else
      var n := 1 + LineEnd(s[1..]);
      assert s[..n] == [s[0]] + s[1..][..n - 1];
      n
  }

  /** A carriage return followed by a newline is one line ending. */
  function BreakWidth(s: string, n: nat): (w: nat)
    requires n < |s|
    ensures 1 <= w && n + w <= |s|
  {
    if s[n] == '\r' && n + 1 < |s| && s[n + 1] == '\n' then 2 else 1
  }

  function SplitLines(s: string): (lines: seq<string>)
    ensures forall l :: l in lines ==> OneLine(l)
    decreases |s|
  {
    if s == "" then []
    else
      var n := LineEnd(s);
      if n == |s| then [s] else [s[..n]] + SplitLines(s[n + BreakWidth(s, n)..])
  }

  function JoinLines(lines: seq<string>): string {
    if lines == [] then ""
    else if |lines| == 1 then lines[0]
    else lines[0] + "\n" + JoinLines(lines[1..])
  }

  lemma LineEndAt(line: string, rest: string)
    requires OneLine(line)
    ensures LineEnd(line + "\n" + rest) == |line|
  {
    var s := line + "\n" + rest;
    assert s[|line|] == '\n';
    assert forall k :: 0 <= k < |line| ==> s[k] == line[k];
    assert forall k :: 0 <= k < LineEnd(s) ==> s[k] == s[..LineEnd(s)][k];
  }

  lemma SplitOneLine(line: string, rest: string)
    requires OneLine(line)
    ensures SplitLines(line + "\n" + rest) == [line] + SplitLines(rest)
  {
    var s := line + "\n" + rest;
    LineEndAt(line, rest);
    assert s[..|line|] == line;
    assert s[|line| + 1..] == rest;
  }

  lemma SplitLastLine(line: string)
    requires OneLine(line) && line != ""
    ensures SplitLines(line) == [line]
  {
    assert LineEnd(line) == |line|;
  }

  lemma {:induction false} SplitJoinLines(lines: seq<string>)
    requires forall l :: l in lines ==> OneLine(l)
    requires lines != [] && lines[|lines| - 1] != ""
    ensures SplitLines(JoinLines(lines)) == lines
  {
    assert lines[0] in lines && lines == [lines[0]] + lines[1..];
    if |lines| == 1 {
      hide LineEnd, SplitLines, OneLine;
      SplitLastLine(lines[0]);
    } else {
      hide LineEnd, SplitLines, OneLine;
      SplitOneLine(lines[0], JoinLines(lines[1..]));
      SplitJoinLines(lines[1..]);
    }
  }

  // ---------------------------------------------------------------------------------------------
  // Splitting on a separator
  // ---------------------------------------------------------------------------------------------

  function Split(s: string, sep: char): (parts: seq<string>)
    ensures |parts| >= 1 && forall p :: p in parts ==> sep !in p
    decreases |s|
  {
    var n := IndexOf(s, sep);
    if n == |s| then [s] else [s[..n]] + Split(s[n + 1..], sep)
  }

  function Join(parts: seq<string>, sep: char): string {
    if parts == [] then ""
    else if |parts| == 1 then parts[0]
    else parts[0] + [sep] + Join(parts[1..], sep)
  }

  lemma SplitFirst(part: string, rest: string, sep: char)
    requires sep !in part
    ensures Split(part + [sep] + rest, sep) == [part] + Split(rest, sep)
  {
    var s := part + [sep] + rest;
    IndexOfAt(part, sep, rest);
    assert s[..|part|] == part && s[|part| + 1..] == rest;
  }

  lemma {:induction false} SplitJoin(parts: seq<string>, sep: char)
    requires parts != [] && forall p :: p in parts ==> sep !in p
    ensures Split(Join(parts, sep), sep) == parts
  {
    if |parts| == 1 {
      assert parts == [parts[0]] && sep !in parts[0];
      assert IndexOf(parts[0], sep) == |parts[0]|;
    } else {
      var rest := Join(parts[1..], sep);
      assert sep !in parts[0];
      SplitFirst(parts[0], rest, sep);
      SplitJoin(parts[1..], sep);
      assert parts == [parts[0]] + parts[1..];
    }
  }

  lemma SplitHead(s: string, sep: char)
    ensures var n := IndexOf(s, sep);
            && Split(s, sep) == (if n == |s| then [s] else [s[..n]] + Split(s[n + 1..], sep))
            && (n < |s| ==> s == s[..n] + [sep] + s[n + 1..] && Split(s[n + 1..], sep) != [])
  {}

  lemma {:induction false} JoinSplit(s: string, sep: char)
    ensures Join(Split(s, sep), sep) == s
    decreases |s|
  {
    SplitHead(s, sep);
    var n := IndexOf(s, sep);
    hide Split, Join, IndexOf;
    if n < |s| {
      JoinSplit(s[n + 1..], sep);
      JoinCons(s[..n], Split(s[n + 1..], sep), sep);
    } else {
      JoinOne(s, sep);
    }
  }

  lemma JoinOne(s: string, sep: char)
    ensures Join([s], sep) == s
  {}

  lemma JoinCons(head: string, rest: seq<string>, sep: char)
    requires rest != []
    ensures Join([head] + rest, sep) == head + [sep] + Join(rest, sep)
  {
    assert ([head] + rest)[1..] == rest;
  }

  /** Split on runs of whitespace, as a call without a separator does. */
  function Words(s: string): (words: seq<string>)
    ensures forall w :: w in words ==> w != "" && forall k :: 0 <= k < |w| ==> !Space(w[k])
    decreases |s|
  {
    var from := SkipSpaces(s, 0);
    if from == |s| then []
    else
      var to := WordEnd(s, from);
      [s[from..to]] + Words(s[to..])
  }

  function WordEnd(s: string, i: nat): (n: nat)
    requires i <= |s|
    ensures i <= n <= |s| && (forall k :: i <= k < n ==> !Space(s[k]))
    ensures i < |s| && !Space(s[i]) ==> n > i
    decreases |s| - i
  {
    if i < |s| && !Space(s[i]) then WordEnd(s, i + 1) else i
  }

  function Collapse(s: string): string { Join(Words(s), ' ') }

  // ---------------------------------------------------------------------------------------------
  // Decimal numbers
  // ---------------------------------------------------------------------------------------------

  predicate AllDigits(s: string) { forall k :: 0 <= k < |s| ==> Digit(s[k]) }

  function Decimal(n: nat): (s: string)
    ensures s != "" && AllDigits(s)
  {
    var last := ['0' + (n % 10) as char];
    if n < 10 then last else Decimal(n / 10) + last
  }

  function DigitsValue(s: string): nat
    requires AllDigits(s)
  {
    if s == "" then 0 else DigitsValue(s[..|s| - 1]) * 10 + (s[|s| - 1] as int - '0' as int)
  }

  lemma {:induction false} DecimalValue(n: nat)
    ensures DigitsValue(Decimal(n)) == n
  {
    var s := Decimal(n);
    if n >= 10 {
      DecimalValue(n / 10);
      assert s[..|s| - 1] == Decimal(n / 10);
    } else {
      assert s[..0] == "";
    }
  }

  lemma DecimalInjective(m: nat, n: nat)
    requires Decimal(m) == Decimal(n)
    ensures m == n
  {
    DecimalValue(m);
    DecimalValue(n);
  }
}
