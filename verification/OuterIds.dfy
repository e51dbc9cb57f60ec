/** Identifiers of outer runs, their order, and the one-line pointer file that names one of them. */
module OuterIds {
  import opened Wrappers
  import opened Text

  datatype IdError = Missing | Malformed | NotAPointer

  predicate HexDigit(c: char) { Digit(c) || 'a' <= c <= 'f' || 'A' <= c <= 'F' }

  predicate AllHex(s: string) { forall k :: 0 <= k < |s| ==> HexDigit(s[k]) }

  function LowerChar(c: char): char { if 'A' <= c <= 'Z' then ((c as int) + 32) as char else c }

  function Lower(s: string): (r: string)
    ensures |r| == |s| && forall k :: 0 <= k < |s| ==> r[k] == LowerChar(s[k])
  {
    seq(|s|, k requires 0 <= k < |s| => LowerChar(s[k]))
  }

  /** A UUID without dashes. */
  predicate Legacy(t: string) { |t| == 32 && AllHex(t) }

  /** Up to twenty digits of epoch milliseconds, a dot, and eight hexadecimal digits. */
  predicate EpochHash(t: string) {
    10 <= |t| <= 29 && t[|t| - 9] == '.' && AllDigits(t[..|t| - 9]) && AllHex(t[|t| - 8..])
  }

  function Validate(id: string): Result<string, IdError> {
    var t := Strip(id);
    if t == "" then Err(Missing)
    else if Legacy(t) then Ok(Lower(t))
    else if EpochHash(t) then Ok(t)
    else Err(Malformed)
  }

  predicate Valid(id: string) { Validate(id) == Ok(id) }

  function Epoch(id: string): Option<nat> {
    var t := Strip(id);
    if EpochHash(t) then Some(DigitsValue(t[..|t| - 9])) else None
  }

  lemma LowerHex(t: string)
    requires AllHex(t)
    ensures AllHex(Lower(t)) && Lower(Lower(t)) == Lower(t)
    ensures forall k :: 0 <= k < |t| ==> !Space(Lower(t)[k])
  {
    forall k | 0 <= k < |t| ensures HexDigit(Lower(t)[k]) && LowerChar(Lower(t)[k]) == Lower(t)[k] {
      assert HexDigit(t[k]);
    }
  }

  lemma NoSpaceStripped(t: string)
    requires forall k :: 0 <= k < |t| ==> !Space(t[k])
    ensures Strip(t) == t
  {
    StripStripped(t);
  }

  lemma EpochHashNoSpace(t: string)
    requires EpochHash(t)
    ensures !Legacy(t)
    ensures forall k :: 0 <= k < |t| ==> !Space(t[k])
  {
    forall k | 0 <= k < |t| ensures !Space(t[k]) {
      if k < |t| - 9 {
        assert Digit(t[..|t| - 9][k]);
      } else if k > |t| - 9 {
        assert HexDigit(t[|t| - 8..][k - (|t| - 8)]);
      }
    }
  }

  /** Validation gives a normal form: validating it again changes nothing, and it has no space in it. */
  lemma ValidateNormal(id: string)
    requires Validate(id).Ok?
    ensures Valid(Validate(id).value) && Validate(id).value != ""
    ensures forall k :: 0 <= k < |Validate(id).value| ==> !Space(Validate(id).value[k])
  {
    var t := Strip(id);
    if Legacy(t) {
      LowerHex(t);
      NoSpaceStripped(Lower(t));
    } else {
      EpochHashNoSpace(t);
      NoSpaceStripped(t);
    }
  }

  // ---------------------------------------------------------------------------------------------
  // The order
  // ---------------------------------------------------------------------------------------------

  /** Text order by character. */
  predicate TextLess(a: string, b: string) {
    b != "" && (a == "" || a[0] < b[0] || (a[0] == b[0] && TextLess(a[1..], b[1..])))
  }

  lemma {:induction false} TextLessTotal(a: string, b: string)
    ensures !TextLess(a, a)
    ensures !(TextLess(a, b) && TextLess(b, a))
    ensures a != b ==> TextLess(a, b) || TextLess(b, a)
  {
    if a != "" {
      TextLessTotal(a[1..], a[1..]);
      if b != "" {
        TextLessTotal(a[1..], b[1..]);
        assert a == [a[0]] + a[1..] && b == [b[0]] + b[1..];
      }
    }
  }

  lemma {:induction false} TextLessTransitive(a: string, b: string, c: string)
    requires TextLess(a, b) && TextLess(b, c)
    ensures TextLess(a, c)
  {
    if a != "" && a[0] == b[0] == c[0] {
      TextLessTransitive(a[1..], b[1..], c[1..]);
    }
  }

  function EpochOr0(id: string): nat { if Epoch(id).Some? then Epoch(id).value else 0 }

  /** Rank order: the epoch first, with UUIDs at zero, then the text of the normal form. */
  predicate RankLess(a: string, b: string) {
    EpochOr0(a) < EpochOr0(b) || (EpochOr0(a) == EpochOr0(b) && TextLess(a, b))
  }

  /** Whether a pointer to `current` gives way to `proposed`. */
  function ShouldClobber(current: string, proposed: string): Result<bool, IdError> {
    match (Validate(current), Validate(proposed))
    case (Ok(c), Ok(p)) =>
      if EpochOr0(p) > EpochOr0(c) then Ok(true)
      else if EpochOr0(p) < EpochOr0(c) then Ok(false)
      else if p == c then Ok(false)
      else Ok(TextLess(c, p))
    case (Err(e), _) => Err(e)
    case (_, Err(e)) => Err(e)
  }

  /** The clobber test is the strict order of ranks, on normal forms. */
  lemma ClobberIsRankLess(current: string, proposed: string)
    requires Validate(current).Ok? && Validate(proposed).Ok?
    ensures ShouldClobber(current, proposed) == Ok(RankLess(Validate(current).value, Validate(proposed).value))
  {
    TextLessTotal(Validate(current).value, Validate(proposed).value);
    hide Validate, TextLess, EpochOr0;
  }

  /** The clobber test is a strict total order on valid identifiers. */
  lemma ClobberTotalOrder(a: string, b: string, c: string)
    requires Valid(a) && Valid(b) && Valid(c)
    ensures ShouldClobber(a, a) == Ok(false)
    ensures ShouldClobber(a, b) == Ok(true) ==> ShouldClobber(b, a) == Ok(false)
    ensures a != b ==> ShouldClobber(a, b) == Ok(true) || ShouldClobber(b, a) == Ok(true)
    ensures ShouldClobber(a, b) == Ok(true) && ShouldClobber(b, c) == Ok(true) ==> ShouldClobber(a, c) == Ok(true)
  {
    hide Validate, TextLess, EpochOr0;
    TextLessTotal(a, b);
    TextLessTotal(a, a);
    if TextLess(a, b) && TextLess(b, c) {
      TextLessTransitive(a, b, c);
    }
    TextLessTotal(a, c);
  }

  predicate AtLeast(a: string, b: string) { a == b || RankLess(b, a) }

  lemma AtLeastTransitive(a: string, b: string, c: string)
    requires AtLeast(a, b) && AtLeast(b, c)
    ensures AtLeast(a, c)
  {
    hide TextLess, EpochOr0;
    if TextLess(c, b) && TextLess(b, a) {
      TextLessTransitive(c, b, a);
    }
  }

  lemma RankTotal(a: string, b: string)
    ensures AtLeast(a, b) || RankLess(a, b)
    ensures !(AtLeast(a, b) && RankLess(a, b))
  {
    hide EpochOr0;
    TextLessTotal(a, b);
  }

  // ---------------------------------------------------------------------------------------------
  // The pointer file
  // ---------------------------------------------------------------------------------------------

  const POINTER_OPEN := "EXECUTION_ID="

  predicate PointerChar(c: char) {
    Digit(c) || 'a' <= c <= 'z' || 'A' <= c <= 'Z' || c == '_' || c == '+' || c == '=' || c == ',' || c == '.' || c == '@' || c == '-'
  }

  function Serialize(id: string): Result<string, IdError> {
    match Validate(id)
    case Ok(run) => Ok(POINTER_OPEN + run + "\n")
    case Err(e) => Err(e)
  }

  /** Exactly one assignment line; the final line break may be missing. */
  function ParsePointer(body: string): Result<string, IdError> {
    var line := if HasSuffix(body, "\n") then body else body + "\n";
    if |line| <= |POINTER_OPEN| + 1 || !HasPrefix(line, POINTER_OPEN) then Err(NotAPointer)
    else
      var id := line[|POINTER_OPEN|..|line| - 1];
      if exists k :: 0 <= k < |id| && !PointerChar(id[k]) then Err(NotAPointer) else Validate(id)
  }

  lemma ValidChars(id: string)
    requires Validate(id).Ok?
    ensures forall k :: 0 <= k < |Validate(id).value| ==> PointerChar(Validate(id).value[k])
  {
    var t := Strip(id);
    if Legacy(t) {
      LowerHex(t);
      forall k | 0 <= k < |t| ensures PointerChar(Lower(t)[k]) {
        assert HexDigit(Lower(t)[k]);
      }
    } else {
      forall k | 0 <= k < |t| ensures PointerChar(t[k]) {
        if k < |t| - 9 {
          assert Digit(t[..|t| - 9][k]);
        } else if k > |t| - 9 {
          assert HexDigit(t[|t| - 8..][k - (|t| - 8)]);
        }
      }
    }
  }

  /** A written pointer reads back as the normal form of what was written. */
  lemma PointerRoundTrip(id: string)
    requires Validate(id).Ok?
    ensures Serialize(id).Ok? && ParsePointer(Serialize(id).value) == Validate(id)
  {
    ValidChars(id);
    ValidateNormal(id);
    hide Validate, PointerChar;
    var run := Validate(id).value;
    var body := POINTER_OPEN + run + "\n";
    assert body[|body| - 1..] == "\n";
    assert body[..|POINTER_OPEN|] == POINTER_OPEN;
    assert body[|POINTER_OPEN|..|body| - 1] == run;
  }
}
