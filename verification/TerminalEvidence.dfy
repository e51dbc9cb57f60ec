/**
  Evidence kept about a finished run: any value, redacted and cut to a fixed size. Sizes are those of its JSON
  text with every character outside printable ASCII escaped. Redaction is a parameter.
 */
module TerminalEvidence {
  import opened Text

  const MAX_TEXT_CHARS: nat := 256
  const MAX_TEXT_BYTES: nat := 260
  const MAX_FIELDS: nat := 16
  const MAX_ITEMS: nat := 16
  const MAX_DEPTH: nat := 4
  const MAX_KEY_CHARS: nat := 64
  const TRUNCATED := "..."

  // ---------------------------------------------------------------------------------------------
  // Text
  // ---------------------------------------------------------------------------------------------

  /** Bytes of one character inside a JSON string. */
  function Cost(c: char): (n: nat)
    ensures 1 <= n <= 12
  {
    if c == '\"' || c == '\\' || c == '\n' || c == '\r' || c == '\t' || c == '\U{8}' || c == '\U{C}' then 2
    else if ' ' <= c <= '~' then 1
    else if c <= '\U{FFFF}' then 6
    else 12
  }

  function Costs(s: string): nat { if s == "" then 0 else Costs(s[..|s| - 1]) + Cost(s[|s| - 1]) }

  function JsonBytes(s: string): nat { Costs(s) + 2 }

  lemma {:induction false} CostsConcat(a: string, b: string)
    ensures Costs(a + b) == Costs(a) + Costs(b)
  {
    if b == "" {
      assert a + b == a;
    } else {
      assert (a + b)[..|a + b| - 1] == a + b[..|b| - 1];
      CostsConcat(a, b[..|b| - 1]);
    }
  }

  lemma CostsMonotone(s: string, m: nat, n: nat)
    requires m <= n <= |s|
    ensures Costs(s[..m]) <= Costs(s[..n]) && (m < n ==> Costs(s[..m]) < Costs(s[..n]))
  {
    if m < n {
      assert s[..n][..n - 1] == s[..n - 1];
      CostsMonotone(s, m, n - 1);
    }
  }

  /** The prefix with the ellipsis fits. */
  predicate Fits(s: string, n: nat)
    requires n <= |s|
  {
    JsonBytes(s[..n] + TRUNCATED) <= MAX_TEXT_BYTES
  }

  lemma EllipsisCost(s: string, n: nat)
    requires n <= |s|
    ensures JsonBytes(s[..n] + TRUNCATED) == Costs(s[..n]) + 5
  {
    CostsConcat(s[..n], TRUNCATED);
    assert Costs(TRUNCATED) == 3 by {
      assert TRUNCATED[..2] == ".." && ".."[..1] == "." && "."[..0] == "";
    }
  }

  lemma FitsDownward(s: string, m: nat, n: nat)
    requires m <= n <= |s| && Fits(s, n)
    ensures Fits(s, m)
  {
    EllipsisCost(s, m);
    EllipsisCost(s, n);
    CostsMonotone(s, m, n);
  }

  lemma NothingFits(s: string)
    ensures Fits(s, 0)
  {
    EllipsisCost(s, 0);
    assert s[..0] == "";
  }

  /** The longest prefix that fits, as a plain downward search. */
  function Longest(s: string, n: nat): (m: nat)
    requires n <= |s|
    ensures m <= n
  {
    if n == 0 || Fits(s, n) then n else Longest(s, n - 1)
  }

  lemma {:induction false} LongestIs(s: string, n: nat, m: nat)
    requires m <= n <= |s| && Fits(s, m) && forall k :: m < k <= n ==> !Fits(s, k)
    ensures Longest(s, n) == m
  {
    hide Fits;
    if n > 0 && !Fits(s, n) {
      LongestIs(s, n - 1, m);
    }
  }

  lemma {:induction false} LongestFits(s: string, n: nat)
    requires n <= |s|
    ensures Fits(s, Longest(s, n)) && forall k :: Longest(s, n) < k <= n ==> !Fits(s, k)
  {
    hide Fits;
    if n == 0 {
      NothingFits(s);
    } else if !Fits(s, n) {
      LongestFits(s, n - 1);
    }
  }

  /** Cut to the character limit, with an ellipsis when something was cut. */
  function Cut(value: string, maxChars: nat): string {
    if |value| <= maxChars then value
    else value[..if maxChars < 3 then 0 else maxChars - 3] + TRUNCATED
  }

  function BoundText(value: string, maxChars: nat): string {
    var candidate := Cut(value, maxChars);
    if JsonBytes(candidate) <= MAX_TEXT_BYTES then candidate else candidate[..Longest(candidate, |candidate|)] + TRUNCATED
  }

  /** The binary search for the longest prefix. */
  method ComputeBoundText(value: string, maxChars: nat) returns (bounded: string)
    ensures bounded == BoundText(value, maxChars)
  {
    hide Fits, Costs;
    var candidate := Cut(value, maxChars);
    if JsonBytes(candidate) <= MAX_TEXT_BYTES {
      return candidate;
    }
    var low, high := 0, |candidate|;
    NothingFits(candidate);
    while low < high
      invariant 0 <= low <= high <= |candidate|
      invariant Fits(candidate, low) && forall k :: high < k <= |candidate| ==> !Fits(candidate, k)
    {
      var middle := (low + high + 1) / 2;
      FitsIs(candidate, middle);
      if JsonBytes(candidate[..middle] + TRUNCATED) <= MAX_TEXT_BYTES {
        low := middle;
      } else {
        forall k | middle <= k <= |candidate| ensures !Fits(candidate, k) {
          if Fits(candidate, k) {
            FitsDownward(candidate, middle, k);
          }
        }
        high := middle - 1;
      }
    }
    LongestIs(candidate, |candidate|, low);
    bounded := candidate[..low] + TRUNCATED;
  }

  lemma FitsIs(s: string, n: nat)
    requires n <= |s|
    ensures Fits(s, n) <==> JsonBytes(s[..n] + TRUNCATED) <= MAX_TEXT_BYTES
  {}

  /**
    Every text comes out with at most 260 bytes of JSON. It has at most two characters more than the limit, and
    exceeds the limit only when its escaped form is too long.
   */
  lemma TextIsBounded(value: string, maxChars: nat)
    requires maxChars >= 3
    ensures var r := BoundText(value, maxChars);
            && JsonBytes(r) <= MAX_TEXT_BYTES && |r| <= maxChars + 2
            && (JsonBytes(Cut(value, maxChars)) <= MAX_TEXT_BYTES ==> |r| <= maxChars)
  {
    var candidate := Cut(value, maxChars);
    if JsonBytes(candidate) > MAX_TEXT_BYTES {
      var m := Longest(candidate, |candidate|);
      LongestFits(candidate, |candidate|);
      EllipsisCost(candidate, m);
      assert candidate[..|candidate|] == candidate;
      CostsMonotone(candidate, m, |candidate|);
    }
  }

  /** A prefix fits exactly when it is no longer than the longest one. */
  lemma FitsUpToLongest(s: string, n: nat)
    requires n <= |s|
    ensures Fits(s, n) <==> n <= Longest(s, |s|)
  {
    hide Fits, Longest;
    LongestFits(s, |s|);
    if n <= Longest(s, |s|) {
      FitsDownward(s, n, Longest(s, |s|));
    }
  }

  lemma SmallTextFits(s: string)
    requires |s| <= 3
    ensures JsonBytes(s) <= MAX_TEXT_BYTES
  {
    CostsAtMost(s);
  }

  lemma {:induction false} CostsAtMost(s: string)
    ensures Costs(s) <= 12 * |s|
  {
    if s != "" {
      CostsAtMost(s[..|s| - 1]);
    }
  }

  /**
    When the character limit is exceeded: it leaves no room for the ellipsis of a text that is too long, or the cut
    text must be shortened for its bytes although all but two of the limit's characters fit with an ellipsis.
   */
  lemma ExceededExactly(value: string, maxChars: nat)
    ensures var c := Cut(value, maxChars);
            |BoundText(value, maxChars)| > maxChars <==>
              || (maxChars < 3 && |value| > maxChars)
              || (maxChars >= 3 && JsonBytes(c) > MAX_TEXT_BYTES && |c| >= maxChars - 2
                  && JsonBytes(c[..maxChars - 2] + TRUNCATED) <= MAX_TEXT_BYTES)
  {
    var c := Cut(value, maxChars);
    if maxChars < 3 {
      SmallTextFits(c);
    } else if |c| >= maxChars - 2 {
      FitsUpToLongest(c, maxChars - 2);
    }
    hide Longest, Costs;
  }

  /** The two extra characters do happen at the limit in use: 255 plain characters and one that is escaped. */
  lemma LimitExceededByTwo(plain: char, escaped: char)
    requires Cost(plain) == 1 && Cost(escaped) == 6
    ensures var value := seq(255, _ => plain) + [escaped];
            |value| == MAX_TEXT_CHARS && |BoundText(value, MAX_TEXT_CHARS)| == MAX_TEXT_CHARS + 2
  {
    var most := seq(255, _ => plain);
    var value := most + [escaped];
    SameCosts(most, plain);
    assert value[..255] == most && value[..|value| - 1] == most;
    EllipsisCost(value, 255);
    EllipsisCost(value, 256);
    assert value[..256] == value;
    LongestIs(value, 256, 255);
  }

  lemma {:induction false} SameCosts(s: string, c: char)
    requires forall k :: 0 <= k < |s| ==> s[k] == c
    ensures Costs(s) == |s| * Cost(c)
  {
    if s != "" {
      SameCosts(s[..|s| - 1], c);
    }
  }

  // ---------------------------------------------------------------------------------------------
  // Whole values
  // ---------------------------------------------------------------------------------------------

  /** A value as the program sees it; a key or an unknown object is given by its text. */
  datatype Evidence =
    | Null | Bool(flag: bool) | Int(n: int) | Float(text: string, finite: bool) | Str(text: string)
    | Mapping(fields: seq<Field>) | Items(items: seq<Evidence>) | Other(text: string)
  datatype Field = Field(key: string, value: Evidence)

  type Redaction = string -> string

  const MIN_INTEGER: int := -0x8000_0000_0000_0000
  const MAX_INTEGER: int := 0x7FFF_FFFF_FFFF_FFFF

  predicate HasKey(fields: seq<Field>, key: string) { exists k :: 0 <= k < |fields| && fields[k].key == key }

  function Bounded(value: Evidence, depth: nat, redact: Redaction): Evidence
    decreases value, 1
  {
    if depth >= MAX_DEPTH then Str(TRUNCATED)
    else
      match value
      case Null => Null
      case Bool(_) => value
      case Int(n) => if MIN_INTEGER <= n <= MAX_INTEGER then value else Str(TRUNCATED)
      case Float(_, finite) => if finite then value else Str(TRUNCATED)
      case Str(text) => Str(BoundText(redact(text), MAX_TEXT_CHARS))
      case Mapping(fields) => Mapping(BoundedFields(fields, if |fields| < MAX_FIELDS then |fields| else MAX_FIELDS, depth, redact))
      case Items(items) => Items(BoundedItems(items, if |items| < MAX_ITEMS then |items| else MAX_ITEMS, depth, redact))
      case Other(text) => Str(BoundText(redact(text), MAX_TEXT_CHARS))
  }

  /** The first n fields; of fields whose bounded keys coincide the first one stays. */
  function BoundedFields(fields: seq<Field>, n: nat, depth: nat, redact: Redaction): seq<Field>
    requires n <= |fields| && depth < MAX_DEPTH
    decreases fields, 0, n
  {
    if n == 0 then []
    else
      var before := BoundedFields(fields, n - 1, depth, redact);
      var key := BoundText(redact(fields[n - 1].key), MAX_KEY_CHARS);
      if HasKey(before, key) then before else before + [Field(key, Bounded(fields[n - 1].value, depth + 1, redact))]
  }

  function BoundedItems(items: seq<Evidence>, n: nat, depth: nat, redact: Redaction): seq<Evidence>
    requires n <= |items| && depth < MAX_DEPTH
    decreases items, 0, n
  {
    if n == 0 then [] else BoundedItems(items, n - 1, depth, redact) + [Bounded(items[n - 1], depth + 1, redact)]
  }

  /** The recursion as it runs, filling a mapping field by field. */
  method RedactAndBound(value: Evidence, depth: nat, redact: Redaction) returns (out: Evidence)
    ensures out == Bounded(value, depth, redact)
    decreases value
  {
    hide BoundText;
    if depth >= MAX_DEPTH {
      return Str(TRUNCATED);
    }
    match value {
      case Null => out := value;
      case Bool(_) => out := value;
      case Int(n) => out := if MIN_INTEGER <= n <= MAX_INTEGER then value else Str(TRUNCATED);
      case Float(_, finite) => out := if finite then value else Str(TRUNCATED);
      case Str(text) =>
        var bounded := ComputeBoundText(redact(text), MAX_TEXT_CHARS);
        out := Str(bounded);
      case Mapping(fields) =>
        var kept: seq<Field> := [];
        var limit := if |fields| < MAX_FIELDS then |fields| else MAX_FIELDS;
        var i := 0;
        while i < limit
          invariant 0 <= i <= limit && kept == BoundedFields(fields, i, depth, redact)
        {
          var key := ComputeBoundText(redact(fields[i].key), MAX_KEY_CHARS);
          if !HasKey(kept, key) {
            var inner := RedactAndBound(fields[i].value, depth + 1, redact);
            kept := kept + [Field(key, inner)];
          }
          i := i + 1;
        }
        out := Mapping(kept);
      case Items(items) =>
        var kept: seq<Evidence> := [];
        var limit := if |items| < MAX_ITEMS then |items| else MAX_ITEMS;
        var i := 0;
        while i < limit
          invariant 0 <= i <= limit && kept == BoundedItems(items, i, depth, redact)
        {
          var inner := RedactAndBound(items[i], depth + 1, redact);
          kept := kept + [inner];
          i := i + 1;
        }
        out := Items(kept);
      case Other(text) =>
        var bounded := ComputeBoundText(redact(text), MAX_TEXT_CHARS);
        out := Str(bounded);
    }
  }

  // ---------------------------------------------------------------------------------------------
  // The size of what is kept
  // ---------------------------------------------------------------------------------------------

  function Digits(n: nat): nat { |Decimal(n)| }

  /** Bytes of the compact JSON text of a value. */
  function Size(value: Evidence): nat
    decreases value, 1
  {
    match value
    case Null => 4
    case Bool(flag) => if flag then 4 else 5
    case Int(n) => if n < 0 then 1 + Digits(-n) else Digits(n)
    case Float(text, _) => |text|
    case Str(text) => JsonBytes(text)
    case Mapping(fields) => 2 + FieldsSize(fields, |fields|)
    case Items(items) => 2 + ItemsSize(items, |items|)
    case Other(text) => JsonBytes(text)
  }

  /** Each entry with its colon and a comma. */
  function FieldsSize(fields: seq<Field>, n: nat): nat
    requires n <= |fields|
    decreases fields, 0, n
  {
    if n == 0 then 0 else FieldsSize(fields, n - 1) + JsonBytes(fields[n - 1].key) + 1 + Size(fields[n - 1].value) + 1
  }

  function ItemsSize(items: seq<Evidence>, n: nat): nat
    requires n <= |items|
    decreases items, 0, n
  {
    if n == 0 then 0 else ItemsSize(items, n - 1) + Size(items[n - 1]) + 1
  }

  /** Nesting: leaves have none. */
  ghost predicate NestedAtMost(value: Evidence, height: nat)
    decreases value
  {
    match value
    case Mapping(fields) =>
      |fields| <= MAX_FIELDS && height >= 1 && forall k :: 0 <= k < |fields| ==> NestedAtMost(fields[k].value, height - 1)
    case Items(items) =>
      |items| <= MAX_ITEMS && height >= 1 && forall k :: 0 <= k < |items| ==> NestedAtMost(items[k], height - 1)
    case _ => true
  }

  /** The largest size of a value kept at this depth. */
  function Budget(depth: nat): nat
    decreases MAX_DEPTH - depth
  {
    if depth >= MAX_DEPTH then 5 else 2 + 16 * (MAX_TEXT_BYTES + 2 + Budget(depth + 1))
  }

  /** A float's text has at most 24 characters. */
  ghost predicate FloatsShort(value: Evidence)
    decreases value
  {
    match value
    case Float(text, _) => |text| <= 24
    case Mapping(fields) => forall k :: 0 <= k < |fields| ==> FloatsShort(fields[k].value)
    case Items(items) => forall k :: 0 <= k < |items| ==> FloatsShort(items[k])
    case _ => true
  }

  lemma {:induction false} DecimalLength(n: nat, k: nat, bound: nat)
    requires k >= 1 && n < bound && bound == Power10(k)
    ensures Digits(n) <= k
  {
    if n >= 10 {
      DecimalLength(n / 10, k - 1, Power10(k - 1));
    }
  }

  function Power10(k: nat): nat { if k == 0 then 1 else 10 * Power10(k - 1) }

  lemma Int64Size(n: int)
    requires MIN_INTEGER <= n <= MAX_INTEGER
    ensures Size(Int(n)) <= 20
  {
    assert Power10(19) == 10_000_000_000_000_000_000 by {
      assert Power10(4) == 10_000;
      assert Power10(8) == 100_000_000;
      assert Power10(12) == 1_000_000_000_000;
      assert Power10(16) == 10_000_000_000_000_000;
    }
    DecimalLength(if n < 0 then -n else n, 19, Power10(19));
  }

  lemma EllipsisSize()
    ensures JsonBytes(TRUNCATED) == 5
  {
    EllipsisCost("", 0);
    assert ""[..0] + TRUNCATED == TRUNCATED;
  }

  lemma LeafSize(value: Evidence, redact: Redaction, depth: nat)
    requires depth < MAX_DEPTH && !value.Mapping? && !value.Items? && FloatsShort(value)
    ensures var out := Bounded(value, depth, redact); !out.Mapping? && !out.Items? && Size(out) <= MAX_TEXT_BYTES
  {
    hide BoundText, JsonBytes, Digits;
    EllipsisSize();
    match value
    case Int(n) => if MIN_INTEGER <= n <= MAX_INTEGER { Int64Size(n); }
    case Str(text) => TextIsBounded(redact(text), MAX_TEXT_CHARS);
    case Other(text) => TextIsBounded(redact(text), MAX_TEXT_CHARS);
    case _ =>
  }

  lemma BudgetRoom(depth: nat)
    requires depth < MAX_DEPTH
    ensures Budget(depth) == 2 + 16 * (MAX_TEXT_BYTES + 2 + Budget(depth + 1)) && Budget(depth) >= MAX_TEXT_BYTES
  {}

  /** Whatever the value, what is kept nests at most four deep, at most sixteen wide, and within a fixed size. */
  lemma {:induction false} EvidenceIsBounded(value: Evidence, depth: nat, redact: Redaction)
    requires FloatsShort(value)
    ensures var out := Bounded(value, depth, redact);
            && NestedAtMost(out, if depth < MAX_DEPTH then MAX_DEPTH - depth else 0)
            && Size(out) <= Budget(depth)
    decreases value, 1
  {
    hide BoundText, JsonBytes, Digits, BoundedFields, BoundedItems, FieldsSize, ItemsSize, Budget, FloatsShort, NestedAtMost, Size;
    if depth >= MAX_DEPTH {
      EllipsisSize();
      DeepBudget(depth);
      LeafShape(Str(TRUNCATED), 0);
    } else {
      BudgetRoom(depth);
      if value.Mapping? {
        var n := if |value.fields| < MAX_FIELDS then |value.fields| else MAX_FIELDS;
        FloatsWithin(value);
        FieldsBounded(value.fields, n, depth, redact);
        MappingFits(BoundedFields(value.fields, n, depth, redact), MAX_TEXT_BYTES + 2 + Budget(depth + 1), MAX_DEPTH - depth);
      } else if value.Items? {
        var n := if |value.items| < MAX_ITEMS then |value.items| else MAX_ITEMS;
        FloatsWithin(value);
        ItemsBounded(value.items, n, depth, redact);
        ItemsFit(BoundedItems(value.items, n, depth, redact), 1 + Budget(depth + 1), MAX_DEPTH - depth);
      } else {
        LeafSize(value, redact, depth);
        LeafShape(Bounded(value, depth, redact), MAX_DEPTH - depth);
      }
    }
  }

  lemma LeafShape(value: Evidence, height: nat)
    requires !value.Mapping? && !value.Items?
    ensures NestedAtMost(value, height)
    ensures value == Str(TRUNCATED) ==> Size(value) == JsonBytes(TRUNCATED)
  {
    hide JsonBytes;
  }

  lemma FloatsWithin(value: Evidence)
    requires FloatsShort(value)
    ensures value.Mapping? ==> forall k :: 0 <= k < |value.fields| ==> FloatsShort(value.fields[k].value)
    ensures value.Items? ==> forall k :: 0 <= k < |value.items| ==> FloatsShort(value.items[k])
  {}

  lemma AtMostSixteen(n: nat, room: nat)
    requires n <= 16
    ensures n * room <= 16 * room
  {}

  lemma MappingIs(fields: seq<Field>, height: nat)
    requires |fields| <= 16 && height >= 1 && forall k :: 0 <= k < |fields| ==> NestedAtMost(fields[k].value, height - 1)
    ensures NestedAtMost(Mapping(fields), height) && Size(Mapping(fields)) == 2 + FieldsSize(fields, |fields|)
  {
    hide FieldsSize;
  }

  lemma MappingFits(fields: seq<Field>, room: nat, height: nat)
    requires |fields| <= 16 && height >= 1 && FieldsSize(fields, |fields|) <= |fields| * room
    requires forall k :: 0 <= k < |fields| ==> NestedAtMost(fields[k].value, height - 1)
    ensures NestedAtMost(Mapping(fields), height) && Size(Mapping(fields)) <= 2 + 16 * room
  {
    hide *;
    MappingIs(fields, height);
    AtMostSixteen(|fields|, room);
  }

  lemma ItemsIs(items: seq<Evidence>, height: nat)
    requires |items| <= 16 && height >= 1 && forall k :: 0 <= k < |items| ==> NestedAtMost(items[k], height - 1)
    ensures NestedAtMost(Items(items), height) && Size(Items(items)) == 2 + ItemsSize(items, |items|)
  {
    hide ItemsSize;
  }

  lemma ItemsFit(items: seq<Evidence>, room: nat, height: nat)
    requires |items| <= 16 && height >= 1 && ItemsSize(items, |items|) <= |items| * room
    requires forall k :: 0 <= k < |items| ==> NestedAtMost(items[k], height - 1)
    ensures NestedAtMost(Items(items), height) && Size(Items(items)) <= 2 + 16 * room
  {
    hide *;
    ItemsIs(items, height);
    AtMostSixteen(|items|, room);
  }

  lemma DeepBudget(depth: nat)
    requires depth >= MAX_DEPTH
    ensures Budget(depth) == 5
  {}

  lemma {:induction false} FieldsSizePrefix(fields: seq<Field>, more: Field, n: nat)
    requires n <= |fields|
    ensures FieldsSize(fields + [more], n) == FieldsSize(fields, n)
  {
    hide JsonBytes, Size;
    if n > 0 {
      FieldsSizePrefix(fields, more, n - 1);
    }
  }

  /** One more entry of bounded size. */
  lemma FieldsExtend(before: seq<Field>, more: Field, room: nat)
    requires FieldsSize(before, |before|) <= |before| * room
    requires JsonBytes(more.key) + Size(more.value) + 2 <= room
    ensures FieldsSize(before + [more], |before| + 1) <= (|before| + 1) * room
  {
    hide JsonBytes, Size;
    FieldsSizePrefix(before, more, |before|);
  }

  lemma {:induction false} FieldsBounded(fields: seq<Field>, n: nat, depth: nat, redact: Redaction)
    requires n <= |fields| && depth < MAX_DEPTH && forall k :: 0 <= k < |fields| ==> FloatsShort(fields[k].value)
    ensures var out := BoundedFields(fields, n, depth, redact);
            && |out| <= n && FieldsSize(out, |out|) <= |out| * (MAX_TEXT_BYTES + 2 + Budget(depth + 1))
            && forall k :: 0 <= k < |out| ==> NestedAtMost(out[k].value, MAX_DEPTH - depth - 1)
    decreases fields, 0, n
  {
    hide BoundText, JsonBytes, Size, HasKey, Budget, Bounded, FieldsSize, FloatsShort, NestedAtMost;
    if n > 0 {
      FieldsBounded(fields, n - 1, depth, redact);
      var before := BoundedFields(fields, n - 1, depth, redact);
      var key := BoundText(redact(fields[n - 1].key), MAX_KEY_CHARS);
      if !HasKey(before, key) {
        TextIsBounded(redact(fields[n - 1].key), MAX_KEY_CHARS);
        EvidenceIsBounded(fields[n - 1].value, depth + 1, redact);
        FieldsExtend(before, Field(key, Bounded(fields[n - 1].value, depth + 1, redact)), MAX_TEXT_BYTES + 2 + Budget(depth + 1));
      }
    } else {
      NoFields();
    }
  }

  lemma NoFields()
    ensures FieldsSize([], 0) == 0 && ItemsSize([], 0) == 0
  {}

  lemma {:induction false} ItemsSizePrefix(items: seq<Evidence>, more: Evidence, n: nat)
    requires n <= |items|
    ensures ItemsSize(items + [more], n) == ItemsSize(items, n)
  {
    hide Size;
    if n > 0 {
      ItemsSizePrefix(items, more, n - 1);
    }
  }

  lemma ItemsExtend(before: seq<Evidence>, more: Evidence, room: nat)
    requires ItemsSize(before, |before|) <= |before| * room && Size(more) + 1 <= room
    ensures ItemsSize(before + [more], |before| + 1) <= (|before| + 1) * room
  {
    hide Size;
    ItemsSizePrefix(before, more, |before|);
  }

  lemma {:induction false} ItemsBounded(items: seq<Evidence>, n: nat, depth: nat, redact: Redaction)
    requires n <= |items| && depth < MAX_DEPTH && forall k :: 0 <= k < |items| ==> FloatsShort(items[k])
    ensures var out := BoundedItems(items, n, depth, redact);
            && |out| == n && ItemsSize(out, |out|) <= n * (1 + Budget(depth + 1))
            && forall k :: 0 <= k < |out| ==> NestedAtMost(out[k], MAX_DEPTH - depth - 1)
    decreases items, 0, n
  {
    hide Size, Budget, Bounded, ItemsSize, FloatsShort, NestedAtMost;
    if n > 0 {
      ItemsBounded(items, n - 1, depth, redact);
      EvidenceIsBounded(items[n - 1], depth + 1, redact);
      ItemsExtend(BoundedItems(items, n - 1, depth, redact), Bounded(items[n - 1], depth + 1, redact), 1 + Budget(depth + 1));
    } else {
      NoFields();
    }
  }

  /** The fixed size, in bytes. */
  lemma TotalBudget()
    ensures Budget(0) == 18_651_266
  {
    DeepBudget(4);
    BudgetRoom(3);
    BudgetRoom(2);
    BudgetRoom(1);
    BudgetRoom(0);
  }
}
