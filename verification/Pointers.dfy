/**
  Publishing the pointer to the newest execution of a pull request. A publisher asks for the object's tag, reads
  its body, compares, and writes on condition that the tag is unchanged; the very first pointer is written
  without a condition. The tag may be computed from the content, so equal contents have equal tags.
 */
module Pointers {
  import opened Wrappers
  import opened OuterIds

  type Tagging = string -> string

  ghost predicate Injective(tag: Tagging) { forall a, b :: tag(a) == tag(b) ==> a == b }

  datatype Outcome = Stored | Already | Stale(current: string) | Conflict | Broken

  datatype Step =
    | Heading
    | Reading(tag: string, seen: string)
    | Writing(tag: string, seen: string, read: string)
    | Creating
    | Ended(outcome: Outcome)

  /** `seen` and `read` record the body behind the tag and the identifier that was compared. */
  datatype Publisher = Publisher(id: string, step: Step)

  datatype System = System(body: Option<string>, publishers: map<nat, Publisher>)

  datatype Event = Start(who: nat, id: string) | Go(who: nat) | Crash(who: nat)

  function TextOf(id: string): string { if Serialize(id).Ok? then Serialize(id).value else "" }

  function Compare(body: Option<string>, p: Publisher, tag: string, seen: string): Step {
    if body.None? then Ended(Broken)
    else
      match ParsePointer(body.value)
      case Err(_) => Ended(Broken)
      case Ok(current) =>
        if current == p.id then Ended(Already)
        else if ShouldClobber(current, p.id) != Ok(true) then Ended(Stale(current))
        else if tag == "" then Ended(Broken)
        else Writing(tag, seen, current)
  }

  function Advance(body: Option<string>, p: Publisher, tag: Tagging): (Option<string>, Step) {
    match p.step
    case Heading => (body, if body.None? then Creating else Reading(tag(body.value), body.value))
    case Reading(t, seen) => (body, Compare(body, p, t, seen))
    case Writing(t, _, _) => if body.Some? && tag(body.value) == t then (Some(TextOf(p.id)), Ended(Stored)) else (body, Ended(Conflict))
    case Creating => (Some(TextOf(p.id)), Ended(Stored))
    case Ended(_) => (body, p.step)
  }

  function Next(sys: System, event: Event, tag: Tagging): System {
    match event
    case Start(who, id) =>
      if who in sys.publishers || Validate(id).Err? then sys
      else sys.(publishers := sys.publishers[who := Publisher(id, Heading)])
    case Go(who) =>
      if who !in sys.publishers then sys
      else
        var p := sys.publishers[who];
        var (body, step) := Advance(sys.body, p, tag);
        System(body, sys.publishers[who := p.(step := step)])
    case Crash(who) => sys.(publishers := sys.publishers - {who})
  }

  function Run(sys: System, events: seq<Event>, tag: Tagging): System {
    if events == [] then sys else Next(Run(sys, events[..|events| - 1], tag), events[|events| - 1], tag)
  }

  /** A first pointer is about to be written where a pointer already is. */
  predicate Blind(sys: System, event: Event) {
    event.Go? && event.who in sys.publishers && sys.publishers[event.who].step.Creating? && sys.body.Some?
  }

  /** No creation raced another one. */
  predicate Unraced(sys: System, events: seq<Event>, tag: Tagging) {
    events == [] ||
    (Unraced(sys, events[..|events| - 1], tag) && !Blind(Run(sys, events[..|events| - 1], tag), events[|events| - 1]))
  }

  // ---------------------------------------------------------------------------------------------
  // The rank of the pointer
  // ---------------------------------------------------------------------------------------------

  /** The object is missing, or is a pointer to this valid identifier. */
  predicate Holds(body: Option<string>, id: string) { body == Some(TextOf(id)) && Valid(id) }

  ghost predicate WellFormed(body: Option<string>) { body.None? || exists id :: Holds(body, id) }

  /** The pointer is at least at this identifier. */
  ghost predicate Reached(body: Option<string>, id: string) { exists current :: Holds(body, current) && AtLeast(current, id) }

  lemma HoldsParses(body: Option<string>, id: string)
    requires Holds(body, id)
    ensures ParsePointer(body.value) == Ok(id)
  {
    PointerRoundTrip(id);
  }

  lemma HoldsOnly(body: Option<string>, a: string, b: string)
    requires Holds(body, a) && Holds(body, b)
    ensures a == b
  {
    HoldsParses(body, a);
    HoldsParses(body, b);
  }

  lemma StoresNormal(id: string)
    requires Validate(id).Ok?
    ensures Holds(Some(TextOf(id)), Validate(id).value)
  {
    ValidateNormal(id);
  }

  /** What each publisher knows: the pointer has reached what it read, and what it read had reached what it saw. */
  ghost predicate PublisherOk(body: Option<string>, p: Publisher, tag: Tagging) {
    && Validate(p.id).Ok?
    && match p.step
       case Reading(t, seen) => t == tag(seen) && body.Some? && exists id :: Holds(Some(seen), id) && Reached(body, id)
       case Writing(t, seen, read) =>
         && t == tag(seen) && body.Some? && Valid(read) && Reached(body, read) && Reached(Some(TextOf(read)), ParsedOr(seen))
         && WellFormed(Some(seen)) && RankLess(read, Validate(p.id).value)
       case Ended(outcome) =>
         outcome.Stored? || outcome.Already? || outcome.Stale? ==> Reached(body, Validate(p.id).value)
       case _ => true
  }

  function ParsedOr(body: string): string { if ParsePointer(body).Ok? then ParsePointer(body).value else "" }

  ghost predicate Inv(sys: System, tag: Tagging) {
    && WellFormed(sys.body)
    && forall who :: who in sys.publishers ==> PublisherOk(sys.body, sys.publishers[who], tag)
  }

  /** The pointer may only move up. */
  ghost predicate NotLowered(before: Option<string>, after: Option<string>) {
    before.Some? ==> forall id :: Holds(before, id) ==> Reached(after, id)
  }

  lemma ReachedStays(before: Option<string>, after: Option<string>, id: string)
    requires NotLowered(before, after) && Reached(before, id)
    ensures Reached(after, id)
  {
    hide Holds, AtLeast;
    var current :| Holds(before, current) && AtLeast(current, id);
    assert before.Some? by { HoldsSome(before, current); }
    var later :| Holds(after, later) && AtLeast(later, current);
    AtLeastTransitive(later, current, id);
  }

  lemma HoldsSome(body: Option<string>, id: string)
    requires Holds(body, id)
    ensures body.Some?
  {}

  lemma OtherStays(before: Option<string>, after: Option<string>, p: Publisher, tag: Tagging)
    requires PublisherOk(before, p, tag) && NotLowered(before, after) && (before.Some? ==> after.Some?)
    ensures PublisherOk(after, p, tag)
  {
    hide Holds, AtLeast, RankLess, Validate, NotLowered, Reached;
    match p.step
    case Reading(t, seen) =>
      var id :| Holds(Some(seen), id) && Reached(before, id);
      ReachedStays(before, after, id);
    case Writing(t, seen, read) => ReachedStays(before, after, read);
    case Ended(outcome) =>
      if outcome.Stored? || outcome.Already? || outcome.Stale? {
        ReachedStays(before, after, Validate(p.id).value);
      }
    case _ =>
  }

  lemma SelfReached(body: Option<string>, id: string)
    requires Holds(body, id)
    ensures Reached(body, id)
  {}

  lemma NothingLowered(body: Option<string>)
    ensures NotLowered(body, body)
  {}

  /** Writing over a pointer one has reached and outranks does not lower it. */
  lemma OverwriteRaises(body: Option<string>, current: string, id: string)
    requires Holds(body, current) && Validate(id).Ok? && AtLeast(Validate(id).value, current)
    ensures NotLowered(body, Some(TextOf(id)))
  {
    StoresNormal(id);
    hide Holds, AtLeast, TextOf;
    forall other | Holds(body, other) ensures Reached(Some(TextOf(id)), other) {
      HoldsOnly(body, current, other);
    }
  }

  lemma CompareIs(body: Option<string>, p: Publisher, tag: string, seen: string, current: string)
    requires body.Some? && ParsePointer(body.value) == Ok(current)
    ensures Compare(body, p, tag, seen) ==
              if current == p.id then Ended(Already)
              else if ShouldClobber(current, p.id) != Ok(true) then Ended(Stale(current))
              else if tag == "" then Ended(Broken)
              else Writing(tag, seen, current)
  {
    hide ParsePointer, ShouldClobber;
  }

  lemma EndedOk(body: Option<string>, p: Publisher, outcome: Outcome, tag: Tagging)
    requires Validate(p.id).Ok? && (outcome.Stored? || outcome.Already? || outcome.Stale? ==> Reached(body, Validate(p.id).value))
    ensures PublisherOk(body, p.(step := Ended(outcome)), tag)
  {
    hide Validate, Reached;
  }

  lemma WritingOk(body: Option<string>, p: Publisher, seen: string, read: string, tag: Tagging)
    requires Validate(p.id).Ok? && body.Some? && Valid(read) && Reached(body, read) && Reached(Some(TextOf(read)), ParsedOr(seen))
    requires WellFormed(Some(seen)) && RankLess(read, Validate(p.id).value)
    ensures PublisherOk(body, p.(step := Writing(tag(seen), seen, read)), tag)
  {
    hide Validate, Reached, WellFormed, RankLess, ParsedOr, TextOf;
  }

  lemma ReadingParts(body: Option<string>, p: Publisher, tag: Tagging) returns (head: string)
    requires p.step.Reading? && PublisherOk(body, p, tag)
    ensures Validate(p.id).Ok? && body.Some? && p.step.tag == tag(p.step.seen)
    ensures Holds(Some(p.step.seen), head) && Reached(body, head) && WellFormed(Some(p.step.seen))
    ensures ParsedOr(p.step.seen) == head
  {
    hide Validate, Holds, Reached;
    head :| Holds(Some(p.step.seen), head) && Reached(body, head);
    HoldsParses(Some(p.step.seen), head);
  }

  lemma HoldsValid(body: Option<string>, id: string)
    requires Holds(body, id)
    ensures Valid(id) && Validate(id).Ok? && body.Some? && Reached(body, id)
  {
    hide TextOf;
  }

  lemma OwnIdReached(body: Option<string>, current: string, id: string)
    requires Holds(body, current) && Validate(id).Ok? && (current == id || AtLeast(current, Validate(id).value))
    ensures Reached(body, Validate(id).value)
  {
    hide AtLeast, TextOf;
    if current == id {
      AtLeastSelf(id);
    }
  }

  lemma AtLeastSelf(id: string)
    ensures AtLeast(id, id)
  {}

  /** Comparing against the body that was read, the publisher ends knowing its place or goes on to write above it. */
  lemma CompareKeeps(body: Option<string>, p: Publisher, tag: Tagging)
    requires p.step.Reading? && PublisherOk(body, p, tag) && WellFormed(body)
    ensures PublisherOk(body, p.(step := Compare(body, p, p.step.tag, p.step.seen)), tag)
  {
    hide *;
    var head := ReadingParts(body, p, tag);
    var current := HeldId(body);
    var id := Validate(p.id).value;
    HoldsValid(body, current);
    HoldsParses(body, current);
    ClobberIsRankLess(current, p.id);
    ValidIsValidated(current);
    RankTotal(current, id);
    ReadReached(body, current, head);
    CompareIs(body, p, p.step.tag, p.step.seen, current);
    if current == p.id || ShouldClobber(current, p.id) != Ok(true) {
      OwnIdReached(body, current, p.id);
      EndedOk(body, p, if current == p.id then Already else Stale(current), tag);
    } else if p.step.tag == "" {
      EndedOk(body, p, Broken, tag);
    } else {
      WritingOk(body, p, p.step.seen, current, tag);
    }
  }

  lemma ValidIsValidated(id: string)
    requires Valid(id)
    ensures Validate(id).value == id
  {
    hide Validate;
  }

  lemma HeldId(body: Option<string>) returns (id: string)
    requires WellFormed(body) && body.Some?
    ensures Holds(body, id)
  {
    hide Holds;
    id :| Holds(body, id);
  }

  lemma ReadReached(body: Option<string>, current: string, head: string)
    requires Holds(body, current) && Reached(body, head)
    ensures AtLeast(current, head) && Reached(Some(TextOf(current)), head)
  {
    hide AtLeast, TextOf;
    var other :| Holds(body, other) && AtLeast(other, head);
    HoldsOnly(body, current, other);
  }

  /** A conditional write that goes through replaces exactly the body whose tag was asked for. */
  lemma WriteRaises(body: Option<string>, p: Publisher, tag: Tagging)
    requires p.step.Writing? && PublisherOk(body, p, tag) && Injective(tag)
    requires body.Some? && tag(body.value) == p.step.tag
    ensures NotLowered(body, Some(TextOf(p.id))) && Reached(Some(TextOf(p.id)), Validate(p.id).value)
  {
    var id := Validate(p.id).value;
    assert body.value == p.step.seen;
    var current :| Holds(body, current);
    HoldsParses(body, current);
    var read := p.step.read;
    ReadReachedBy(read, current);
    StoresNormal(p.id);
    hide Validate, TextOf;
    SelfReached(Some(TextOf(p.id)), id);
    AtLeastTransitive(id, read, current);
    OverwriteRaises(body, current, p.id);
  }

  lemma ReadReachedBy(read: string, current: string)
    requires Valid(read) && Reached(Some(TextOf(read)), current)
    ensures AtLeast(read, current)
  {
    hide AtLeast, TextOf;
    var other :| Holds(Some(TextOf(read)), other) && AtLeast(other, current);
    HoldsOnly(Some(TextOf(read)), read, other);
  }

  lemma ReadingOk(body: Option<string>, p: Publisher, tag: Tagging)
    requires Validate(p.id).Ok? && body.Some? && WellFormed(body)
    ensures PublisherOk(body, p.(step := Reading(tag(body.value), body.value)), tag)
  {
    hide Validate, Holds, Reached;
    var id :| Holds(body, id);
    HoldsValid(body, id);
  }

  lemma CreatingOk(body: Option<string>, p: Publisher, tag: Tagging)
    requires Validate(p.id).Ok?
    ensures PublisherOk(body, p.(step := Creating), tag)
  {}

  lemma OkValidates(body: Option<string>, p: Publisher, tag: Tagging)
    requires PublisherOk(body, p, tag)
    ensures Validate(p.id).Ok?
  {
    hide Validate, Reached;
  }

  lemma StoredKeeps(id: string)
    requires Validate(id).Ok?
    ensures Reached(Some(TextOf(id)), Validate(id).value) && WellFormed(Some(TextOf(id)))
  {
    StoresNormal(id);
    hide Validate, TextOf;
    HoldsValid(Some(TextOf(id)), Validate(id).value);
  }

  lemma NothingBefore(after: Option<string>)
    ensures NotLowered(None, after)
  {}

  /** One step of one publisher, unless it is a raced creation. */
  lemma AdvanceKeeps(body: Option<string>, p: Publisher, tag: Tagging)
    requires PublisherOk(body, p, tag) && WellFormed(body) && Injective(tag) && !(p.step.Creating? && body.Some?)
    ensures var (after, step) := Advance(body, p, tag);
            && WellFormed(after) && NotLowered(body, after) && (body.Some? ==> after.Some?) && PublisherOk(after, p.(step := step), tag)
  {
    hide Validate, TextOf, Holds, Reached, RankLess, Compare, Injective, PublisherOk, WellFormed, NotLowered;
    OkValidates(body, p, tag);
    NothingLowered(body);
    match p.step
    case Heading =>
      if body.Some? {
        ReadingOk(body, p, tag);
      } else {
        CreatingOk(body, p, tag);
      }
    case Reading(t, seen) => CompareKeeps(body, p, tag);
    case Writing(t, seen, read) =>
      if body.Some? && tag(body.value) == t {
        WriteRaises(body, p, tag);
        StoredKeeps(p.id);
        EndedOk(Some(TextOf(p.id)), p, Stored, tag);
      } else {
        EndedOk(body, p, Conflict, tag);
      }
    case Creating =>
      NothingBefore(Some(TextOf(p.id)));
      StoredKeeps(p.id);
      EndedOk(Some(TextOf(p.id)), p, Stored, tag);
    case Ended(_) =>
  }

  /** A step of the system, unless it is a raced creation, keeps the pointer from falling and everyone's knowledge right. */
  lemma GoKeeps(sys: System, who: nat, tag: Tagging)
    requires Inv(sys, tag) && Injective(tag) && who in sys.publishers && !Blind(sys, Go(who))
    ensures Inv(Next(sys, Go(who), tag), tag) && NotLowered(sys.body, Next(sys, Go(who), tag).body)
  {
    hide Advance, PublisherOk, WellFormed, NotLowered, Injective;
    var after := Next(sys, Go(who), tag);
    AdvanceKeeps(sys.body, sys.publishers[who], tag);
    forall other | other in after.publishers ensures PublisherOk(after.body, after.publishers[other], tag) {
      if other != who {
        OtherStays(sys.body, after.body, sys.publishers[other], tag);
      }
    }
  }

  ghost predicate Initial(sys: System) { WellFormed(sys.body) && sys.publishers == map[] }

  lemma {:induction false} InvHolds(sys: System, events: seq<Event>, tag: Tagging)
    requires Initial(sys) && Injective(tag) && Unraced(sys, events, tag)
    ensures Inv(Run(sys, events, tag), tag)
  {
    if events != [] {
      var before, event := Run(sys, events[..|events| - 1], tag), events[|events| - 1];
      InvHolds(sys, events[..|events| - 1], tag);
      hide Validate, WellFormed, PublisherOk, Injective, Advance;
      if event.Go? && event.who in before.publishers {
        GoKeeps(before, event.who, tag);
      } else if event.Start? && Validate(event.id).Ok? {
        StartedOk(before.body, event.id, tag);
      }
    }
  }

  lemma StartedOk(body: Option<string>, id: string, tag: Tagging)
    requires Validate(id).Ok?
    ensures PublisherOk(body, Publisher(id, Heading), tag)
  {}

  /**
    The pointer never falls, and whoever returns without a conflict leaves it at its own rank or above: after any
    interleaving in which no creation raced, the next event lowers the pointer exactly when it is a raced creation
    by a publisher that the pointer outranks.
   */
  lemma PointerMonotone(sys: System, events: seq<Event>, event: Event, tag: Tagging)
    requires Initial(sys) && Injective(tag) && Unraced(sys, events, tag)
    ensures var before := Run(sys, events, tag);
            NotLowered(before.body, Next(before, event, tag).body) <==>
              !(Blind(before, event) && exists id :: Holds(before.body, id) && RankLess(Validated(before.publishers[event.who].id), id))
  {
    var before := Run(sys, events, tag);
    InvHolds(sys, events, tag);
    hide Run, Validate, TextOf, Holds, AtLeast, RankLess, Injective, PublisherOk;
    NothingLowered(before.body);
    if Blind(before, event) {
      BlindLowers(before, event.who, tag);
    } else if event.Go? && event.who in before.publishers {
      GoKeeps(before, event.who, tag);
    }
  }

  function Validated(id: string): string { if Validate(id).Ok? then Validate(id).value else "" }

  lemma BlindLowers(sys: System, who: nat, tag: Tagging)
    requires Inv(sys, tag) && Blind(sys, Go(who))
    ensures var id := sys.publishers[who].id;
            NotLowered(sys.body, Some(TextOf(id))) <==> !(exists current :: Holds(sys.body, current) && RankLess(Validated(id), current))
    ensures Next(sys, Go(who), tag).body == Some(TextOf(sys.publishers[who].id))
  {
    hide *;
    BlindParts(sys, who, tag);
    var id := sys.publishers[who].id;
    var current := HeldId(sys.body);
    StoresNormal(id);
    ValidatedIs(id);
    RankTotal(Validate(id).value, current);
    if AtLeast(Validate(id).value, current) {
      OverwriteRaises(sys.body, current, id);
      forall other | Holds(sys.body, other) ensures !RankLess(Validated(id), other) {
        HoldsOnly(sys.body, current, other);
      }
    } else if NotLowered(sys.body, Some(TextOf(id))) {
      var other := RaisedOver(sys.body, Some(TextOf(id)), current);
      HoldsOnly(Some(TextOf(id)), Validate(id).value, other);
    }
  }

  lemma BlindParts(sys: System, who: nat, tag: Tagging)
    requires Inv(sys, tag) && Blind(sys, Go(who))
    ensures who in sys.publishers && Validate(sys.publishers[who].id).Ok? && sys.body.Some? && WellFormed(sys.body)
    ensures Next(sys, Go(who), tag).body == Some(TextOf(sys.publishers[who].id))
  {
    hide PublisherOk, WellFormed, Validate, TextOf;
    OkValidates(sys.body, sys.publishers[who], tag);
  }

  lemma RaisedOver(before: Option<string>, after: Option<string>, current: string) returns (later: string)
    requires NotLowered(before, after) && before.Some? && Holds(before, current)
    ensures Holds(after, later) && AtLeast(later, current)
  {
    hide Holds, AtLeast;
    later :| Holds(after, later) && AtLeast(later, current);
  }

  lemma ReturnsReached(sys: System, events: seq<Event>, who: nat, tag: Tagging)
    requires Initial(sys) && Injective(tag) && Unraced(sys, events, tag)
    requires who in Run(sys, events, tag).publishers && Run(sys, events, tag).publishers[who].step.Ended?
    ensures var p := Run(sys, events, tag).publishers[who];
            p.step.outcome.Stored? || p.step.outcome.Already? || p.step.outcome.Stale? ==>
              Reached(Run(sys, events, tag).body, Validated(p.id))
  {
    InvHolds(sys, events, tag);
    hide Run, Validate, Reached;
    assert PublisherOk(Run(sys, events, tag).body, Run(sys, events, tag).publishers[who], tag);
  }

  // ---------------------------------------------------------------------------------------------
  // Whole runs
  // ---------------------------------------------------------------------------------------------

  /** A pointer is there, and nobody is about to write a first one. */
  predicate Settled(sys: System) {
    sys.body.Some? && forall who :: who in sys.publishers ==> !sys.publishers[who].step.Creating?
  }

  lemma SettledStays(sys: System, event: Event, tag: Tagging)
    requires Settled(sys)
    ensures Settled(Next(sys, event, tag)) && !Blind(sys, event)
  {
    hide Validate, TextOf, ParsePointer, ShouldClobber;
  }

  /** Once a pointer exists no first write can race: the premise of the theorems above holds of every run. */
  lemma {:induction false} ExistingIsUnraced(sys: System, events: seq<Event>, tag: Tagging)
    requires Initial(sys) && sys.body.Some?
    ensures Unraced(sys, events, tag) && Settled(Run(sys, events, tag))
  {
    if events != [] {
      ExistingIsUnraced(sys, events[..|events| - 1], tag);
      hide Next, Initial, Settled, Blind;
      SettledStays(Run(sys, events[..|events| - 1], tag), events[|events| - 1], tag);
    }
  }

  lemma {:induction false} UnracedPrefix(sys: System, events: seq<Event>, n: nat, tag: Tagging)
    requires n <= |events| && Unraced(sys, events, tag)
    ensures Unraced(sys, events[..n], tag)
  {
    if n == |events| {
      assert events[..n] == events;
    } else {
      UnracedPrefix(sys, events[..|events| - 1], n, tag);
      assert events[..|events| - 1][..n] == events[..n];
    }
  }

  lemma NotLoweredTransitive(a: Option<string>, b: Option<string>, c: Option<string>)
    requires NotLowered(a, b) && NotLowered(b, c)
    ensures NotLowered(a, c)
  {
    hide Holds, Reached;
    forall id | a.Some? && Holds(a, id) ensures Reached(c, id) {
      ReachedStays(b, c, id);
    }
  }

  lemma PrefixRun(sys: System, events: seq<Event>, m: nat, tag: Tagging)
    requires m < |events|
    ensures Run(sys, events[..m + 1], tag) == Next(Run(sys, events[..m], tag), events[m], tag)
    ensures Unraced(sys, events[..m + 1], tag) ==> !Blind(Run(sys, events[..m], tag), events[m])
  {
    hide Next, Blind;
    assert events[..m + 1][..m] == events[..m];
  }

  lemma StepNotLowered(sys: System, event: Event, tag: Tagging)
    requires Inv(sys, tag) && Injective(tag) && !Blind(sys, event)
    ensures NotLowered(sys.body, Next(sys, event, tag).body)
  {
    NothingLowered(sys.body);
    hide NotLowered, Injective, Inv, Advance, Validate;
    if event.Go? && event.who in sys.publishers {
      GoKeeps(sys, event.who, tag);
    }
  }

  /** Between any two moments of a run that starts with a pointer, or in which no creation raced, the pointer does not fall. */
  lemma {:induction false} NeverLowered(sys: System, events: seq<Event>, n: nat, m: nat, tag: Tagging)
    requires Initial(sys) && Injective(tag) && (sys.body.Some? || Unraced(sys, events, tag)) && n <= m <= |events|
    ensures NotLowered(Run(sys, events[..n], tag).body, Run(sys, events[..m], tag).body)
    decreases m
  {
    hide *;
    if n == m {
      NothingLowered(Run(sys, events[..n], tag).body);
    } else {
      if sys.body.Some? {
        ExistingIsUnraced(sys, events, tag);
      }
      NeverLowered(sys, events, n, m - 1, tag);
      UnracedPrefix(sys, events, m - 1, tag);
      UnracedPrefix(sys, events, m, tag);
      InvHolds(sys, events[..m - 1], tag);
      PrefixRun(sys, events, m - 1, tag);
      StepNotLowered(Run(sys, events[..m - 1], tag), events[m - 1], tag);
      NotLoweredTransitive(Run(sys, events[..n], tag).body, Run(sys, events[..m - 1], tag).body, Run(sys, events[..m], tag).body);
    }
  }

  /** The unconditional first write is the one gap: two publishers that both find nothing may end on the lower one. */
  lemma RacedCreationLowers(high: string, low: string, tag: Tagging)
    requires Valid(high) && Valid(low) && RankLess(low, high)
    ensures var end := Run(System(None, map[]), [Start(0, high), Start(1, low), Go(0), Go(1), Go(0), Go(1)], tag);
            end.body == Some(TextOf(low)) && 0 in end.publishers && end.publishers[0].step == Ended(Stored)
  {
    hide Validate, TextOf, RankLess;
    var events := [Start(0, high), Start(1, low), Go(0), Go(1), Go(0), Go(1)];
    var s0 := System(None, map[]);
    var s1 := Next(s0, events[0], tag);
    var s2 := Next(s1, events[1], tag);
    var s3 := Next(s2, events[2], tag);
    var s4 := Next(s3, events[3], tag);
    var s5 := Next(s4, events[4], tag);
    assert events[..5][..4] == events[..4] && events[..4][..3] == events[..3] && events[..3][..2] == events[..2];
    assert events[..2][..1] == events[..1] && events[..1][..0] == [];
    assert Run(s0, events[..1], tag) == s1;
    assert Run(s0, events[..2], tag) == s2;
    assert Run(s0, events[..3], tag) == s3;
    assert Run(s0, events[..4], tag) == s4;
    assert Run(s0, events[..5], tag) == s5;
  }

  // ---------------------------------------------------------------------------------------------
  // One publisher at a time
  // ---------------------------------------------------------------------------------------------

  /** Tags of existing objects are never empty. */
  ghost predicate TagsGiven(tag: Tagging) { forall body :: tag(body) != "" }

  class PointerObject {
    var body: Option<string>

    constructor (body: Option<string>)
      ensures this.body == body
    {
      this.body := body;
    }

    /** Other publishers change the object between two calls. */
    method Interfere(other: Option<string>)
      modifies this
      ensures body == other
    {
      body := other;
    }

    /** Publish once; `afterHead` and `afterRead` are what others leave between this publisher's calls. */
    method Publish(id: string, tag: Tagging, afterHead: Option<string>, afterRead: Option<string>) returns (outcome: Outcome)
      requires Validate(id).Ok?
      modifies this
      ensures var p := Publisher(id, Heading);
              if old(body).None? then outcome == Stored && body == Some(TextOf(id))
              else
                var compared := Compare(afterHead, p, tag(old(body).value), old(body).value);
                if compared.Ended? then outcome == compared.outcome && body == afterHead
                else if afterRead.Some? && tag(afterRead.value) == tag(old(body).value) then outcome == Stored && body == Some(TextOf(id))
                else outcome == Conflict && body == afterRead
    {
      hide Validate, TextOf, ParsePointer, ShouldClobber;
      if body.None? {
        body := Some(TextOf(id));
        return Stored;
      }
      var head, seen := tag(body.value), body.value;
      Interfere(afterHead);
      if body.None? {
        return Broken;
      }
      var current := ParsePointer(body.value);
      if current.Err? {
        return Broken;
      }
      if current.value == id {
        return Already;
      }
      if ShouldClobber(current.value, id) != Ok(true) {
        return Stale(current.value);
      }
      if head == "" {
        return Broken;
      }
      Interfere(afterRead);
      if body.Some? && tag(body.value) == head {
        body := Some(TextOf(id));
        return Stored;
      }
      outcome := Conflict;
    }

    /** Publish a list of identifiers, one after the other, with nobody else around. */
    method PublishEach(ids: seq<string>, tag: Tagging)
      requires body.None? && TagsGiven(tag) && forall k :: 0 <= k < |ids| ==> Validate(ids[k]).Ok?
      modifies this
      ensures ids == [] ==> body.None?
      ensures ids != [] ==> exists m :: 0 <= m < |ids| && body == Some(TextOf(ids[m])) && IsMax(ids, m)
    {
      hide Validate, TextOf, ParsePointer, ShouldClobber, AtLeast;
      ghost var top := 0;
      var i := 0;
      while i < |ids|
        invariant 0 <= i <= |ids| && (i == 0 ==> body.None?)
        invariant i > 0 ==> top < i && body == Some(TextOf(ids[top])) && IsMax(ids[..i], top)
      {
        if i > 0 {
          NextMax(ids, i, top, tag);
        } else {
          OnlyMax(ids);
        }
        var before := body;
        var outcome := Publish(ids[i], tag, body, body);
        if i == 0 || (body == Some(TextOf(ids[i])) && IsMax(ids[..i + 1], i)) {
          top := i;
        }
        i := i + 1;
      }
      assert ids[..i] == ids;
    }
  }

  /** No identifier of the list outranks the one at m. */
  ghost predicate IsMax(ids: seq<string>, m: nat) {
    m < |ids| && forall k :: 0 <= k < |ids| ==> AtLeast(Validated(ids[m]), Validated(ids[k]))
  }

  lemma OnlyMax(ids: seq<string>)
    requires ids != []
    ensures IsMax(ids[..1], 0)
  {
    hide AtLeast, Validated;
    AtLeastSelf(Validated(ids[0]));
  }

  /** Publishing the next identifier over the maximum so far leaves the maximum. */
  lemma NextMax(ids: seq<string>, i: nat, top: nat, tag: Tagging)
    requires 0 < i < |ids| && top < i && IsMax(ids[..i], top) && TagsGiven(tag)
    requires forall k :: 0 <= k < |ids| ==> Validate(ids[k]).Ok?
    ensures var body := TextOf(ids[top]);
            var compared := Compare(Some(body), Publisher(ids[i], Heading), tag(body), body);
            if compared.Ended? then IsMax(ids[..i + 1], top) else IsMax(ids[..i + 1], i)
  {
    hide *;
    var body, current := TextOf(ids[top]), Validate(ids[top]).value;
    var id := Validate(ids[i]).value;
    StoresNormal(ids[top]);
    HoldsParses(Some(body), current);
    HoldsValid(Some(body), current);
    ValidIsValidated(current);
    CompareIs(Some(body), Publisher(ids[i], Heading), tag(body), body, current);
    ClobberIsRankLess(current, ids[i]);
    RankTotal(current, id);
    ValidatedIs(ids[i]);
    ValidatedIs(ids[top]);
    ValidatedIs(current);
    AtLeastSelf(id);
    TagIsGiven(tag, body);
    if ShouldClobber(current, ids[i]) == Ok(true) && current != ids[i] {
      LessAtLeast(current, id);
      MaxMoves(ids, i, top);
    } else {
      if current == ids[i] {
        AtLeastSelf(current);
      }
      MaxStays(ids, i, top);
    }
  }

  lemma LessAtLeast(a: string, b: string)
    requires RankLess(a, b)
    ensures AtLeast(b, a)
  {}

  lemma ValidatedIs(id: string)
    requires Validate(id).Ok?
    ensures Validated(id) == Validate(id).value
  {
    hide Validate;
  }

  lemma TagIsGiven(tag: Tagging, body: string)
    requires TagsGiven(tag)
    ensures tag(body) != ""
  {}

  lemma MaxStays(ids: seq<string>, i: nat, top: nat)
    requires i < |ids| && top < i && IsMax(ids[..i], top) && AtLeast(Validated(ids[top]), Validated(ids[i]))
    ensures IsMax(ids[..i + 1], top)
  {
    hide AtLeast, Validated;
    var before, more := ids[..i], ids[..i + 1];
    forall k | 0 <= k < |more| ensures AtLeast(Validated(more[top]), Validated(more[k])) {
      assert k < i ==> more[k] == before[k] && AtLeast(Validated(before[top]), Validated(before[k]));
    }
  }

  lemma MaxMoves(ids: seq<string>, i: nat, top: nat)
    requires i < |ids| && top < i && IsMax(ids[..i], top) && AtLeast(Validated(ids[i]), Validated(ids[top]))
    requires AtLeast(Validated(ids[i]), Validated(ids[i]))
    ensures IsMax(ids[..i + 1], i)
  {
    hide AtLeast, Validated;
    var before, more := ids[..i], ids[..i + 1];
    forall k | 0 <= k < |more| ensures AtLeast(Validated(more[i]), Validated(more[k])) {
      if k < i {
        assert more[k] == before[k] && AtLeast(Validated(before[top]), Validated(before[k]));
        AtLeastTransitive(Validated(ids[i]), Validated(ids[top]), Validated(ids[k]));
      }
    }
  }
}
