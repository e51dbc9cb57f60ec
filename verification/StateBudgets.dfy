/**
  What travels between the steps of a run: fields shared by all folders are stored once, each folder's item is
  compacted and later restored, and the state that a probe result is written into must stay within its budget.
 */
module StateBudgets {
  import opened Wrappers

  const DEFAULT_APPLY_GRACE: int := 15
  const DEFAULT_DESTROY_GRACE: int := 60

  // ---------------------------------------------------------------------------------------------
  // Folder configuration
  // ---------------------------------------------------------------------------------------------

  datatype Json = Null | Bool(flag: bool) | Num(n: int) | Str(text: string) | List(items: seq<Json>) | Block(allow: Option<Json>, grace: Option<Json>)

  /** The keys that compaction knows, and any other. A block stands for an object, of which two keys matter here. */
  datatype Key = Apply | Destroy | StateBucket | StateKey | Other(name: string)

  type Config = map<Key, Json>

  predicate Truthy(v: Json) {
    match v
    case Null => false
    case Bool(flag) => flag
    case Num(n) => n != 0
    case Str(text) => text != ""
    case List(items) => items != []
    case Block(allow, grace) => allow.Some? || grace.Some?
  }

  function DefaultGrace(verb: Key): int { if verb == Apply then DEFAULT_APPLY_GRACE else DEFAULT_DESTROY_GRACE }

  function GraceOf(verb: Key, block: Json): Json
    requires block.Block?
  {
    if block.grace.Some? then block.grace.value else Num(DefaultGrace(verb))
  }

  predicate Enabled(config: Config, verb: Key) { verb in config && config[verb].Block? && config[verb].allow == Some(Bool(true)) }

  function DropEmpty(config: Config, key: Key): Config { if key in config && Truthy(config[key]) then config else config - {key} }

  function CompactVerb(config: Config, verb: Key): Config {
    if Enabled(config, verb) then config[verb := Block(Some(Bool(true)), Some(GraceOf(verb, config[verb])))] else config - {verb}
  }

  function Compact(config: Config): Config {
    CompactVerb(CompactVerb(DropEmpty(DropEmpty(config, StateBucket), StateKey), Apply), Destroy)
  }

  function ExpandVerb(config: Config, verb: Key): Config {
    if verb !in config || config[verb] == Null then config[verb := Block(Some(Bool(false)), Some(Num(DefaultGrace(verb))))]
    else if config[verb].Block? then
      var allow := config[verb].allow;
      config[verb := Block(Some(Bool(allow.Some? && Truthy(allow.value))), Some(GraceOf(verb, config[verb])))]
    else config
  }

  function Expand(config: Config): Config { ExpandVerb(ExpandVerb(config, Apply), Destroy) }

  /** The compacting loop over a copy of the configuration. */
  method CompactConfig(config: Config) returns (compact: Config)
    ensures compact == Compact(config)
  {
    compact := config;
    var keys := [StateBucket, StateKey];
    var i := 0;
    while i < 2
      invariant 0 <= i <= 2
      invariant i == 0 ==> compact == config
      invariant i == 1 ==> compact == DropEmpty(config, StateBucket)
      invariant i == 2 ==> compact == DropEmpty(DropEmpty(config, StateBucket), StateKey)
    {
      if keys[i] !in compact || !Truthy(compact[keys[i]]) {
        compact := compact - {keys[i]};
      }
      i := i + 1;
    }
    ghost var dropped := compact;
    var verbs := [Apply, Destroy];
    i := 0;
    while i < 2
      invariant 0 <= i <= 2
      invariant i == 0 ==> compact == dropped
      invariant i == 1 ==> compact == CompactVerb(dropped, Apply)
      invariant i == 2 ==> compact == CompactVerb(CompactVerb(dropped, Apply), Destroy)
    {
      var verb := verbs[i];
      if verb !in compact || !compact[verb].Block? || compact[verb].allow != Some(Bool(true)) {
        compact := compact - {verb};
      } else {
        compact := compact[verb := Block(Some(Bool(true)), Some(GraceOf(verb, compact[verb])))];
      }
      i := i + 1;
    }
  }

  lemma CompactAt(config: Config, key: Key)
    ensures var compact := Compact(config);
            match key
            case Apply =>
              (key in compact <==> Enabled(config, key)) && (key in compact ==> compact[key] == Block(Some(Bool(true)), Some(GraceOf(key, config[key]))))
            case Destroy =>
              (key in compact <==> Enabled(config, key)) && (key in compact ==> compact[key] == Block(Some(Bool(true)), Some(GraceOf(key, config[key]))))
            case Other(_) => (key in compact <==> key in config) && (key in compact ==> compact[key] == config[key])
            case _ => (key in compact <==> key in config && Truthy(config[key])) && (key in compact ==> compact[key] == config[key])
  {}

  lemma ExpandAt(config: Config, key: Key)
    ensures var expanded := Expand(config);
            if key == Apply || key == Destroy then
              && key in expanded
              && (key !in config ==> expanded[key] == Block(Some(Bool(false)), Some(Num(DefaultGrace(key)))))
              && (Enabled(config, key) ==> expanded[key] == Block(Some(Bool(true)), Some(GraceOf(key, config[key]))))
            else (key in expanded <==> key in config) && (key in config ==> expanded[key] == config[key])
  {}

  /** Compacting again after restoring changes nothing: whatever the configuration, the compact form is stable. */
  lemma CompactExpandCompact(config: Config)
    ensures Compact(Expand(Compact(config))) == Compact(config)
  {
    hide Compact, Expand, Truthy;
    var compact, again := Compact(config), Compact(Expand(Compact(config)));
    forall key ensures (key in again <==> key in compact) && (key in again ==> again[key] == compact[key]) {
      CompactAt(config, key);
      ExpandAt(compact, key);
      CompactAt(Expand(compact), key);
    }
  }

  /** An enabled verb keeps its grace period, or gets the default; a verb that is not enabled comes back disabled. */
  lemma GraceSurvives(config: Config, verb: Key)
    requires verb == Apply || verb == Destroy
    ensures var restored := Expand(Compact(config));
            verb in restored && restored[verb] ==
              if Enabled(config, verb) then Block(Some(Bool(true)), Some(GraceOf(verb, config[verb])))
              else Block(Some(Bool(false)), Some(Num(DefaultGrace(verb))))
  {
    hide Compact, Expand;
    CompactAt(config, verb);
    ExpandAt(Compact(config), verb);
  }

  /** Everything else in the configuration is untouched, except that an empty bucket or key is dropped. */
  lemma OtherKeysSurvive(config: Config, key: Key)
    requires key != Apply && key != Destroy
    ensures var restored := Expand(Compact(config));
            (key in restored <==> key in config && (key.Other? || Truthy(config[key])))
            && (key in restored ==> restored[key] == config[key])
  {
    hide Compact, Expand, Truthy;
    CompactAt(config, key);
    ExpandAt(Compact(config), key);
  }

  // ---------------------------------------------------------------------------------------------
  // Map items
  // ---------------------------------------------------------------------------------------------

  datatype Field =
    // shared by all items
    | UpstreamUrls | RepoName | GitUrl | CommitHash | GithubTokenName | InfracostKeyName
    // of each item
    | RunId | Folder | AccountId | Action | Attempt | Budget | DeadlineAt
    // of some items
    | FolderPin | SourcePlanRunId | GraceSeconds | StepIndex | CommandContext | PlanFocus
    // under their full and their short names
    | AccountBinding | ExecutionId | ShortBinding | ShortExecution
    | Unknown(name: string)

  const SHARED: set<Field> := {UpstreamUrls, RepoName, GitUrl, CommitHash, GithubTokenName, InfracostKeyName}
  const OWN: set<Field> := {RunId, Folder, AccountId, Action, Attempt, Budget, DeadlineAt}
  const OPTIONAL: set<Field> := {FolderPin, SourcePlanRunId, GraceSeconds, StepIndex, CommandContext, PlanFocus}

  /** An item and its folder configuration, which has a short name of its own in the compact form. */
  datatype Item = Item(fields: map<Field, Json>, config: Option<Config>)

  datatype StateError = NoItems | MissingField | Inconsistent(field: Field)

  predicate Has(item: Item, fields: set<Field>) { fields <= item.fields.Keys }

  /** What the program stores of an item besides the shared fields. */
  function CompactItem(item: Item): Result<Item, StateError> {
    if !Has(item, OWN + {AccountBinding, ExecutionId}) || item.config.None? then Err(MissingField)
    else
      var kept := map f | f in item.fields && (f in OWN || f in OPTIONAL) :: item.fields[f];
      Ok(Item(kept[ShortBinding := item.fields[AccountBinding]][ShortExecution := item.fields[ExecutionId]], item.config))
  }

  predicate IsNumber(v: Json) { v.Num? }

  function Focus(item: Item): Json { Bool(PlanFocus in item.fields && item.fields[PlanFocus] == Bool(true)) }

  function StepOf(item: Item): Json { if StepIndex in item.fields && IsNumber(item.fields[StepIndex]) then item.fields[StepIndex] else Num(0) }

  /** The input of the inner run, put together from the shared fields and a compact item. */
  function MergeItem(shared: map<Field, Json>, compact: Item): Result<Item, StateError> {
    if !(SHARED <= shared.Keys) || !Has(compact, OWN + {ShortBinding, ShortExecution}) || compact.config.None? then Err(MissingField)
    else
      var fields := map f | f in SHARED + OWN + (OPTIONAL * compact.fields.Keys) :: if f in SHARED then shared[f] else compact.fields[f];
      Ok(Item(fields[AccountBinding := compact.fields[ShortBinding]][ExecutionId := compact.fields[ShortExecution]]
                    [PlanFocus := Focus(compact)][StepIndex := StepOf(compact)],
              Some(Expand(compact.config.value))))
  }

  /** All items have the shared fields, and the same ones. */
  ghost predicate Agree(items: seq<Item>) {
    && (forall k :: 0 <= k < |items| ==> Has(items[k], SHARED))
    && forall k, f :: 0 <= k < |items| && f in SHARED ==> items[k].fields[f] == items[0].fields[f]
  }

  /** The loops that compare every item with the first. */
  method SharedContext(items: seq<Item>) returns (shared: Result<map<Field, Json>, StateError>)
    ensures items == [] ==> shared == Err(NoItems)
    ensures items != [] ==> (shared.Ok? <==> Agree(items))
    ensures shared.Ok? ==> shared.value.Keys == SHARED && forall k, f :: 0 <= k < |items| && f in SHARED ==> items[k].fields[f] == shared.value[f]
  {
    hide SHARED;
    if items == [] {
      return Err(NoItems);
    }
    if !Has(items[0], SHARED) {
      return Err(MissingField);
    }
    var first := map f | f in SHARED :: items[0].fields[f];
    var i := 1;
    while i < |items|
      invariant 1 <= i <= |items|
      invariant forall k :: 0 <= k < i ==> Has(items[k], SHARED)
      invariant forall k, f :: 0 <= k < i && f in SHARED ==> items[k].fields[f] == first[f]
    {
      var left := SHARED;
      while left != {}
        invariant left <= SHARED
        invariant forall f :: f in SHARED && f !in left ==> f in items[i].fields && items[i].fields[f] == first[f]
        decreases |left|
      {
        var f :| f in left;
        if f !in items[i].fields {
          return Err(MissingField);
        }
        if items[i].fields[f] != first[f] {
          return Err(Inconsistent(f));
        }
        left := left - {f};
      }
      i := i + 1;
    }
    shared := Ok(first);
  }

  lemma FieldSets()
    ensures SHARED !! OWN !! OPTIONAL !! {AccountBinding, ExecutionId, ShortBinding, ShortExecution}
    ensures PlanFocus in OPTIONAL && StepIndex in OPTIONAL
  {}

  lemma CompactFields(item: Item, f: Field)
    requires CompactItem(item).Ok?
    ensures var compact := CompactItem(item).value;
            && Has(item, OWN + {AccountBinding, ExecutionId}) && item.config.Some? && compact.config == item.config
            && Has(compact, OWN + {ShortBinding, ShortExecution})
            && compact.fields[ShortBinding] == item.fields[AccountBinding] && compact.fields[ShortExecution] == item.fields[ExecutionId]
            && (f in OWN || f in OPTIONAL ==> (f in compact.fields <==> f in item.fields) && (f in item.fields ==> compact.fields[f] == item.fields[f]))
  {
    hide SHARED, OWN, OPTIONAL;
    FieldSets();
  }

  lemma MergedFields(shared: map<Field, Json>, compact: Item, f: Field)
    requires MergeItem(shared, compact).Ok?
    ensures var merged := MergeItem(shared, compact).value.fields;
            && (f in SHARED ==> f in merged && merged[f] == shared[f])
            && (f in OWN ==> f in merged && f in compact.fields && merged[f] == compact.fields[f])
            && (f in OPTIONAL - {PlanFocus, StepIndex} ==> (f in merged <==> f in compact.fields) && (f in merged ==> merged[f] == compact.fields[f]))
            && ShortBinding in compact.fields && ShortExecution in compact.fields
            && AccountBinding in merged && merged[AccountBinding] == compact.fields[ShortBinding]
            && ExecutionId in merged && merged[ExecutionId] == compact.fields[ShortExecution]
            && PlanFocus in merged && merged[PlanFocus] == Focus(compact) && StepIndex in merged && merged[StepIndex] == StepOf(compact)
  {
    hide SHARED, OWN, OPTIONAL, Focus, StepOf, Expand;
    FieldSets();
  }

  /** The item is the inner run's input again. */
  ghost predicate Restored(item: Item, merged: Item) {
    && (forall f :: f in SHARED + OWN + {AccountBinding, ExecutionId} ==> f in merged.fields && f in item.fields && merged.fields[f] == item.fields[f])
    && (forall f :: f in OPTIONAL - {PlanFocus, StepIndex} ==>
          (f in merged.fields <==> f in item.fields) && (f in item.fields ==> merged.fields[f] == item.fields[f]))
    && PlanFocus in merged.fields && merged.fields[PlanFocus] == Focus(item)
    && StepIndex in merged.fields && merged.fields[StepIndex] == StepOf(item)
    && item.config.Some? && merged.config == Some(Expand(item.config.value))
  }

  lemma MergeOk(shared: map<Field, Json>, item: Item)
    requires shared.Keys == SHARED && CompactItem(item).Ok?
    ensures MergeItem(shared, CompactItem(item).value).Ok?
    ensures MergeItem(shared, CompactItem(item).value).value.config == Some(Expand(item.config.value))
  {
    hide SHARED, OWN, OPTIONAL, Focus, StepOf, Expand, CompactItem;
    CompactFields(item, RunId);
  }

  /** Restoring a compacted item gives the inner run every field it needs, as it was, for every item of the run. */
  lemma MergeRestores(items: seq<Item>, shared: map<Field, Json>, k: nat)
    requires k < |items| && Agree(items) && shared.Keys == SHARED && forall f :: f in SHARED ==> shared[f] == items[0].fields[f]
    requires CompactItem(items[k]).Ok?
    ensures var merged := MergeItem(shared, CompactItem(items[k]).value); merged.Ok? && Restored(items[k], merged.value)
  {
    hide Expand, SHARED, OWN, OPTIONAL, CompactItem, MergeItem;
    var item, compact := items[k], CompactItem(items[k]).value;
    MergeOk(shared, item);
    FieldSets();
    CompactFields(item, PlanFocus);
    CompactFields(item, StepIndex);
    var merged := MergeItem(shared, compact).value;
    MergedFields(shared, compact, RunId);
    assert Has(item, SHARED);
    forall f | f in SHARED + OWN + {AccountBinding, ExecutionId}
      ensures f in merged.fields && f in item.fields && merged.fields[f] == item.fields[f]
    {
      CompactFields(item, f);
      MergedFields(shared, compact, f);
    }
    forall f | f in OPTIONAL - {PlanFocus, StepIndex}
      ensures (f in merged.fields <==> f in item.fields) && (f in item.fields ==> merged.fields[f] == item.fields[f])
    {
      CompactFields(item, f);
      MergedFields(shared, compact, f);
    }
  }

  // ---------------------------------------------------------------------------------------------
  // Steps of a pipeline run
  // ---------------------------------------------------------------------------------------------

  predicate Selected(item: Item, steps: seq<set<Json>>, index: int) {
    if 0 <= index < |steps| then Folder in item.fields && item.fields[Folder] in steps[index]
    else StepIndex in item.fields && item.fields[StepIndex] == Num(index)
  }

  function Stamped(item: Item, index: int): Item { item.(fields := item.fields[StepIndex := Num(index)]) }

  /** The items of one step, in their order, marked with the step. */
  function ItemsForStep(items: seq<Item>, steps: seq<set<Json>>, index: int): seq<Item> {
    if items == [] then []
    else
      var last := items[|items| - 1];
      ItemsForStep(items[..|items| - 1], steps, index) + if Selected(last, steps, index) then [Stamped(last, index)] else []
  }

  /** The steps name disjoint sets of folders, and every item's folder is in one of them. */
  ghost predicate Partition(items: seq<Item>, steps: seq<set<Json>>) {
    && (forall i, j :: 0 <= i < j < |steps| ==> steps[i] !! steps[j])
    && (forall k :: 0 <= k < |items| ==> Folder in items[k].fields && exists i :: 0 <= i < |steps| && items[k].fields[Folder] in steps[i])
  }

  /** The positions of the items that a step selects. */
  function Places(items: seq<Item>, steps: seq<set<Json>>, index: int): seq<nat> {
    if items == [] then []
    else
      Places(items[..|items| - 1], steps, index) + if Selected(items[|items| - 1], steps, index) then [|items| - 1] else []
  }

  lemma {:induction false} PlacesAre(items: seq<Item>, steps: seq<set<Json>>, index: int)
    ensures var at := Places(items, steps, index);
            && (forall j :: 0 <= j < |at| ==> at[j] < |items|)
            && (forall i, j :: 0 <= i < j < |at| ==> at[i] < at[j])
            && (forall k: nat :: k in at <==> k < |items| && Selected(items[k], steps, index))
  {
    if items != [] {
      hide Selected;
      var rest, last := items[..|items| - 1], |items| - 1;
      var before := Places(rest, steps, index);
      PlacesAre(rest, steps, index);
      forall k: nat ensures k in Places(items, steps, index) <==> k < |items| && Selected(items[k], steps, index) {
        assert k < last ==> rest[k] == items[k];
        assert k in Places(items, steps, index) <==> k in before || (k == last && Selected(items[last], steps, index));
      }
    }
  }

  lemma {:induction false} ItemsAtPlaces(items: seq<Item>, steps: seq<set<Json>>, index: int)
    ensures var at := Places(items, steps, index);
            && |ItemsForStep(items, steps, index)| == |at|
            && forall j :: 0 <= j < |at| ==> at[j] < |items| && ItemsForStep(items, steps, index)[j] == Stamped(items[at[j]], index)
  {
    if items != [] {
      hide Selected, Stamped;
      ItemsAtPlaces(items[..|items| - 1], steps, index);
    }
  }

  /** What a step gets: the items it selects, each once, in their order, marked with the step. */
  lemma StepGets(items: seq<Item>, steps: seq<set<Json>>, index: int)
    ensures var at := Places(items, steps, index);
            && |ItemsForStep(items, steps, index)| == |at|
            && (forall j :: 0 <= j < |at| ==> at[j] < |items| && ItemsForStep(items, steps, index)[j] == Stamped(items[at[j]], index))
            && (forall i, j :: 0 <= i < j < |at| ==> at[i] < at[j])
            && (forall k :: 0 <= k < |items| ==> (k in at <==> Selected(items[k], steps, index)))
  {
    hide *;
    PlacesAre(items, steps, index);
    ItemsAtPlaces(items, steps, index);
  }

  /** No item is lost or run twice: of the steps of a partition, exactly one gets the item. */
  lemma StepsCoverItems(items: seq<Item>, steps: seq<set<Json>>, k: nat) returns (step: nat)
    requires Partition(items, steps) && k < |items|
    ensures step < |steps| && k in Places(items, steps, step)
    ensures forall other :: 0 <= other < |steps| && other != step ==> k !in Places(items, steps, other)
  {
    hide ItemsForStep, Places;
    assert Folder in items[k].fields;
    step :| 0 <= step < |steps| && items[k].fields[Folder] in steps[step];
    StepGets(items, steps, step);
    forall other | 0 <= other < |steps| && other != step ensures k !in Places(items, steps, other) {
      StepGets(items, steps, other);
      assert if step < other then steps[step] !! steps[other] else steps[other] !! steps[step];
    }
  }

  /** The mark of a step survives compaction and merging, so the inner run sees the step it belongs to. */
  lemma StampsSurvive(shared: map<Field, Json>, item: Item, index: int)
    ensures CompactItem(Stamped(item, index)).Ok? ==> StepOf(CompactItem(Stamped(item, index)).value) == Num(index)
    ensures var merged := MergeItem(shared, Stamped(item, index));
            merged.Ok? ==> StepIndex in merged.value.fields && merged.value.fields[StepIndex] == Num(index)
  {
    FieldSets();
    hide CompactItem, MergeItem, SHARED, OWN, OPTIONAL;
    if CompactItem(Stamped(item, index)).Ok? {
      CompactFields(Stamped(item, index), StepIndex);
    }
    if MergeItem(shared, Stamped(item, index)).Ok? {
      MergedFields(shared, Stamped(item, index), StepIndex);
    }
  }

  // ---------------------------------------------------------------------------------------------
  // The inner state budget
  // ---------------------------------------------------------------------------------------------

  const MAX_INNER_STATE_BYTES: int := 230_000
  const MAX_PROBE_BYTES: int := 32_768
  const MIN_HEADROOM: int := 512

  /** A member of a JSON object: the bytes of its quoted key, and of its value. */
  datatype Member = Member(key: string, keyBytes: nat, valueBytes: nat)

  function MembersBytes(members: seq<Member>): nat {
    if members == [] then 0
    else MembersBytes(members[..|members| - 1]) + members[|members| - 1].keyBytes + 1 + members[|members| - 1].valueBytes
  }

  /** Braces, members with their colons, and commas in between. */
  function StateBytes(members: seq<Member>): nat { 2 + MembersBytes(members) + if members == [] then 0 else |members| - 1 }

  const PROBE := "probe"
  const PROBE_KEY_BYTES: nat := 7

  /** Write a value under a key: in place when the key is there, at the end when it is not. */
  function WriteMember(members: seq<Member>, key: string, keyBytes: nat, valueBytes: nat): seq<Member> {
    if members == [] then [Member(key, keyBytes, valueBytes)]
    else if members[0].key == key then [members[0].(valueBytes := valueBytes)] + members[1..]
    else [members[0]] + WriteMember(members[1..], key, keyBytes, valueBytes)
  }

  function ApplyProbe(members: seq<Member>, bytes: nat): seq<Member> { WriteMember(members, PROBE, PROBE_KEY_BYTES, bytes) }

  function Probes(members: seq<Member>, results: seq<nat>): seq<Member> {
    if results == [] then members else ApplyProbe(Probes(members, results[..|results| - 1]), results[|results| - 1])
  }

  function MaxAcceptedProbe(size: int): int {
    var remaining := if size < MAX_INNER_STATE_BYTES then MAX_INNER_STATE_BYTES - size else 0;
    if remaining < MAX_PROBE_BYTES then remaining else MAX_PROBE_BYTES
  }

  datatype ItemError = TooLarge | NoHeadroom

  /** The checks on an item before its inner run starts. */
  function ValidateItem(members: seq<Member>): Result<(), ItemError> {
    if StateBytes(members) > MAX_INNER_STATE_BYTES - MAX_PROBE_BYTES then Err(TooLarge)
    else if MaxAcceptedProbe(StateBytes(members)) < MIN_HEADROOM then Err(NoHeadroom)
    else Ok(())
  }

  /** The second check can never fail: an item that passes the first has all the room for a probe result. */
  lemma SecondCheckIsImplied(members: seq<Member>)
    ensures ValidateItem(members) != Err(NoHeadroom)
    ensures ValidateItem(members).Ok? <==> StateBytes(members) <= 197_232
  {}

  lemma {:induction false} BytesCons(first: Member, rest: seq<Member>)
    ensures MembersBytes([first] + rest) == first.keyBytes + 1 + first.valueBytes + MembersBytes(rest)
  {
    if rest != [] {
      var all := [first] + rest;
      assert all[..|all| - 1] == [first] + rest[..|rest| - 1];
      BytesCons(first, rest[..|rest| - 1]);
    } else {
      assert [first][..0] == [];
    }
  }

  /** The bytes of a key's value, when the key is there. */
  function ValueBytes(members: seq<Member>, key: string): nat {
    if members == [] then 0 else if members[0].key == key then members[0].valueBytes else ValueBytes(members[1..], key)
  }

  predicate HasMember(members: seq<Member>, key: string) {
    members != [] && (members[0].key == key || HasMember(members[1..], key))
  }

  /** Writing a value costs the difference to the old one, or the whole member and a comma. */
  lemma {:induction false} WriteBytes(members: seq<Member>, key: string, keyBytes: nat, bytes: nat)
    ensures var after := WriteMember(members, key, keyBytes, bytes);
            && HasMember(after, key) && ValueBytes(after, key) == bytes
            && (HasMember(members, key) ==> |after| == |members| && ValueBytes(members, key) <= MembersBytes(members))
            && (HasMember(members, key) ==> MembersBytes(after) == MembersBytes(members) - ValueBytes(members, key) + bytes)
            && (!HasMember(members, key) ==> |after| == |members| + 1 && MembersBytes(after) == MembersBytes(members) + keyBytes + 1 + bytes)
  {
    if members == [] {
      BytesCons(Member(key, keyBytes, bytes), []);
      assert [Member(key, keyBytes, bytes)] + [] == [Member(key, keyBytes, bytes)];
    } else {
      var rest := members[1..];
      assert members == [members[0]] + rest;
      BytesCons(members[0], rest);
      if members[0].key == key {
        BytesCons(members[0].(valueBytes := bytes), rest);
      } else {
        WriteBytes(rest, key, keyBytes, bytes);
        BytesCons(members[0], WriteMember(rest, key, keyBytes, bytes));
        assert ([members[0]] + WriteMember(rest, key, keyBytes, bytes))[1..] == WriteMember(rest, key, keyBytes, bytes);
      }
    }
  }

  /** After any number of probe results only the last one counts. */
  lemma {:induction false} ProbesKeepOne(members: seq<Member>, results: seq<nat>)
    ensures var after := Probes(members, results);
            results != [] ==>
              HasMember(after, PROBE) && ValueBytes(after, PROBE) == results[|results| - 1]
              && StateBytes(after) - ValueBytes(after, PROBE) == StateBytes(ApplyProbe(members, 0))
  {
    hide MembersBytes;
    if results != [] {
      var rest, last := results[..|results| - 1], results[|results| - 1];
      ProbesKeepOne(members, rest);
      WriteBytes(Probes(members, rest), PROBE, PROBE_KEY_BYTES, last);
      WriteBytes(members, PROBE, PROBE_KEY_BYTES, 0);
    }
  }

  /** A validated item stays at or below 230,009 bytes over any run of probe results within their own budget. */
  lemma InnerStateBounded(members: seq<Member>, results: seq<nat>)
    requires ValidateItem(members).Ok? && forall k :: 0 <= k < |results| ==> results[k] <= MAX_PROBE_BYTES
    ensures StateBytes(Probes(members, results)) <= 230_009
  {
    hide MembersBytes;
    if results != [] {
      ProbesKeepOne(members, results);
      WriteBytes(members, PROBE, PROBE_KEY_BYTES, 0);
    }
  }

  /** What a probe result adds: the difference to an older one, or its own key, colon and value, and a comma after others. */
  function Growth(members: seq<Member>, bytes: nat): int {
    if HasMember(members, PROBE) then bytes - ValueBytes(members, PROBE) else bytes + if members == [] then 8 else 9
  }

  /**
    When the configured 230,000 bytes are kept: the item leaves room for what the result adds. A validated item that
    already holds a probe result always does.
   */
  lemma BudgetKeptExactly(members: seq<Member>, bytes: nat)
    ensures StateBytes(ApplyProbe(members, bytes)) <= MAX_INNER_STATE_BYTES
       <==> StateBytes(members) + Growth(members, bytes) <= MAX_INNER_STATE_BYTES
    ensures ValidateItem(members).Ok? && HasMember(members, PROBE) && bytes <= MAX_PROBE_BYTES ==>
              StateBytes(ApplyProbe(members, bytes)) <= MAX_INNER_STATE_BYTES
  {
    WriteBytes(members, PROBE, PROBE_KEY_BYTES, bytes);
    EmptyBytes();
    hide MembersBytes, HasMember, ValueBytes;
  }

  lemma EmptyBytes()
    ensures MembersBytes([]) == 0 && !HasMember([], PROBE)
  {}

  /** An item at the limit of validation exceeds that budget by nine bytes with the largest probe result. */
  lemma BudgetExceeded()
    ensures var members := [Member("item", 6, 197_223)];
            ValidateItem(members).Ok? && StateBytes(ApplyProbe(members, 32_768)) == 230_009 > MAX_INNER_STATE_BYTES
  {
    var members := [Member("item", 6, 197_223)];
    assert members[..0] == [] && members[1..] == [];
    assert "item" != PROBE;
    WriteBytes(members, PROBE, PROBE_KEY_BYTES, 32_768);
  }
}
