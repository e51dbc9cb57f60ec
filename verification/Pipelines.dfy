/** Pipeline definitions: strict parsing, and the flat list of checkpoints that mutation works through. */
module Pipelines {
  import opened Wrappers
  import opened Text

  const MAX_PIPELINE_FOLDERS: nat := 20

  /** A parsed YAML document; a mapping key that is not a string has no name. */
  datatype Yaml = Empty | Str(text: string) | Scalar | List(items: seq<Yaml>) | Mapping(entries: seq<Entry>)
  datatype Entry = Entry(name: Option<string>, value: Yaml)

  datatype PipelineError =
    | NotMapping | NestedPipeline | NonStringKey | UnknownKey | NoSteps | StepNotMapping | StepShape
    | ParallelNotList | ParallelTooShort | ParallelEntryNotMapping | ParallelEntryWithoutFolder
    | FolderEmpty | FolderInvalid | DuplicateFolder | TooManyFolders

  datatype Step = Step(folders: seq<string>)
  datatype Pipeline = Pipeline(name: string, steps: seq<Step>)

  // ---------------------------------------------------------------------------------------------
  // Folder values
  // ---------------------------------------------------------------------------------------------

  /** The parts of a pure POSIX path: empty segments and single dots disappear. */
  function PathParts(parts: seq<string>): (kept: seq<string>)
    ensures forall p :: p in kept ==> p != "" && p != "." && p in parts
    ensures ".." in parts ==> ".." in kept
  {
    if parts == [] then []
    else (if parts[0] == "" || parts[0] == "." then [] else [parts[0]]) + PathParts(parts[1..])
  }

  function PosixText(parts: seq<string>): string { if parts == [] then "." else Join(parts, '/') }

  function FolderValue(value: Yaml): Result<string, PipelineError> {
    if !value.Str? || Strip(value.text) == "" then Err(FolderEmpty)
    else
      var folder := Strip(value.text);
      if '\\' in folder || HasPrefix(folder, "/") then Err(FolderInvalid)
      else
        var parts := PathParts(Split(folder, '/'));
        if ".." in parts then Err(FolderInvalid) else Ok(PosixText(parts))
  }

  /** A folder in normal form: relative, without empty, dot or dot-dot segments (or the root itself). */
  predicate NormalFolder(folder: string) {
    folder == "." || (forall p :: p in Split(folder, '/') ==> p != "" && p != "." && p != "..")
  }

  lemma FolderValueNormal(value: Yaml)
    requires FolderValue(value).Ok?
    ensures NormalFolder(FolderValue(value).value)
  {
    var split := Split(Strip(value.text), '/');
    var parts := PathParts(split);
    if parts != [] {
      assert forall p :: p in parts ==> '/' !in p;
      SplitJoin(parts, '/');
    }
  }

  // ---------------------------------------------------------------------------------------------
  // Parsing
  // ---------------------------------------------------------------------------------------------

  /** Somewhere in the document a mapping has the key that would name another pipeline. */
  predicate MentionsPipeline(doc: Yaml) {
    match doc
    case List(items) => exists k :: 0 <= k < |items| && MentionsPipeline(items[k])
    case Mapping(entries) =>
      exists k :: 0 <= k < |entries| && (entries[k].name == Some("pipeline") || MentionsPipeline(entries[k].value))
    case _ => false
  }

  function KeyError(entries: seq<Entry>, allowed: set<string>): Option<PipelineError> {
    if exists k :: 0 <= k < |entries| && entries[k].name.None? then Some(NonStringKey)
    else if exists k :: 0 <= k < |entries| && entries[k].name.Some? && entries[k].name.value !in allowed then Some(UnknownKey)
    else None
  }

  function Lookup(entries: seq<Entry>, name: string): Option<Yaml> {
    if entries == [] then None
    else if entries[0].name == Some(name) then Some(entries[0].value)
    else Lookup(entries[1..], name)
  }

  function ParseParallel(items: seq<Yaml>): Result<seq<string>, PipelineError> {
    if items == [] then Ok([])
    else if !items[0].Mapping? then Err(ParallelEntryNotMapping)
    else if KeyError(items[0].entries, {"folder"}).Some? then Err(KeyError(items[0].entries, {"folder"}).value)
    else
      match Lookup(items[0].entries, "folder")
      case None => Err(ParallelEntryWithoutFolder)
      case Some(value) =>
        match FolderValue(value)
        case Err(e) => Err(e)
        case Ok(folder) =>
          var rest := ParseParallel(items[1..]);
          if rest.Err? then rest else Ok([folder] + rest.value)
  }

  function ParseStep(raw: Yaml): Result<seq<string>, PipelineError> {
    if !raw.Mapping? then Err(StepNotMapping)
    else if KeyError(raw.entries, {"folder", "parallel"}).Some? then Err(KeyError(raw.entries, {"folder", "parallel"}).value)
    else
      match (Lookup(raw.entries, "folder"), Lookup(raw.entries, "parallel"))
      case (Some(_), Some(_)) => Err(StepShape)
      case (None, None) => Err(StepShape)
      case (Some(value), None) =>
        var folder := FolderValue(value);
        if folder.Err? then Err(folder.error) else Ok([folder.value])
      case (None, Some(List(items))) => if |items| < 2 then Err(ParallelTooShort) else ParseParallel(items)
      case (None, Some(_)) => Err(ParallelNotList)
  }

  function Flatten(steps: seq<Step>): seq<string> { if steps == [] then [] else steps[0].folders + Flatten(steps[1..]) }

  predicate NoDuplicates(folders: seq<string>) { forall i, j :: 0 <= i < j < |folders| ==> folders[i] != folders[j] }

  /** The steps, each parsed by itself. */
  function ParseEach(raw: seq<Yaml>): Result<seq<Step>, PipelineError> {
    if raw == [] then Ok([])
    else
      match ParseStep(raw[0])
      case Err(e) => Err(e)
      case Ok(folders) =>
        var rest := ParseEach(raw[1..]);
        if rest.Err? then rest else Ok([Step(folders)] + rest.value)
  }

  function FolderSet(folders: seq<string>): set<string> { set f | f in folders }

  /** Add a step's folders to those seen, unless one of them was seen before. */
  method AddFolders(seen: set<string>, ghost before: seq<string>, folders: seq<string>) returns (more: set<string>, duplicate: bool)
    requires NoDuplicates(before) && seen == FolderSet(before)
    ensures duplicate <==> !NoDuplicates(before + folders)
    ensures !duplicate ==> more == FolderSet(before + folders)
  {
    more := seen;
    var j := 0;
    assert before + folders[..0] == before;
    while j < |folders|
      invariant 0 <= j <= |folders|
      invariant NoDuplicates(before + folders[..j]) && more == FolderSet(before + folders[..j])
    {
      assert before + folders[..j + 1] == before + folders[..j] + [folders[j]];
      if folders[j] in more {
        SeenTwice(before + folders[..j], folders[j]);
        DuplicateStays(before + folders[..j + 1], before + folders);
        return more, true;
      }
      more := more + {folders[j]};
      j := j + 1;
    }
    assert folders[..j] == folders;
    duplicate := false;
  }

  /** Parse a definition: one pass that also refuses a folder seen before and a running total over the limit. */
  method ParsePipeline(doc: Yaml, name: string) returns (r: Result<Pipeline, PipelineError>)
    ensures r.Ok? <==> WellFormed(doc)
    ensures r.Ok? ==> r.value == Pipeline(name, ParseEach(StepsOf(doc)).value)
  {
    hide MentionsPipeline, KeyError, ParseStep, ParseEach, Progress, NoDuplicates, Flatten, FolderSet;
    if !doc.Mapping? {
      return Err(NotMapping);
    }
    if MentionsPipeline(doc) {
      return Err(NestedPipeline);
    }
    var keys := KeyError(doc.entries, {"steps"});
    if keys.Some? {
      return Err(keys.value);
    }
    var raw := Lookup(doc.entries, "steps");
    if raw.None? || !raw.value.List? || raw.value.items == [] {
      return Err(NoSteps);
    }
    r := ParseSteps(raw.value.items, name);
  }

  /** The loop over the steps. */
  method ParseSteps(items: seq<Yaml>, name: string) returns (r: Result<Pipeline, PipelineError>)
    ensures r.Ok? <==> ParseEach(items).Ok? && var folders := Flatten(ParseEach(items).value);
                                               NoDuplicates(folders) && |folders| <= MAX_PIPELINE_FOLDERS
    ensures r.Ok? ==> r.value == Pipeline(name, ParseEach(items).value)
  {
    hide *;
    var steps: seq<Step> := [];
    var seen: set<string> := {};
    var total := 0;
    var i := 0;
    ProgressNone(items);
    while i < |items|
      invariant 0 <= i <= |items|
      invariant Progress(items, i, steps)
      invariant NoDuplicates(Flatten(steps)) && total == |Flatten(steps)| <= MAX_PIPELINE_FOLDERS
      invariant seen == FolderSet(Flatten(steps))
    {
      var folders := ParseStep(items[i]);
      ProgressStep(items, i, steps);
      if folders.Err? {
        return Err(folders.error);
      }
      FlattenSnoc(steps, folders.value);
      var next := steps + [Step(folders.value)];
      ProgressFlattens(items, i + 1, next);
      var duplicate;
      seen, duplicate := AddFolders(seen, Flatten(steps), folders.value);
      if duplicate {
        if ParseEach(items).Ok? {
          DuplicateStays(Flatten(next), Flatten(ParseEach(items).value));
        }
        return Err(DuplicateFolder);
      }
      total := total + |folders.value|;
      if total > MAX_PIPELINE_FOLDERS {
        return Err(TooManyFolders);
      }
      steps := next;
      i := i + 1;
    }
    ProgressDone(items, steps);
    r := Ok(Pipeline(name, steps));
  }

  lemma ProgressNone(items: seq<Yaml>)
    ensures Progress(items, 0, []) && Flatten([]) == [] && NoDuplicates([]) && FolderSet([]) == {}
  {
    hide ParseEach;
    assert items[0..] == items;
    assert ParseEach(items).Ok? ==> [] + ParseEach(items).value == ParseEach(items).value;
  }

  function StepsOf(doc: Yaml): seq<Yaml> {
    if !doc.Mapping? then []
    else
      match Lookup(doc.entries, "steps")
      case Some(List(items)) => items
      case _ => []
  }

  /** What is accepted: only steps, each well formed, and among all their folders no duplicate and at most twenty. */
  predicate WellFormed(doc: Yaml) {
    && doc.Mapping? && !MentionsPipeline(doc) && KeyError(doc.entries, {"steps"}).None?
    && StepsOf(doc) != [] && ParseEach(StepsOf(doc)).Ok?
    && var folders := Flatten(ParseEach(StepsOf(doc)).value);
       NoDuplicates(folders) && |folders| <= MAX_PIPELINE_FOLDERS
  }

  /** The first i items have been parsed into these steps. */
  predicate Progress(items: seq<Yaml>, i: nat, steps: seq<Step>)
    requires i <= |items|
  {
    var rest := ParseEach(items[i..]);
    ParseEach(items) == if rest.Err? then rest else Ok(steps + rest.value)
  }

  lemma ProgressStep(items: seq<Yaml>, i: nat, steps: seq<Step>)
    requires i < |items| && Progress(items, i, steps)
    ensures ParseStep(items[i]).Err? ==> ParseEach(items).Err?
    ensures ParseStep(items[i]).Ok? ==> Progress(items, i + 1, steps + [Step(ParseStep(items[i]).value)])
  {
    hide ParseStep;
    assert items[i..][1..] == items[i + 1..];
    if ParseStep(items[i]).Ok? && ParseEach(items[i + 1..]).Ok? {
      var one, rest := [Step(ParseStep(items[i]).value)], ParseEach(items[i + 1..]).value;
      assert steps + (one + rest) == steps + one + rest;
    }
  }

  lemma ProgressDone(items: seq<Yaml>, steps: seq<Step>)
    requires Progress(items, |items|, steps)
    ensures ParseEach(items) == Ok(steps)
  {
    assert items[|items|..] == [] && steps + [] == steps;
  }

  lemma {:induction false} FlattenConcat(a: seq<Step>, b: seq<Step>)
    ensures Flatten(a + b) == Flatten(a) + Flatten(b)
  {
    if a == [] {
      assert a + b == b;
    } else {
      assert (a + b)[1..] == a[1..] + b;
      FlattenConcat(a[1..], b);
    }
  }

  lemma FlattenSnoc(steps: seq<Step>, folders: seq<string>)
    ensures Flatten(steps + [Step(folders)]) == Flatten(steps) + folders
  {
    FlattenConcat(steps, [Step(folders)]);
    assert [Step(folders)][1..] == [];
    assert Flatten([Step(folders)]) == folders + Flatten([Step(folders)][1..]) == folders;
  }

  /** Whatever comes later, the folders parsed so far come first among all folders. */
  lemma ProgressFlattens(items: seq<Yaml>, i: nat, steps: seq<Step>)
    requires i <= |items| && Progress(items, i, steps)
    ensures ParseEach(items).Ok? ==> Flatten(steps) <= Flatten(ParseEach(items).value)
  {
    if ParseEach(items).Ok? {
      FlattenConcat(steps, ParseEach(items[i..]).value);
    }
  }

  lemma DuplicateStays(part: seq<string>, all: seq<string>)
    requires part <= all && !NoDuplicates(part)
    ensures !NoDuplicates(all)
  {
    var i, j :| 0 <= i < j < |part| && part[i] == part[j];
    assert all[i] == all[j];
  }

  lemma SeenTwice(folders: seq<string>, folder: string)
    requires folder in folders
    ensures !NoDuplicates(folders + [folder])
  {
    var k :| 0 <= k < |folders| && folders[k] == folder;
    var more := folders + [folder];
    assert more[k] == more[|folders|];
  }

  // ---------------------------------------------------------------------------------------------
  // Checkpoints
  // ---------------------------------------------------------------------------------------------

  function Reversed(s: seq<string>): (r: seq<string>)
    ensures |r| == |s| && forall k :: 0 <= k < |s| ==> r[k] == s[|s| - 1 - k]
  {
    if s == [] then [] else [s[|s| - 1]] + Reversed(s[..|s| - 1])
  }

  /** The order mutation follows: the folders in order of definition, or from the last to the first. */
  function Order(pipeline: Pipeline, reverse: bool): seq<string> {
    if reverse then Reversed(Flatten(pipeline.steps)) else Flatten(pipeline.steps)
  }

  function Checkpoints(pipeline: Pipeline): nat { |Order(pipeline, false)| }

  function FolderAt(pipeline: Pipeline, index: int, reverse: bool): Option<string> {
    var folders := Order(pipeline, reverse);
    if index < 1 || index > |folders| then None else Some(folders[index - 1])
  }

  /** The folders whose gates are checked before the intent for a checkpoint is created. */
  function GateFolders(pipeline: Pipeline, index: int, reverse: bool): Option<seq<string>> {
    var all := Flatten(pipeline.steps);
    var folders := if reverse then Reversed(all) else all;
    if index < 1 then None
    else if index == 1 then Some(folders)
    else Some(if index - 1 <= |folders| then folders[index - 1..] else [])
  }

  /** The definition the parser promises. */
  ghost predicate Parsed(pipeline: Pipeline) {
    exists doc :: WellFormed(doc) && pipeline.steps == ParseEach(StepsOf(doc)).value
  }

  lemma {:induction false} StepsNotEmpty(raw: seq<Yaml>)
    requires ParseEach(raw).Ok?
    ensures |ParseEach(raw).value| == |raw|
    ensures forall k :: 0 <= k < |raw| ==> ParseEach(raw).value[k].folders != []
    ensures forall k, f :: 0 <= k < |raw| && f in ParseEach(raw).value[k].folders ==> NormalFolder(f)
  {
    hide ParseStep, NormalFolder;
    if raw != [] {
      StepsNotEmpty(raw[1..]);
      StepFolders(raw[0]);
    }
  }

  lemma StepFolders(raw: Yaml)
    requires ParseStep(raw).Ok?
    ensures ParseStep(raw).value != [] && forall f :: f in ParseStep(raw).value ==> NormalFolder(f)
  {
    hide NormalFolder, FolderValue;
    var folder, parallel := Lookup(raw.entries, "folder"), Lookup(raw.entries, "parallel");
    if folder.Some? {
      FolderValueNormal(folder.value);
    } else {
      ParallelFolders(parallel.value.items);
    }
  }

  lemma {:induction false} ParallelFolders(items: seq<Yaml>)
    requires ParseParallel(items).Ok?
    ensures |ParseParallel(items).value| == |items| && forall f :: f in ParseParallel(items).value ==> NormalFolder(f)
  {
    hide NormalFolder, FolderValue;
    if items != [] {
      FolderValueNormal(Lookup(items[0].entries, "folder").value);
      ParallelFolders(items[1..]);
    }
  }

  lemma {:induction false} FlattenMembers(steps: seq<Step>, k: nat)
    requires k < |steps|
    ensures |Flatten(steps)| >= |steps[k].folders|
    ensures forall f :: f in steps[k].folders ==> f in Flatten(steps)
  {
    if k > 0 {
      FlattenMembers(steps[1..], k - 1);
    }
  }

  lemma {:induction false} FlattenAll(steps: seq<Step>, f: string)
    requires f in Flatten(steps)
    ensures exists k :: 0 <= k < |steps| && f in steps[k].folders
  {
    if f !in steps[0].folders {
      FlattenAll(steps[1..], f);
      var k :| 0 <= k < |steps[1..]| && f in steps[1..][k].folders;
      assert f in steps[k + 1].folders;
    }
  }

  /** Every parsed pipeline has between one and twenty checkpoints, all on different folders in normal form. */
  lemma ParsedPipeline(pipeline: Pipeline)
    requires Parsed(pipeline)
    ensures 1 <= Checkpoints(pipeline) <= MAX_PIPELINE_FOLDERS
    ensures NoDuplicates(Flatten(pipeline.steps)) && forall f :: f in Flatten(pipeline.steps) ==> NormalFolder(f)
  {
    hide ParseEach, NormalFolder, MentionsPipeline, KeyError;
    var doc :| WellFormed(doc) && pipeline.steps == ParseEach(StepsOf(doc)).value;
    StepsNotEmpty(StepsOf(doc));
    FlattenMembers(pipeline.steps, 0);
    forall f | f in Flatten(pipeline.steps) ensures NormalFolder(f) {
      FlattenAll(pipeline.steps, f);
    }
  }

  /** Destroy visits the checkpoints in exactly the opposite order of apply. */
  lemma DestroyOrderMirrors(pipeline: Pipeline, index: int)
    ensures FolderAt(pipeline, index, true) == FolderAt(pipeline, Checkpoints(pipeline) + 1 - index, false)
    ensures FolderAt(pipeline, index, false).Some? <==> 1 <= index <= Checkpoints(pipeline)
  {}

  /** Each folder belongs to exactly one checkpoint, in both directions. */
  lemma OneCheckpointPerFolder(pipeline: Pipeline, i: int, j: int, reverse: bool)
    requires NoDuplicates(Flatten(pipeline.steps)) && FolderAt(pipeline, i, reverse).Some?
    ensures FolderAt(pipeline, i, reverse) == FolderAt(pipeline, j, reverse) <==> i == j
  {
    var all, n := Flatten(pipeline.steps), Checkpoints(pipeline);
    if FolderAt(pipeline, i, reverse) == FolderAt(pipeline, j, reverse) {
      var a, b := if reverse then n - i else i - 1, if reverse then n - j else j - 1;
      assert all[a] == all[b];
    }
  }

  /** The gate covers exactly the checkpoints still to come, in their order. */
  lemma GateCoversTheRest(pipeline: Pipeline, index: int, reverse: bool)
    requires 1 <= index <= Checkpoints(pipeline)
    ensures GateFolders(pipeline, index, reverse).Some?
    ensures var gate := GateFolders(pipeline, index, reverse).value;
            && |gate| == Checkpoints(pipeline) - index + 1
            && forall k :: 0 <= k < |gate| ==> FolderAt(pipeline, index + k, reverse) == Some(gate[k])
  {}
}
