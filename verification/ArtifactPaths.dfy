/** Object keys of run artifacts, of pull request artifacts, and of pointers, and why no two of them coincide. */
module ArtifactPaths {
  import opened Wrappers
  import opened Text
  import opened OuterIds

  const PREFIX := "openci-tf"
  const EXECUTIONS := "executions"
  const TF := "tf"
  const ENV := ".env"
  const REPORT_ALL_FILE := "report-all.env"

  datatype PathError = BadRepo | BadRun | BadFolder | BadPr

  // ---------------------------------------------------------------------------------------------
  // Segments
  // ---------------------------------------------------------------------------------------------

  predicate ControlChar(c: char) { c <= '\U{1F}' || c == '\U{7F}' }

  /** A literal path: no leading slash, backslash, control character, blank segment or parent segment. */
  predicate Literal(value: string) {
    && value != "" && value[0] != '/' && '\\' !in value
    && (forall k :: 0 <= k < |value| ==> !ControlChar(value[k]))
    && (forall p :: p in Split(value, '/') ==> Strip(p) != "" && p != "..")
  }

  /** Characters of a run id; letters beyond ASCII are all admitted here. */
  predicate RunChar(c: char) { PointerChar(c) || c >= '\U{80}' }

  function ValidateRun(id: string): Result<string, PathError> {
    var t := Strip(id);
    if t == "" || !(2 <= |t| <= 64) || exists k :: 0 <= k < |t| && !RunChar(t[k]) then Err(BadRun) else Ok(t)
  }

  datatype PointerType = Plan | Report | ReportAll | Apply | Destroy

  function TypeName(t: PointerType): string {
    match t
    case Plan => "plan"
    case Report => "report"
    case ReportAll => "report-all"
    case Apply => "apply"
    case Destroy => "destroy"
  }

  datatype Artifact =
    | InitOut | ValidateOut | PlanOut | DriftJson | TfsecJson | TfsecOutput | InfracostJson | InfracostOutput | ManifestJson
    | PlanFile | PlanHash | PlanMetadata | DestroyPlanOut | DestroyPlanFile | DestroyPlanHash | DestroyPlanMetadata

  /** The last segment of an artifact's name. */
  function FileName(a: Artifact): string {
    match a
    case InitOut => "init.out"
    case ValidateOut => "validate.out"
    case PlanOut => "plan.out"
    case DriftJson => "drift.json"
    case TfsecJson => "tfsec.json"
    case TfsecOutput => "tfsec.output"
    case InfracostJson => "infracost.json"
    case InfracostOutput => "infracost.output"
    case ManifestJson => "manifest.json"
    case PlanFile => "plan.tfplan"
    case PlanHash => "plan.tfplan.sha256"
    case PlanMetadata => "plan-metadata.json"
    case DestroyPlanOut => "destroy.plan.out"
    case DestroyPlanFile => "destroy.plan.tfplan"
    case DestroyPlanHash => "destroy.plan.tfplan.sha256"
    case DestroyPlanMetadata => "destroy-plan-metadata.json"
  }

  /** Some artifacts lie one level deeper. */
  predicate InTf(a: Artifact) {
    a.PlanOut? || a.PlanFile? || a.PlanHash? || a.PlanMetadata? || a.DestroyPlanFile? || a.DestroyPlanHash? || a.DestroyPlanMetadata?
  }

  function NameOf(a: Artifact): string { if InTf(a) then Slash(TF, FileName(a)) else FileName(a) }

  // ---------------------------------------------------------------------------------------------
  // Keys
  // ---------------------------------------------------------------------------------------------

  function Slash(a: string, b: string): string { a + "/" + b }

  function RunKey(repo: string, run: string, folder: string, a: Artifact): Result<string, PathError> {
    if !Literal(repo) then Err(BadRepo)
    else
      match ValidateRun(run)
      case Err(e) => Err(e)
      case Ok(r) =>
        if !Literal(folder) then Err(BadFolder) else Ok(Slash(PREFIX, Slash(repo, Slash(r, Slash(folder, NameOf(a))))))
  }

  function PrSegment(pr: nat): string { "pr-" + Decimal(pr) }

  function ExecutionKey(repo: string, pr: nat, execution: string, t: PointerType, folder: string, a: Artifact): Result<string, PathError> {
    if !Literal(repo) then Err(BadRepo)
    else if pr < 1 then Err(BadPr)
    else if Validate(execution).Err? then Err(BadRun)
    else if !Literal(folder) then Err(BadFolder)
    else
      var inner := Slash(Validate(execution).value, Slash(TypeName(t), Slash(folder, NameOf(a))));
      Ok(Slash(PREFIX, Slash(repo, Slash(PrSegment(pr), Slash(EXECUTIONS, inner)))))
  }

  function PointerKey(repo: string, pr: nat, folder: string, t: PointerType): Result<string, PathError> {
    if !Literal(repo) then Err(BadRepo)
    else if pr < 1 then Err(BadPr)
    else if !Literal(folder) then Err(BadFolder)
    else Ok(Slash(PREFIX, Slash(repo, Slash(PrSegment(pr), Slash(folder, TypeName(t) + ENV)))))
  }

  function ReportAllKey(repo: string, pr: nat): Result<string, PathError> {
    if !Literal(repo) then Err(BadRepo) else if pr < 1 then Err(BadPr)
    else Ok(Slash(PREFIX, Slash(repo, Slash(PrSegment(pr), REPORT_ALL_FILE))))
  }

  // ---------------------------------------------------------------------------------------------
  // Keys as segments
  // ---------------------------------------------------------------------------------------------

  lemma {:induction false} SplitConcat(a: string, b: string)
    ensures Split(Slash(a, b), '/') == Split(a, '/') + Split(b, '/')
    decreases |a|
  {
    hide Split;
    var n := IndexOf(a, '/');
    if n == |a| {
      assert '/' !in a;
      SplitPlain(a);
      SplitFirst(a, b, '/');
      assert a + ['/'] + b == Slash(a, b);
    } else {
      var head, rest := a[..n], a[n + 1..];
      assert a == head + ['/'] + rest;
      assert Slash(a, b) == head + ['/'] + Slash(rest, b);
      assert '/' !in head;
      hide IndexOf;
      SplitFirst(head, Slash(rest, b), '/');
      SplitFirst(head, rest, '/');
      SplitConcat(rest, b);
    }
  }

  lemma SplitPlain(s: string)
    requires '/' !in s
    ensures Split(s, '/') == [s]
  {
    assert IndexOf(s, '/') == |s|;
  }

  lemma SplitDetermines(a: string, b: string)
    requires Split(a, '/') == Split(b, '/')
    ensures a == b
  {
    hide Split, Join;
    JoinSplit(a, '/');
    JoinSplit(b, '/');
  }

  lemma PlainConstants()
    ensures '/' !in PREFIX && '/' !in EXECUTIONS && '/' !in TF && '/' !in REPORT_ALL_FILE
  {}

  lemma PlainFile(a: Artifact)
    ensures '/' !in FileName(a)
  {
    match a
    case InitOut => case ValidateOut => case PlanOut => case DriftJson =>
    case TfsecJson => case TfsecOutput => case InfracostJson => case InfracostOutput =>
    case ManifestJson => case PlanFile => case PlanHash => case PlanMetadata =>
    case DestroyPlanOut => case DestroyPlanFile => case DestroyPlanHash => case DestroyPlanMetadata =>
  }

  lemma PlainType(t: PointerType)
    ensures '/' !in TypeName(t) && '/' !in TypeName(t) + ENV
  {}

  lemma PlainPr(pr: nat)
    ensures '/' !in PrSegment(pr)
  {
    assert forall k :: 0 <= k < |Decimal(pr)| ==> Digit(Decimal(pr)[k]);
  }

  lemma RunPlain(run: string)
    requires ValidateRun(run).Ok?
    ensures '/' !in ValidateRun(run).value
  {}

  lemma ExecutionPlain(execution: string)
    requires Validate(execution).Ok?
    ensures '/' !in Validate(execution).value
  {
    ValidChars(execution);
  }

  function NameSegments(a: Artifact): seq<string> { (if InTf(a) then [TF] else []) + [FileName(a)] }

  lemma NameSplits(a: Artifact)
    ensures Split(NameOf(a), '/') == NameSegments(a)
  {
    hide Split, FileName, TF, Slash, InTf;
    PlainFile(a);
    PlainConstants();
    SplitPlain(FileName(a));
    SplitPlain(TF);
    SplitConcat(TF, FileName(a));
    assert [] + [FileName(a)] == [FileName(a)];
  }

  /** One plain segment in front. */
  lemma SplitSlash(first: string, rest: string)
    requires '/' !in first
    ensures Split(Slash(first, rest), '/') == [first] + Split(rest, '/')
  {
    hide *;
    SplitPlain(first);
    SplitConcat(first, rest);
  }

  function RunSegments(repo: string, run: string, folder: string, a: Artifact): seq<string> {
    [PREFIX] + (Split(repo, '/') + ([run] + (Split(folder, '/') + NameSegments(a))))
  }

  lemma RunKeySplits(repo: string, run: string, folder: string, a: Artifact)
    requires RunKey(repo, run, folder, a).Ok?
    ensures Split(RunKey(repo, run, folder, a).value, '/') == RunSegments(repo, ValidateRun(run).value, folder, a)
  {
    hide Split, Literal, ValidateRun, PREFIX, NameOf, NameSegments, Slash;
    var r := ValidateRun(run).value;
    RunPlain(run);
    PlainConstants();
    SplitSlash(PREFIX, Slash(repo, Slash(r, Slash(folder, NameOf(a)))));
    SplitConcat(repo, Slash(r, Slash(folder, NameOf(a))));
    SplitSlash(r, Slash(folder, NameOf(a)));
    SplitConcat(folder, NameOf(a));
    NameSplits(a);
  }

  function ExecutionSegments(repo: string, pr: nat, run: string, t: PointerType, folder: string, a: Artifact): seq<string> {
    [PREFIX] + (Split(repo, '/') + ([PrSegment(pr)] + ([EXECUTIONS] + ([run] + ([TypeName(t)] + (Split(folder, '/') + NameSegments(a)))))))
  }

  lemma ExecutionKeySplits(repo: string, pr: nat, execution: string, t: PointerType, folder: string, a: Artifact)
    requires ExecutionKey(repo, pr, execution, t, folder, a).Ok?
    ensures Split(ExecutionKey(repo, pr, execution, t, folder, a).value, '/')
         == ExecutionSegments(repo, pr, Validate(execution).value, t, folder, a)
  {
    hide Split, Literal, Validate, PREFIX, EXECUTIONS, NameOf, NameSegments, PrSegment, TypeName, Slash;
    var r, p, n := Validate(execution).value, PrSegment(pr), TypeName(t);
    ExecutionPlain(execution);
    PlainConstants();
    PlainPr(pr);
    PlainType(t);
    var k1 := Slash(folder, NameOf(a));
    var k2 := Slash(n, k1);
    var k3 := Slash(r, k2);
    var k4 := Slash(EXECUTIONS, k3);
    var k5 := Slash(p, k4);
    SplitSlash(PREFIX, Slash(repo, k5));
    SplitConcat(repo, k5);
    SplitSlash(p, k4);
    SplitSlash(EXECUTIONS, k3);
    SplitSlash(r, k2);
    SplitSlash(n, k1);
    SplitConcat(folder, NameOf(a));
    NameSplits(a);
  }

  function PointerSegments(repo: string, pr: nat, folder: string, t: PointerType): seq<string> {
    [PREFIX] + (Split(repo, '/') + ([PrSegment(pr)] + (Split(folder, '/') + [TypeName(t) + ENV])))
  }

  lemma PointerKeySplits(repo: string, pr: nat, folder: string, t: PointerType)
    requires PointerKey(repo, pr, folder, t).Ok?
    ensures Split(PointerKey(repo, pr, folder, t).value, '/') == PointerSegments(repo, pr, folder, t)
  {
    hide Split, Literal, PREFIX, ENV, PrSegment, TypeName, Slash;
    var p, n := PrSegment(pr), TypeName(t) + ENV;
    PlainConstants();
    PlainPr(pr);
    PlainType(t);
    SplitSlash(PREFIX, Slash(repo, Slash(p, Slash(folder, n))));
    SplitConcat(repo, Slash(p, Slash(folder, n)));
    SplitSlash(p, Slash(folder, n));
    SplitConcat(folder, n);
    SplitPlain(n);
  }

  function ReportAllSegments(repo: string, pr: nat): seq<string> {
    [PREFIX] + (Split(repo, '/') + ([PrSegment(pr)] + [REPORT_ALL_FILE]))
  }

  lemma ReportAllKeySplits(repo: string, pr: nat)
    requires ReportAllKey(repo, pr).Ok?
    ensures Split(ReportAllKey(repo, pr).value, '/') == ReportAllSegments(repo, pr)
  {
    hide Split, Literal, PREFIX, REPORT_ALL_FILE, PrSegment, Slash;
    var p := PrSegment(pr);
    PlainConstants();
    PlainPr(pr);
    SplitSlash(PREFIX, Slash(repo, Slash(p, REPORT_ALL_FILE)));
    SplitConcat(repo, Slash(p, REPORT_ALL_FILE));
    SplitSlash(p, REPORT_ALL_FILE);
    SplitPlain(REPORT_ALL_FILE);
  }

  // ---------------------------------------------------------------------------------------------
  // Names
  // ---------------------------------------------------------------------------------------------

  /** Enough of a file name to tell any two of them apart. */
  function Signature(s: string): (nat, char, char, char)
    requires |s| >= 8
  {
    (|s|, s[0], s[4], s[7])
  }

  lemma Signatures(a: Artifact)
    ensures |FileName(a)| >= 8
    ensures Signature(FileName(a)) ==
      match a
      case InitOut => (8, 'i', '.', 't')
      case ValidateOut => (12, 'v', 'd', 'e')
      case PlanOut => (8, 'p', '.', 't')
      case DriftJson => (10, 'd', 't', 's')
      case TfsecJson => (10, 't', 'c', 's')
      case TfsecOutput => (12, 't', 'c', 'u')
      case InfracostJson => (14, 'i', 'a', 's')
      case InfracostOutput => (16, 'i', 'a', 's')
      case ManifestJson => (13, 'm', 'f', 't')
      case PlanFile => (11, 'p', '.', 'p')
      case PlanHash => (18, 'p', '.', 'p')
      case PlanMetadata => (18, 'p', '-', 't')
      case DestroyPlanOut => (16, 'd', 'r', '.')
      case DestroyPlanFile => (19, 'd', 'r', '.')
      case DestroyPlanHash => (26, 'd', 'r', '.')
      case DestroyPlanMetadata => (26, 'd', 'r', '-')
  {}

  /** The last segment alone determines the artifact, so the level it lies on as well. */
  lemma FileNameInjective(a: Artifact, b: Artifact)
    requires FileName(a) == FileName(b)
    ensures a == b
  {
    hide FileName;
    Signatures(a);
    Signatures(b);
  }

  lemma TypeNameInjective(t: PointerType, u: PointerType)
    requires TypeName(t) + ENV == TypeName(u) + ENV || TypeName(t) == TypeName(u)
    ensures t == u
  {
    var a, b := TypeName(t), TypeName(u);
    assert (a + ENV)[..|a|] == a && (b + ENV)[..|b|] == b;
    assert |a + ENV| == |a| + 4 && |b + ENV| == |b| + 4;
    assert a == b;
    assert a[0] == b[0];
  }

  lemma EnvIsNoArtifact(a: Artifact, t: PointerType)
    ensures FileName(a) != TypeName(t) + ENV && FileName(a) != REPORT_ALL_FILE
  {
    Signatures(a);
    EnvSignature(t);
    hide FileName, TypeName, ENV, REPORT_ALL_FILE;
  }

  lemma EnvSignature(t: PointerType)
    ensures var s := TypeName(t) + ENV;
            |s| >= 8 && Signature(s) ==
              match t
              case Plan => (8, 'p', '.', 'v')
              case Report => (10, 'r', 'r', 'e')
              case ReportAll => (14, 'r', 'r', 'a')
              case Apply => (9, 'a', 'y', 'n')
              case Destroy => (11, 'd', 'r', '.')
    ensures |REPORT_ALL_FILE| >= 8 && Signature(REPORT_ALL_FILE) == (14, 'r', 'r', 'a')
  {}

  // ---------------------------------------------------------------------------------------------
  // No two keys coincide
  // ---------------------------------------------------------------------------------------------

  /** A repository name of an owner and a name. */
  predicate TwoSegments(repo: string) { |Split(repo, '/')| == 2 }

  lemma HeadTail(a: seq<string>, b: seq<string>, c: seq<string>, d: seq<string>)
    requires a + b == c + d && |a| == |c|
    ensures a == c && b == d
  {
    assert (a + b)[..|a|] == a && (c + d)[..|c|] == c;
    assert (a + b)[|a|..] == b && (c + d)[|c|..] == d;
  }

  lemma SegmentsApart(x: string, a: seq<string>, y: string, b: seq<string>)
    requires [x] + a == [y] + b
    ensures x == y && a == b
  {
    HeadTail([x], a, [y], b);
  }

  /** Folder and artifact are told apart from each other by the last segment, nested folders or not. */
  lemma FolderAndName(folder: string, a: Artifact, other: string, b: Artifact)
    requires Split(folder, '/') + NameSegments(a) == Split(other, '/') + NameSegments(b)
    ensures folder == other && a == b
  {
    hide Split, FileName, InTf, TF;
    var x, y := Split(folder, '/') + NameSegments(a), Split(other, '/') + NameSegments(b);
    assert x[|x| - 1] == FileName(a) && y[|y| - 1] == FileName(b);
    FileNameInjective(a, b);
    HeadTail(Split(folder, '/'), NameSegments(a), Split(other, '/'), NameSegments(b));
    SplitDetermines(folder, other);
  }

  /** Run artifacts: repository, run, folder and artifact can be read off the key. */
  lemma RunKeysInjective(repo: string, run: string, folder: string, a: Artifact, repo': string, run': string, folder': string, a': Artifact)
    requires TwoSegments(repo) && TwoSegments(repo') && RunKey(repo, run, folder, a).Ok?
    requires RunKey(repo, run, folder, a) == RunKey(repo', run', folder', a')
    ensures repo == repo' && ValidateRun(run) == ValidateRun(run') && folder == folder' && a == a'
  {
    RunKeySplits(repo, run, folder, a);
    RunKeySplits(repo', run', folder', a');
    RunOk(repo, run, folder, a);
    RunOk(repo', run', folder', a');
    hide Split, PREFIX, NameSegments, ValidateRun, RunKey;
    var r, r' := ValidateRun(run).value, ValidateRun(run').value;
    var rest, rest' := Split(folder, '/') + NameSegments(a), Split(folder', '/') + NameSegments(a');
    SegmentsApart(PREFIX, Split(repo, '/') + ([r] + rest), PREFIX, Split(repo', '/') + ([r'] + rest'));
    HeadTail(Split(repo, '/'), [r] + rest, Split(repo', '/'), [r'] + rest');
    SegmentsApart(r, rest, r', rest');
    SplitDetermines(repo, repo');
    FolderAndName(folder, a, folder', a');
  }

  lemma RunOk(repo: string, run: string, folder: string, a: Artifact)
    requires RunKey(repo, run, folder, a).Ok?
    ensures ValidateRun(run).Ok?
  {
    hide Literal, ValidateRun, Slash;
  }

  lemma ExecutionOk(repo: string, pr: nat, execution: string, t: PointerType, folder: string, a: Artifact)
    requires ExecutionKey(repo, pr, execution, t, folder, a).Ok?
    ensures Validate(execution).Ok?
  {
    hide Literal, Validate, Slash;
  }

  lemma PrSegmentInjective(pr: nat, pr': nat)
    requires PrSegment(pr) == PrSegment(pr')
    ensures pr == pr'
  {
    assert PrSegment(pr)[3..] == Decimal(pr) && PrSegment(pr')[3..] == Decimal(pr');
    DecimalInjective(pr, pr');
  }

  /** Pull request artifacts: so can the pull request, the execution and the kind. */
  lemma ExecutionKeysInjective(repo: string, pr: nat, e: string, t: PointerType, folder: string, a: Artifact,
                               repo': string, pr': nat, e': string, t': PointerType, folder': string, a': Artifact)
    requires TwoSegments(repo) && TwoSegments(repo') && ExecutionKey(repo, pr, e, t, folder, a).Ok?
    requires ExecutionKey(repo, pr, e, t, folder, a) == ExecutionKey(repo', pr', e', t', folder', a')
    ensures repo == repo' && pr == pr' && Validate(e) == Validate(e') && t == t' && folder == folder' && a == a'
  {
    ExecutionKeySplits(repo, pr, e, t, folder, a);
    ExecutionKeySplits(repo', pr', e', t', folder', a');
    ExecutionOk(repo, pr, e, t, folder, a);
    ExecutionOk(repo', pr', e', t', folder', a');
    hide Split, PREFIX, NameSegments, Validate, ExecutionKey, EXECUTIONS, PrSegment, TypeName;
    var r, r' := Validate(e).value, Validate(e').value;
    var k1, k1' := Split(folder, '/') + NameSegments(a), Split(folder', '/') + NameSegments(a');
    var k2, k2' := [TypeName(t)] + k1, [TypeName(t')] + k1';
    var k3, k3' := [r] + k2, [r'] + k2';
    var k4, k4' := [EXECUTIONS] + k3, [EXECUTIONS] + k3';
    var k5, k5' := [PrSegment(pr)] + k4, [PrSegment(pr')] + k4';
    SegmentsApart(PREFIX, Split(repo, '/') + k5, PREFIX, Split(repo', '/') + k5');
    HeadTail(Split(repo, '/'), k5, Split(repo', '/'), k5');
    SegmentsApart(PrSegment(pr), k4, PrSegment(pr'), k4');
    SegmentsApart(EXECUTIONS, k3, EXECUTIONS, k3');
    SegmentsApart(r, k2, r', k2');
    SegmentsApart(TypeName(t), k1, TypeName(t'), k1');
    SplitDetermines(repo, repo');
    PrSegmentInjective(pr, pr');
    TypeNameInjective(t, t');
    FolderAndName(folder, a, folder', a');
  }

  /** Pointers: repository, pull request, folder and kind can be read off the key. */
  lemma PointerKeysInjective(repo: string, pr: nat, folder: string, t: PointerType, repo': string, pr': nat, folder': string, t': PointerType)
    requires TwoSegments(repo) && TwoSegments(repo') && PointerKey(repo, pr, folder, t).Ok?
    requires PointerKey(repo, pr, folder, t) == PointerKey(repo', pr', folder', t')
    ensures repo == repo' && pr == pr' && folder == folder' && t == t'
  {
    PointerKeySplits(repo, pr, folder, t);
    PointerKeySplits(repo', pr', folder', t');
    hide Split, PREFIX, PointerKey, PrSegment, TypeName, ENV;
    var f, f' := Split(folder, '/'), Split(folder', '/');
    var n, n' := TypeName(t) + ENV, TypeName(t') + ENV;
    var k1, k1' := f + [n], f' + [n'];
    SegmentsApart(PREFIX, Split(repo, '/') + ([PrSegment(pr)] + k1), PREFIX, Split(repo', '/') + ([PrSegment(pr')] + k1'));
    HeadTail(Split(repo, '/'), [PrSegment(pr)] + k1, Split(repo', '/'), [PrSegment(pr')] + k1');
    SegmentsApart(PrSegment(pr), k1, PrSegment(pr'), k1');
    assert |k1| == |k1'|;
    HeadTail(f, [n], f', [n']);
    assert [n][0] == [n'][0];
    SplitDetermines(repo, repo');
    SplitDetermines(folder, folder');
    PrSegmentInjective(pr, pr');
    TypeNameInjective(t, t');
  }

  lemma RunIsNoPr(run: string, pr: nat)
    requires Validate(run).Ok?
    ensures Validate(run).value != PrSegment(pr)
  {
    var t := Strip(run);
    assert PrSegment(pr)[0] == 'p';
    if Legacy(t) {
      LowerHex(t);
      assert HexDigit(Lower(t)[0]);
    } else {
      assert Digit(t[..|t| - 9][0]);
    }
  }

  /** An outer run id is also a valid run id for the run-scoped layout, with the same text in its normal form. */
  lemma OuterRunIsRun(run: string)
    requires Valid(run)
    ensures ValidateRun(run) == Ok(run)
  {
    ValidateNormal(run);
    ValidChars(run);
    NoSpaceStripped(run);
    OuterLength(run);
    hide Validate, PointerChar;
  }

  lemma OuterLength(run: string)
    requires Valid(run)
    ensures 2 <= |Strip(run)| <= 64
  {}

  /** The families are disjoint: run artifacts of outer runs, pull request artifacts, pointers and report pointers. */
  lemma FamiliesDisjoint(repo: string, run: string, folder: string, a: Artifact, repo': string, pr: nat, e: string, t: PointerType,
                         folder': string, a': Artifact, folder'': string, t'': PointerType)
    requires TwoSegments(repo) && TwoSegments(repo') && Valid(run)
    requires RunKey(repo, run, folder, a).Ok? && ExecutionKey(repo', pr, e, t, folder', a').Ok?
    requires PointerKey(repo', pr, folder'', t'').Ok? && ReportAllKey(repo', pr).Ok?
    ensures RunKey(repo, run, folder, a) != ExecutionKey(repo', pr, e, t, folder', a')
    ensures RunKey(repo, run, folder, a) != PointerKey(repo', pr, folder'', t'')
    ensures RunKey(repo, run, folder, a) != ReportAllKey(repo', pr)
  {
    RunKeySplits(repo, run, folder, a);
    ExecutionKeySplits(repo', pr, e, t, folder', a');
    PointerKeySplits(repo', pr, folder'', t'');
    ReportAllKeySplits(repo', pr);
    OuterRunIsRun(run);
    RunIsNoPr(run, pr);
    ValidIsNormal(run);
    hide Split, PREFIX, NameSegments, RunKey, ExecutionKey, PointerKey, ReportAllKey, PrSegment, EXECUTIONS, ENV, TypeName, REPORT_ALL_FILE, Validate, ValidateRun;
    FourthSegment(repo, run, Split(folder, '/') + NameSegments(a));
    FourthSegment(repo', PrSegment(pr), [EXECUTIONS] + ([Validate(e).value] + ([TypeName(t)] + (Split(folder', '/') + NameSegments(a')))));
    FourthSegment(repo', PrSegment(pr), Split(folder'', '/') + [TypeName(t'') + ENV]);
    FourthSegment(repo', PrSegment(pr), [REPORT_ALL_FILE]);
  }

  lemma ValidIsNormal(run: string)
    requires Valid(run)
    ensures Validate(run).value == run && Validate(run).Ok?
  {
    hide Validate;
  }

  lemma FourthSegment(repo: string, fourth: string, rest: seq<string>)
    requires TwoSegments(repo)
    ensures var all := [PREFIX] + (Split(repo, '/') + ([fourth] + rest)); |all| >= 4 && all[3] == fourth
  {
    hide Split, PREFIX;
  }

  /** Within one pull request's area: artifacts end in an artifact name, pointers in .env, and the report pointer is shorter. */
  lemma PrFamiliesDisjoint(repo: string, pr: nat, e: string, t: PointerType, folder: string, a: Artifact,
                           repo': string, pr': nat, folder': string, t': PointerType)
    requires TwoSegments(repo) && TwoSegments(repo')
    requires ExecutionKey(repo, pr, e, t, folder, a).Ok? && PointerKey(repo', pr', folder', t').Ok? && ReportAllKey(repo', pr').Ok?
    ensures ExecutionKey(repo, pr, e, t, folder, a) != PointerKey(repo', pr', folder', t')
    ensures ExecutionKey(repo, pr, e, t, folder, a) != ReportAllKey(repo', pr')
    ensures forall repo'', pr'' :: TwoSegments(repo'') && ReportAllKey(repo'', pr'').Ok? ==>
              PointerKey(repo', pr', folder', t') != ReportAllKey(repo'', pr'')
  {
    hide *;
    ExecutionKeySplits(repo, pr, e, t, folder, a);
    PointerKeySplits(repo', pr', folder', t');
    ReportAllKeySplits(repo', pr');
    EnvIsNoArtifact(a, t');
    ExecutionOk(repo, pr, e, t, folder, a);
    LastSegments(repo, pr, Validate(e).value, t, folder, a);
    LastSegments(repo', pr', "", t', folder', a);
    forall repo'', pr'' | TwoSegments(repo'') && ReportAllKey(repo'', pr'').Ok?
      ensures PointerKey(repo', pr', folder', t') != ReportAllKey(repo'', pr'')
    {
      ReportAllKeySplits(repo'', pr'');
      SegmentCounts(repo', pr', folder', t', repo'', pr'');
    }
  }

  lemma LastSegments(repo: string, pr: nat, run: string, t: PointerType, folder: string, a: Artifact)
    ensures var x := ExecutionSegments(repo, pr, run, t, folder, a); x != [] && x[|x| - 1] == FileName(a)
    ensures var y := PointerSegments(repo, pr, folder, t); y != [] && y[|y| - 1] == TypeName(t) + ENV
    ensures var z := ReportAllSegments(repo, pr); z != [] && z[|z| - 1] == REPORT_ALL_FILE
  {
    hide Split, FileName, TypeName, ENV, REPORT_ALL_FILE, PREFIX, PrSegment, EXECUTIONS, TF, InTf;
  }

  lemma SegmentCounts(repo: string, pr: nat, folder: string, t: PointerType, other: string, pr': nat)
    requires TwoSegments(repo) && TwoSegments(other)
    ensures |PointerSegments(repo, pr, folder, t)| >= 6 && |ReportAllSegments(other, pr')| == 5
  {
    hide Split, TypeName, ENV, REPORT_ALL_FILE, PREFIX, PrSegment;
  }
}
