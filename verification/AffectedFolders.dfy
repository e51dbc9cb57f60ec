/**
  Which configured folders a pull request touches. A first pass takes each changed path's longest configured
  prefix; a second pass goes over the changed directories, cut at a configuration directory and reduced to the
  outermost ones. What the second pass adds is stated exactly, and it adds nothing as long as three conditions hold on
  the inputs.
 */
module AffectedFolders {
  import opened Wrappers
  import opened Text
  import Order = OuterIds

  const MAX_CHANGED_FILES: nat := 2000
  const GLOBAL_CONFIG := ".openci_tf/config.yaml"
  const CONFIG_DIR := "/.openci_tf"

  datatype Change = Change(filename: string, status: string, previous: string)
  datatype LimitError = TooManyFiles(count: nat)

  /** The path lies in the folder or is the folder. */
  predicate Under(path: string, folder: string) { path == folder || HasPrefix(path, folder + "/") }

  predicate Skipped(path: string) { path == "" || path == "~" || path == "." }

  predicate Renamed(change: Change) { change.status == "renamed" && change.previous != "" }

  function PathsOf(change: Change): seq<string> {
    if Skipped(change.filename) then [] else (if Renamed(change) then [change.previous] else []) + [change.filename]
  }

  /** Changed paths, with the source of each rename. */
  function ChangedPaths(files: seq<Change>): seq<string> {
    if files == [] then [] else ChangedPaths(files[..|files| - 1]) + PathsOf(files[|files| - 1])
  }

  /** Position of the last slash. */
  function LastSlash(s: string): (n: Option<nat>)
    ensures n.Some? ==> n.value < |s| && s[n.value] == '/' && '/' !in s[n.value + 1..]
    ensures n.None? ==> '/' !in s
  {
    if s == "" then None
    else if s[|s| - 1] == '/' then Some(|s| - 1)
    else
      var n := LastSlash(s[..|s| - 1]);
      assert n.Some? ==> s[n.value + 1..] == s[..|s| - 1][n.value + 1..] + [s[|s| - 1]];
      assert s == s[..|s| - 1] + [s[|s| - 1]];
      n
  }

  /** The directory of a path that has one. */
  function Parent(path: string): Option<string> {
    if Skipped(path) || LastSlash(path).None? then None else Some(path[..LastSlash(path).value])
  }

  function Directories(paths: seq<string>): set<string> { set p | p in paths && Parent(p).Some? :: Parent(p).value }

  predicate ConfigDirAt(s: string, i: nat) { i + |CONFIG_DIR| <= |s| && s[i..i + |CONFIG_DIR|] == CONFIG_DIR }

  /** First position of a configuration directory from i on. */
  function ConfigDir(s: string, i: nat): (n: Option<nat>)
    requires i <= |s|
    ensures n.Some? ==> i <= n.value && ConfigDirAt(s, n.value) && forall k :: i <= k < n.value ==> !ConfigDirAt(s, k)
    ensures n.None? ==> forall k :: i <= k <= |s| ==> !ConfigDirAt(s, k)
    decreases |s| - i
  {
    if ConfigDirAt(s, i) then Some(i) else if i == |s| then None else ConfigDir(s, i + 1)
  }

  predicate HasConfigDir(s: string) { exists k :: 0 <= k <= |s| && ConfigDirAt(s, k) }

  /** A directory inside a configuration directory stands for the folder around it. */
  function Collapse(dir: string): string {
    match ConfigDir(dir, 0)
    case None => dir
    case Some(n) => dir[..n]
  }

  function Collapsed(dirs: set<string>): set<string> { set d | d in dirs :: Collapse(d) }

  /** Without those that lie under another one. */
  function Outermost(dirs: set<string>): set<string> {
    set d | d in dirs && !(exists other :: other in dirs && other != d && HasPrefix(d, other + "/"))
  }

  function Normalized(dirs: set<string>): set<string> { Outermost(Collapsed(dirs)) }

  /** The longest configured folder that the path lies in. */
  function Longest(path: string, configured: seq<string>): (f: Option<string>)
    ensures f.Some? ==> f.value in configured && Under(path, f.value)
    ensures forall g :: g in configured && Under(path, g) ==> f.Some? && |g| <= |f.value|
  {
    if configured == [] then None
    else
      var last := configured[|configured| - 1];
      var before := Longest(path, configured[..|configured| - 1]);
      if Under(path, last) && (before.None? || |before.value| < |last|) then Some(last) else before
  }

  function All(configured: seq<string>): set<string> { set f | f in configured }

  function Single(f: Option<string>): set<string> { if f.Some? && f.value != "" then {f.value} else {} }

  function FoldersFor(path: string, configured: seq<string>): set<string> {
    if path == GLOBAL_CONFIG then All(configured) else Single(Longest(path, configured))
  }

  /** What the second pass adds for one directory. */
  function FoldersForDirectory(dir: string, configured: seq<string>): set<string> {
    if dir in configured then {dir}
    else if HasConfigDir(dir) && Collapse(dir) in configured then {Collapse(dir)}
    else Single(Longest(dir, configured))
  }

  function FirstPass(paths: seq<string>, configured: seq<string>): set<string> {
    if paths == [] then {} else FirstPass(paths[..|paths| - 1], configured) + FoldersFor(paths[|paths| - 1], configured)
  }

  /** All folders that both passes find. */
  function Found(paths: seq<string>, configured: seq<string>): set<string> {
    FirstPass(paths, configured)
    + set d, f | d in Normalized(Directories(paths)) && f in FoldersForDirectory(d, configured) :: f
  }

  predicate Ascending(s: seq<string>) { forall i, j :: 0 <= i < j < |s| ==> Order.TextLess(s[i], s[j]) }

  // ---------------------------------------------------------------------------------------------
  // The two passes as they run
  // ---------------------------------------------------------------------------------------------

  method CollectPaths(files: seq<Change>) returns (r: Result<seq<string>, LimitError>)
    ensures r == if |files| > MAX_CHANGED_FILES then Err(TooManyFiles(|files|)) else Ok(ChangedPaths(files))
  {
    if |files| > MAX_CHANGED_FILES {
      return Err(TooManyFiles(|files|));
    }
    hide *;
    var paths: seq<string> := [];
    var i := 0;
    NoChanges();
    while i < |files|
      invariant 0 <= i <= |files| && paths == ChangedPaths(files[..i])
    {
      ChangedStep(files, i);
      var change := files[i];
      if !Skipped(change.filename) {
        if Renamed(change) {
          paths := paths + [change.previous] + [change.filename];
        } else {
          paths := paths + [change.filename];
        }
      }
      i := i + 1;
    }
    assert files[..i] == files;
    r := Ok(paths);
  }

  lemma NoChanges()
    ensures ChangedPaths([]) == []
  {}

  /** What one more file adds. */
  lemma ChangedStep(files: seq<Change>, i: nat)
    requires i < |files|
    ensures var before, change := ChangedPaths(files[..i]), files[i];
            ChangedPaths(files[..i + 1]) ==
              if Skipped(change.filename) then before
              else if Renamed(change) then before + [change.previous] + [change.filename]
              else before + [change.filename]
  {
    hide Skipped, Renamed;
    assert files[..i + 1][..i] == files[..i];
    var before, change := ChangedPaths(files[..i]), files[i];
    assert ChangedPaths(files[..i + 1]) == before + PathsOf(change);
    assert before + ([change.previous] + [change.filename]) == before + [change.previous] + [change.filename];
    assert [] + [change.filename] == [change.filename];
  }

  method CollectDirectories(paths: seq<string>) returns (dirs: set<string>)
    ensures dirs == Directories(paths)
  {
    dirs := {};
    var i := 0;
    while i < |paths|
      invariant 0 <= i <= |paths| && dirs == Directories(paths[..i])
    {
      DirectoriesSnoc(paths[..i], paths[i]);
      assert paths[..i + 1] == paths[..i] + [paths[i]];
      if Parent(paths[i]).Some? {
        dirs := dirs + {Parent(paths[i]).value};
      }
      i := i + 1;
    }
    assert paths[..i] == paths;
  }

  lemma DirectoriesSnoc(paths: seq<string>, path: string)
    ensures Directories(paths + [path]) == Directories(paths) + if Parent(path).Some? then {Parent(path).value} else {}
  {
    hide Parent;
    var more := paths + [path];
    assert forall p :: p in more <==> p in paths || p == path;
  }

  /** The affected folders, sorted; no configured folders means none, before anything is counted. */
  method ResolveAffected(files: seq<Change>, configured: seq<string>) returns (r: Result<seq<string>, LimitError>)
    ensures configured == [] ==> r == Ok([])
    ensures configured != [] ==> (r.Err? <==> |files| > MAX_CHANGED_FILES)
    ensures r.Ok? && configured != [] ==> Ascending(r.value) && All(r.value) == Found(ChangedPaths(files), configured)
  {
    hide FoldersFor, FoldersForDirectory, Normalized, Directories, Order.TextLess;
    if configured == [] {
      return Ok([]);
    }
    var collected := CollectPaths(files);
    if collected.Err? {
      return Err(collected.error);
    }
    var paths := collected.value;
    var affected: set<string> := {};
    var i := 0;
    while i < |paths|
      invariant 0 <= i <= |paths| && affected == FirstPass(paths[..i], configured)
    {
      assert paths[..i + 1][..i] == paths[..i];
      affected := affected + FoldersFor(paths[i], configured);
      i := i + 1;
    }
    assert paths[..i] == paths;
    var dirs := CollectDirectories(paths);
    var all := Normalized(dirs);
    var left := all;
    ghost var first := affected;
    while left != {}
      invariant left <= all
      invariant affected == first + set d, f | d in all - left && f in FoldersForDirectory(d, configured) :: f
      decreases |left|
    {
      var d :| d in left;
      AddDirectory(all - left, d, configured);
      assert all - (left - {d}) == (all - left) + {d};
      affected := affected + FoldersForDirectory(d, configured);
      left := left - {d};
    }
    assert all - left == all;
    var sorted := Sort(affected);
    r := Ok(sorted);
  }

  lemma AddDirectory(dirs: set<string>, d: string, configured: seq<string>)
    ensures (set e, f | e in dirs + {d} && f in FoldersForDirectory(e, configured) :: f)
         == (set e, f | e in dirs && f in FoldersForDirectory(e, configured) :: f) + FoldersForDirectory(d, configured)
  {
    hide FoldersForDirectory;
  }

  method Least(s: set<string>) returns (m: string)
    requires s != {}
    ensures m in s && forall x :: x in s && x != m ==> Order.TextLess(m, x)
  {
    hide Order.TextLess;
    m :| m in s;
    var left := s - {m};
    while left != {}
      invariant left <= s && m in s && m !in left
      invariant forall x :: x in s && x !in left && x != m ==> Order.TextLess(m, x)
      decreases |left|
    {
      var x :| x in left;
      Order.TextLessTotal(m, x);
      if Order.TextLess(x, m) {
        forall y | y in s && y !in left - {x} && y != x ensures Order.TextLess(x, y) {
          if y != m {
            Order.TextLessTransitive(x, m, y);
          }
        }
        m := x;
      }
      left := left - {x};
    }
  }

  method Sort(s: set<string>) returns (sorted: seq<string>)
    ensures Ascending(sorted) && All(sorted) == s
  {
    hide Order.TextLess;
    sorted := [];
    var left := s;
    while left != {}
      invariant left <= s && All(sorted) == s - left && Ascending(sorted)
      invariant forall x, k :: x in left && 0 <= k < |sorted| ==> Order.TextLess(sorted[k], x)
      decreases |left|
    {
      var m := Least(left);
      AllSnoc(sorted, m);
      sorted := sorted + [m];
      left := left - {m};
    }
  }

  lemma AllSnoc(s: seq<string>, x: string)
    ensures All(s + [x]) == All(s) + {x}
  {
    assert forall f :: f in s + [x] <==> f in s || f == x;
  }

  // ---------------------------------------------------------------------------------------------
  // What the second pass adds
  // ---------------------------------------------------------------------------------------------

  /** The union over all changed paths of the longest configured prefix, or of everything for the global file. */
  ghost predicate Affects(paths: seq<string>, configured: seq<string>, f: string) {
    exists p :: p in paths && f in FoldersFor(p, configured)
  }

  /** No configured folder has an empty name or lies in a configuration directory; no changed path is one. */
  ghost predicate Regular(paths: seq<string>, configured: seq<string>) {
    && "" !in configured
    && (forall f :: f in configured ==> !HasConfigDir(f))
    && (forall p :: p in paths ==> p !in configured)
  }

  lemma {:induction false} FirstPassIs(paths: seq<string>, configured: seq<string>, f: string)
    ensures f in FirstPass(paths, configured) <==> Affects(paths, configured, f)
  {
    hide FoldersFor;
    if paths != [] {
      var rest, last := paths[..|paths| - 1], paths[|paths| - 1];
      FirstPassIs(rest, configured, f);
      assert forall p :: p in paths <==> p in rest || p == last;
    }
  }

  lemma UnderMeans(path: string, folder: string)
    ensures Under(path, folder) <==> path == folder || (|folder| < |path| && path[..|folder|] == folder && path[|folder|] == '/')
    ensures Under(path, folder) ==> |folder| <= |path| && path[..|folder|] == folder
  {
    var named := folder + "/";
    assert named[..|folder|] == folder && named[|folder|] == '/';
    if HasPrefix(path, named) {
      assert path[..|folder|] == path[..|named|][..|folder|];
      assert path[|folder|] == path[..|named|][|folder|];
    }
    if |folder| < |path| && path[..|folder|] == folder && path[|folder|] == '/' {
      assert path[..|named|] == path[..|folder|] + [path[|folder|]];
    }
  }

  lemma UnderLonger(path: string, a: string, b: string)
    requires Under(path, a) && Under(path, b) && |a| <= |b|
    ensures Under(b, a)
  {
    hide Under;
    UnderMeans(path, a);
    UnderMeans(path, b);
    UnderMeans(b, a);
    assert b[..|a|] == path[..|a|];
    if |a| == |b| {
      assert b[..|a|] == b;
    }
  }

  lemma LongestIs(path: string, configured: seq<string>, f: string)
    requires f in configured && Under(path, f) && forall g :: g in configured && Under(path, g) ==> |g| <= |f|
    ensures Longest(path, configured) == Some(f)
  {
    hide Longest, Under;
    var l := Longest(path, configured).value;
    UnderMeans(path, l);
    UnderMeans(path, f);
  }

  lemma NoSlashAfter(path: string, k: nat)
    requires k < |path| && path[k] == '/'
    ensures LastSlash(path).Some? && k <= LastSlash(path).value
  {
    if LastSlash(path).Some? {
      var n := LastSlash(path).value;
      var tail := path[n + 1..];
      assert forall j :: n < j < |path| ==> path[j] == tail[j - n - 1] && path[j] != '/';
    }
  }

  /** A folder around a path that is not the path itself lies around its directory or is it. */
  lemma UnderParent(path: string, folder: string)
    requires Under(path, folder) && path != folder && Parent(path).Some?
    ensures Under(Parent(path).value, folder)
  {
    var dir := Parent(path).value;
    UnderMeans(path, folder);
    NoSlashAfter(path, |folder|);
    UnderMeans(dir, folder);
    hide Under, LastSlash;
    assert dir == path[..LastSlash(path).value];
    assert dir[..|folder|] == path[..|folder|];
    if |folder| == |dir| {
      assert dir[..|folder|] == dir;
    }
  }

  lemma ParentUnder(path: string, dir: string)
    requires Parent(path) == Some(dir)
    ensures Under(path, dir) && path != dir
  {
    UnderMeans(path, dir);
  }

  lemma UnderTransitive(path: string, a: string, b: string)
    requires Under(path, a) && Under(a, b)
    ensures Under(path, b)
  {
    hide Under;
    UnderMeans(path, a);
    UnderMeans(a, b);
    UnderMeans(path, b);
    assert path[..|b|] == a[..|b|];
  }

  lemma CutKeeps(dir: string, n: nat, k: nat)
    requires n <= |dir| && ConfigDirAt(dir[..n], k)
    ensures ConfigDirAt(dir, k) && k < n
  {
    assert dir[..n][k..k + |CONFIG_DIR|] == dir[k..k + |CONFIG_DIR|];
  }

  lemma CollapseUnder(dir: string)
    ensures Under(dir, Collapse(dir)) && !HasConfigDir(Collapse(dir))
  {
    var at := ConfigDir(dir, 0);
    if at.Some? {
      var n := at.value;
      var cut := dir[..n];
      assert dir[n] == dir[n..n + |CONFIG_DIR|][0] == '/';
      UnderMeans(dir, cut);
      forall k | 0 <= k <= |cut| && ConfigDirAt(cut, k) ensures ConfigDirAt(dir, k) && k < n {
        CutKeeps(dir, n, k);
      }
    }
  }

  lemma SameSlice(a: string, b: string, n: nat, from: nat, to: nat)
    requires n <= |a| && a[..n] == b && from <= to <= n
    ensures a[from..to] == b[from..to]
  {
    assert a[..n][from..to] == a[from..to];
  }

  /** No slash inside a configuration directory's own name. */
  lemma MarkHasOneSlash(s: string, n: nat, k: nat)
    requires ConfigDirAt(s, n) && n < k < n + |CONFIG_DIR|
    ensures s[k] != '/'
  {
    assert s[n..n + |CONFIG_DIR|][k - n] == s[k];
    OneSlash(k - n);
  }

  lemma OneSlash(k: nat)
    requires 0 < k < |CONFIG_DIR|
    ensures CONFIG_DIR[k] != '/'
  {}

  /** A folder between a collapsed directory and the directory has the configuration directory in its name. */
  lemma BetweenHasConfigDir(dir: string, folder: string)
    requires Under(dir, folder) && |folder| > |Collapse(dir)|
    ensures HasConfigDir(folder)
  {
    UnderMeans(dir, folder);
    var n := ConfigDir(dir, 0).value;
    assert ConfigDirAt(dir, n);
    hide Under, CONFIG_DIR, ConfigDir;
    if |folder| < n + |CONFIG_DIR| {
      MarkHasOneSlash(dir, n, |folder|);
    }
    SameSlice(dir, folder, |folder|, n, n + |CONFIG_DIR|);
    assert ConfigDirAt(folder, n);
  }

  lemma SelfLongest(dir: string, configured: seq<string>)
    requires dir in configured
    ensures Longest(dir, configured) == Some(dir)
  {
    forall g | g in configured && Under(dir, g) ensures |g| <= |dir| {
    }
    LongestIs(dir, configured, dir);
  }

  lemma SameUnder(a: string, b: string, configured: seq<string>)
    requires forall g :: g in configured ==> (Under(a, g) <==> Under(b, g))
    ensures Longest(a, configured) == Longest(b, configured)
  {
    if Longest(b, configured).Some? {
      LongestIs(a, configured, Longest(b, configured).value);
    }
  }

  lemma NoneCollapses(dir: string)
    requires !HasConfigDir(dir)
    ensures Collapse(dir) == dir
  {}

  lemma PathBehind(paths: seq<string>, dir: string) returns (path: string)
    requires dir in Normalized(Directories(paths))
    ensures path in paths && Parent(path).Some? && dir == Collapse(Parent(path).value) && !HasConfigDir(dir)
  {
    hide Collapse, Parent, HasConfigDir;
    var d :| d in Directories(paths) && dir == Collapse(d);
    path :| path in paths && Parent(path).Some? && Parent(path).value == d;
    CollapseUnder(d);
  }

  /**
    The second pass looks at a path's collapsed directory instead of the path. That adds the directory's folder when a
    longer configured folder stands between the two, or when the folder's name is empty.
   */
  ghost predicate Drags(paths: seq<string>, configured: seq<string>, path: string, f: string) {
    && Parent(path).Some?
    && var dir := Collapse(Parent(path).value);
       && dir in Normalized(Directories(paths)) && Longest(dir, configured) == Some(f)
       && if f == "" then dir == "" else Between(path, dir, configured)
  }

  ghost predicate Between(path: string, dir: string, configured: seq<string>) {
    exists g :: g in configured && Under(path, g) && |g| > |dir|
  }

  lemma ForDirectory(dir: string, configured: seq<string>, f: string)
    requires !HasConfigDir(dir)
    ensures f in FoldersForDirectory(dir, configured) <==> Longest(dir, configured) == Some(f) && (f == "" ==> dir == "")
  {
    if dir in configured {
      SelfLongest(dir, configured);
    }
    hide Longest, HasConfigDir, Collapse;
  }

  /** Without a folder in between, the path and its collapsed directory have the same longest folder. */
  lemma NothingBetween(path: string, configured: seq<string>, dir: string)
    requires Parent(path).Some? && dir == Collapse(Parent(path).value) && !Between(path, dir, configured)
    ensures Longest(path, configured) == Longest(dir, configured)
  {
    var parent := Parent(path).value;
    ParentUnder(path, parent);
    CollapseUnder(parent);
    UnderTransitive(path, parent, dir);
    hide Under, HasConfigDir, Parent, Collapse;
    forall g | g in configured ensures Under(path, g) <==> Under(dir, g) {
      if Under(path, g) {
        UnderLonger(path, g, dir);
      }
      if Under(dir, g) {
        UnderTransitive(path, dir, g);
      }
    }
    SameUnder(path, dir, configured);
  }

  lemma DirectoryAdds(paths: seq<string>, configured: seq<string>, dir: string, f: string) returns (path: string)
    requires dir in Normalized(Directories(paths)) && f in FoldersForDirectory(dir, configured)
    ensures path in paths && (Drags(paths, configured, path, f) || f in FoldersFor(path, configured))
  {
    path := PathBehind(paths, dir);
    ForDirectory(dir, configured, f);
    hide Normalized, Directories, Longest, HasConfigDir, Collapse, Parent, FoldersForDirectory;
    if f != "" && !Between(path, dir, configured) {
      NothingBetween(path, configured, dir);
      assert f in configured;
    }
  }

  lemma DragsIsFound(paths: seq<string>, configured: seq<string>, path: string, f: string)
    requires path in paths && Drags(paths, configured, path, f)
    ensures f in Found(paths, configured)
  {
    var dir := Collapse(Parent(path).value);
    CollapseUnder(Parent(path).value);
    ForDirectory(dir, configured, f);
    hide Normalized, Directories, Longest, HasConfigDir, Collapse, Parent, FoldersForDirectory, FirstPass;
  }

  /** What both passes find, exactly, on all inputs: what some changed path calls for, and what some path drags in. */
  lemma FoundExactly(paths: seq<string>, configured: seq<string>, f: string)
    ensures f in Found(paths, configured)
       <==> Affects(paths, configured, f) || exists p :: p in paths && Drags(paths, configured, p, f)
  {
    FirstPassIs(paths, configured, f);
    if exists p :: p in paths && Drags(paths, configured, p, f) {
      var p :| p in paths && Drags(paths, configured, p, f);
      DragsIsFound(paths, configured, p, f);
    }
    hide Normalized, Directories, FoldersForDirectory, FirstPass, Drags, FoldersFor;
    if exists d :: d in Normalized(Directories(paths)) && f in FoldersForDirectory(d, configured) {
      var d :| d in Normalized(Directories(paths)) && f in FoldersForDirectory(d, configured);
      var path := DirectoryAdds(paths, configured, d, f);
    }
  }

  /** A folder in between is the changed path itself or lies in a configuration directory. */
  lemma BetweenIs(path: string, configured: seq<string>, g: string)
    requires Parent(path).Some? && Under(path, g) && |g| > |Collapse(Parent(path).value)|
    ensures g == path || HasConfigDir(g)
  {
    hide Under, Collapse, HasConfigDir, Parent;
    if g != path {
      UnderParent(path, g);
      BetweenHasConfigDir(Parent(path).value, g);
    }
  }

  lemma RegularDragsNothing(paths: seq<string>, configured: seq<string>, path: string, f: string)
    requires Regular(paths, configured) && path in paths
    ensures !Drags(paths, configured, path, f)
  {
    hide Under, Collapse, HasConfigDir, Parent, Normalized, Directories;
    if Parent(path).Some? {
      var dir := Collapse(Parent(path).value);
      forall g | g in configured && Under(path, g) ensures |g| <= |dir| {
        if |g| > |dir| {
          BetweenIs(path, configured, g);
        }
      }
    }
  }

  /** The refinement: on regular inputs the two passes find exactly the affected folders of the specification. */
  lemma TwoPassesRefine(paths: seq<string>, configured: seq<string>, f: string)
    requires Regular(paths, configured)
    ensures f in Found(paths, configured) <==> Affects(paths, configured, f)
  {
    hide *;
    FoundExactly(paths, configured, f);
    forall p | p in paths ensures !Drags(paths, configured, p, f) {
      RegularDragsNothing(paths, configured, p, f);
    }
  }

  /**
    Where configured folders have names and lie outside configuration directories, only a changed path that is itself
    a configured folder drags anything in: a folder no path calls for is found exactly when such a path's collapsed
    directory is among the outermost ones and has that folder as its longest.
   */
  lemma FoundBeyond(paths: seq<string>, configured: seq<string>, f: string)
    requires "" !in configured && forall g :: g in configured ==> !HasConfigDir(g)
    requires !Affects(paths, configured, f)
    ensures f in Found(paths, configured) <==> exists p :: p in paths && p in configured && Above(paths, configured, p, f)
  {
    FoundExactly(paths, configured, f);
    hide Found, Affects, HasConfigDir, Above, Drags;
    forall p | p in paths ensures Drags(paths, configured, p, f) <==> p in configured && Above(paths, configured, p, f) {
      DragsAbove(paths, configured, p, f);
    }
  }

  /** The folder is the longest one of the path's collapsed directory, which is an outermost one. */
  ghost predicate Above(paths: seq<string>, configured: seq<string>, path: string, f: string) {
    && Parent(path).Some?
    && var dir := Collapse(Parent(path).value); dir in Normalized(Directories(paths)) && Longest(dir, configured) == Some(f)
  }

  lemma DragsAbove(paths: seq<string>, configured: seq<string>, path: string, f: string)
    requires "" !in configured && forall g :: g in configured ==> !HasConfigDir(g)
    ensures Drags(paths, configured, path, f) <==> path in configured && Above(paths, configured, path, f)
  {
    hide Normalized, Directories, Collapse, HasConfigDir, Parent, Under;
    if Parent(path).Some? {
      var parent := Parent(path).value;
      ParentLonger(path, parent);
      forall g | g in configured && Under(path, g) && |g| > |Collapse(parent)| ensures g == path {
        BetweenIs(path, configured, g);
      }
      UnderSelf(path);
    }
  }

  lemma UnderSelf(path: string)
    ensures Under(path, path)
  {}

  lemma ParentLonger(path: string, parent: string)
    requires Parent(path) == Some(parent)
    ensures |path| > |parent| >= |Collapse(parent)|
  {}

  /** More changed paths never affect fewer folders. */
  lemma MorePathsMoreFolders(paths: seq<string>, more: seq<string>, configured: seq<string>)
    requires Regular(more, configured) && forall p :: p in paths ==> p in more
    ensures Found(paths, configured) <= Found(more, configured)
  {
    hide Found, FoldersFor;
    assert Regular(paths, configured);
    forall f | f in Found(paths, configured) ensures f in Found(more, configured) {
      TwoPassesRefine(paths, configured, f);
      TwoPassesRefine(more, configured, f);
    }
  }

  // ---------------------------------------------------------------------------------------------
  // Without the three conditions
  // ---------------------------------------------------------------------------------------------

  lemma OnlyOutermost(path: string, dir: string)
    requires Parent(path) == Some(dir)
    ensures Normalized(Directories([path])) == {Collapse(dir)}
  {
    hide Collapse, Parent;
    assert Directories([path]) == {dir};
    assert Collapsed({dir}) == {Collapse(dir)};
  }

  /** A configured directory that is not the path's longest prefix is added by the second pass alone. */
  lemma SecondPassAdds(path: string, configured: seq<string>, dir: string)
    requires Parent(path).Some? && dir == Collapse(Parent(path).value) && dir in configured && path != GLOBAL_CONFIG
    requires dir == "" || Longest(path, configured) != Some(dir)
    ensures dir in Found([path], configured) && !Affects([path], configured, dir)
  {
    OnlyOutermost(path, Parent(path).value);
    hide Normalized, Directories, Longest, Collapse, HasConfigDir, FirstPass, Parent;
    assert dir in FoldersForDirectory(dir, configured);
  }

  lemma LastSlashAt(path: string, n: nat)
    requires n < |path| && path[n] == '/' && forall j :: n < j < |path| ==> path[j] != '/'
    ensures LastSlash(path) == Some(n) && !Skipped(path)
  {
    NoSlashAfter(path, n);
    hide LastSlash;
    assert '/' !in "~" && '/' !in ".";
  }

  lemma Split(parent: string, name: string)
    requires '/' !in name
    ensures var path := parent + "/" + name; !Skipped(path) && Parent(path) == Some(parent)
  {
    hide Skipped, LastSlash;
    var path := parent + "/" + name;
    assert path[|parent|] == '/';
    assert forall j :: |parent| < j < |path| ==> path[j] == name[j - |parent| - 1] && path[j] != '/';
    LastSlashAt(path, |parent|);
    assert path[..|parent|] == parent;
  }

  /** For example: a changed path that is itself a configured folder drags in the configured folder around it. */
  lemma PathIsFolder(outer: string, name: string)
    requires outer != "" && '/' !in name && !HasConfigDir(outer) && outer + "/" + name != GLOBAL_CONFIG
    ensures var path := outer + "/" + name;
            outer in Found([path], [outer, path]) && !Affects([path], [outer, path], outer)
  {
    var path := outer + "/" + name;
    Split(outer, name);
    NoneCollapses(outer);
    SelfLongest(path, [outer, path]);
    hide Parent, Collapse, Longest, HasConfigDir;
    SecondPassAdds(path, [outer, path], outer);
  }

  /** Another: a configured folder inside a configuration directory drags in the folder around that directory. */
  lemma FolderInConfigDir(outer: string, folder: string, name: string)
    requires outer != "" && '/' !in name && Collapse(folder) == outer != folder && folder + "/" + name != GLOBAL_CONFIG
    ensures var path := folder + "/" + name;
            outer in Found([path], [outer, folder]) && !Affects([path], [outer, folder], outer)
  {
    var path := folder + "/" + name;
    Split(folder, name);
    ParentUnder(path, folder);
    CollapseUnder(folder);
    UnderMeans(folder, outer);
    hide Parent, Collapse, Longest, Under;
    assert [outer, folder][1] in [outer, folder];
    assert Longest(path, [outer, folder]) != Some(outer);
    SecondPassAdds(path, [outer, folder], outer);
  }

  /**
    And one that no caller produces, since folder discovery skips the root and changed paths do not start with a slash:
    a folder under the empty name is dragged in by a path at the very root of an absolute tree.
   */
  lemma EmptyFolder(name: string)
    requires '/' !in name
    ensures "" in Found(["" + "/" + name], [""]) && !Affects(["" + "/" + name], [""], "")
  {
    var path := "" + "/" + name;
    Split("", name);
    NoneCollapses("");
    assert path[0] == '/' && GLOBAL_CONFIG[0] == '.';
    hide Parent, Collapse, Longest;
    SecondPassAdds(path, [""], "");
  }
}
