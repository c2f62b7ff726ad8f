/**
 `PathTree` of src/artifacts/workspace.ts, the incremental index that keeps one artifact
 path from being another one's directory, and the staging loop that relies on it.
 */
module ArtifactPaths {
  import opened Wrappers
  import opened Text

  const MAX_PATH_UNITS: nat := 1024

  const SLASH: char := '/'

  /** `dir` is a directory on the way to `path`. */
  predicate Above(dir: string, path: string) {
    dir + "/" <= path
  }

  predicate Conflict(p: string, q: string) {
    p == q || Above(p, q) || Above(q, p)
  }

  /** The proper ancestors of a path, one per slash. */
  function Parents(path: string): set<string> {
    set i | 0 <= i < |path| && path[i] == '/' :: path[..i]
  }

  lemma ParentsAreAbove(dir: string, path: string)
    ensures dir in Parents(path) <==> Above(dir, path)
  {
    if Above(dir, path) {
      assert path[|dir|] == (dir + "/")[|dir|] == '/' && path[..|dir|] == dir;
    }
    if dir in Parents(path) {
      var i :| 0 <= i < |path| && path[i] == '/' && path[..i] == dir;
      assert path[..i + 1] == dir + "/";
    }
  }

  function AllParents(files: set<string>): set<string> {
    set f, d | f in files && d in Parents(f) :: d
  }

  lemma AllParentsMore(files: set<string>, path: string)
    ensures AllParents(files + {path}) == AllParents(files) + Parents(path)
  {
  }

  /** What `path.posix.normalize` makes of a string. */
  type Normalizer = string -> string

  /** JavaScript's string length: UTF-16 units. */
  function Utf16Length(s: string): nat {
    if s == "" then 0 else (if s[0] as int >= 0x10000 then 2 else 1) + Utf16Length(s[1..])
  }

  predicate IsArtifactPath(normalize: Normalizer, value: string) {
    && value != "" && Utf16Length(value) <= MAX_PATH_UNITS && '\0' !in value && '\\' !in value
    && normalize(value) == value
    && value != "." && value[0] != '/' && value != ".." && !("../" <= value)
  }

  datatype AddResult = Added(path: string) | Invalid | Duplicate | Overlap

  predicate FreeOf(files: set<string>, path: string) {
    forall f :: f in files ==> !Conflict(f, path)
  }

  /** What `Add` answers. */
  function Verdict(normalize: Normalizer, files: set<string>, value: string): AddResult {
    if !IsArtifactPath(normalize, value) then Invalid
    else if value in files then Duplicate
    else if !FreeOf(files, value) then Overlap
    else Added(value)
  }

  class PathTree {
    const normalize: Normalizer
    var files: set<string>
    var directories: set<string>

    /** `directories` is exactly what lies above the files, and no file is among them. */
    ghost predicate Valid()
      reads this
    {
      && directories == AllParents(files)
      && files !! directories
    }

    constructor (normalize: Normalizer)
      ensures Valid() && files == {} && this.normalize == normalize
    {
      this.normalize := normalize;
      files, directories := {}, {};
    }

    /** The ancestors of `path`, unless one of them is a file. */
    method AncestorsOf(path: string) returns (parents: Option<seq<string>>)
      ensures parents.Some? <==> Parents(path) !! files
      ensures parents.Some? ==> (set p | p in parents.value) == Parents(path)
    {
      var found: seq<string> := [];
      var index := IndexOf(path, SLASH, 0);
      Found(path, SLASH, 0);
      while index < |path|
        invariant index <= |path| && (index < |path| ==> path[index] == '/')
        invariant forall i :: 0 <= i < index && path[i] == '/' ==> path[..i] in found && path[..i] !in files
        invariant forall p :: p in found ==> p in Parents(path)
        decreases |path| - index
      {
        var parent := path[..index];
        assert parent in Parents(path);
        if parent in files {
          return None;
        }
        found := found + [parent];
        Found(path, SLASH, index + 1);
        index := IndexOf(path, SLASH, index + 1);
      }
      return Some(found);
    }

    method Add(value: string) returns (r: AddResult)
      requires Valid()
      modifies this
      ensures Valid() && r == Verdict(normalize, old(files), value)
      ensures files == if r.Added? then old(files) + {value} else old(files)
    {
      if !IsArtifactPath(normalize, value) {
        return Invalid;
      }
      if value in files {
        return Duplicate;
      }
      FreeMeans(files, value);
      if value in directories {
        return Overlap;
      }
      var parents := AncestorsOf(value);
      if parents.None? {
        return Overlap;
      }
      AllParentsMore(files, value);
      OwnParent(value);
      files := files + {value};
      directories := directories + (set p | p in parents.value);
      return Added(value);
    }

    /** One path after the other, as `planArtifacts` does; the first refusal ends it. */
    method AddAll(values: seq<string>) returns (accepted: bool)
      requires Valid() && files == {}
      modifies this
      ensures Valid()
      ensures accepted <==> Acceptable(normalize, values)
      ensures accepted ==> files == (set v | v in values)
    {
      for i := 0 to |values|
        invariant Valid() && files == (set v | v in values[..i])
        invariant Acceptable(normalize, values[..i])
      {
        assert values[..i + 1] == values[..i] + [values[i]];
        AcceptableMore(normalize, values[..i], values[i]);
        var r := Add(values[i]);
        if !r.Added? {
          AcceptablePrefix(normalize, values, i + 1);
          return false;
        }
      }
      assert values[..|values|] == values;
      return true;
    }
  }

  lemma FreeMeans(files: set<string>, value: string)
    requires value !in files
    ensures FreeOf(files, value) <==> value !in AllParents(files) && Parents(value) !! files
  {
    forall f | f in files
      ensures (value in Parents(f) <==> Above(value, f)) && (f in Parents(value) <==> Above(f, value))
    {
      ParentsAreAbove(value, f);
      ParentsAreAbove(f, value);
    }
    if FreeOf(files, value) {
      forall f | f in files ensures value !in Parents(f) && f !in Parents(value) {
        assert !Conflict(f, value);
      }
    } else {
      var f :| f in files && Conflict(f, value);
    }
  }

  lemma OwnParent(value: string)
    ensures value !in Parents(value)
  {
    ParentsAreAbove(value, value);
  }

  // ---------------------------------------------------------- pairwise form

  predicate NoConflicts(values: seq<string>) {
    forall i, j :: 0 <= i < j < |values| ==> !Conflict(values[i], values[j])
  }

  /** Every path is normal, and no two of them are in each other's way. */
  predicate Acceptable(normalize: Normalizer, values: seq<string>) {
    && (forall i :: 0 <= i < |values| ==> IsArtifactPath(normalize, values[i]))
    && NoConflicts(values)
  }

  lemma AcceptableMore(normalize: Normalizer, values: seq<string>, value: string)
    requires Acceptable(normalize, values)
    ensures Acceptable(normalize, values + [value])
       <==> Verdict(normalize, (set v | v in values), value) == Added(value)
  {
    var more, files := values + [value], (set v | v in values);
    assert forall i :: 0 <= i < |values| ==> more[i] == values[i] && values[i] in files;
    assert more[|values|] == value;
    if Acceptable(normalize, more) {
      assert forall f :: f in files ==> exists i :: 0 <= i < |values| && values[i] == f;
      assert FreeOf(files, value);
    }
  }

  lemma AcceptablePrefix(normalize: Normalizer, values: seq<string>, n: nat)
    requires n <= |values|
    ensures Acceptable(normalize, values) ==> Acceptable(normalize, values[..n])
  {
  }

  /** The order in which the paths are given does not matter. */
  lemma OrderDoesNotMatter(normalize: Normalizer, a: seq<string>, b: seq<string>)
    requires multiset(a) == multiset(b) && Acceptable(normalize, a)
    ensures Acceptable(normalize, b)
  {
    forall i | 0 <= i < |b|
      ensures IsArtifactPath(normalize, b[i])
    {
      assert b[i] in multiset(b);
      assert b[i] in a;
    }
    forall i, j | 0 <= i < j < |b|
      ensures !Conflict(b[i], b[j])
    {
      if b[i] == b[j] {
        TwiceIn(b, i, j);
        OnceIn(a, b[i]);
      } else {
        assert b[i] in multiset(b) && b[j] in multiset(b);
        assert b[i] in a && b[j] in a;
      }
    }
  }

  lemma TwiceIn(s: seq<string>, i: nat, j: nat)
    requires i < j < |s| && s[i] == s[j]
    ensures multiset(s)[s[i]] >= 2
  {
    assert s == s[..j] + [s[j]] + s[j + 1..];
    assert s[..j] == s[..i] + [s[i]] + s[i + 1..j];
  }

  lemma {:induction false} OnceIn(s: seq<string>, x: string)
    requires NoConflicts(s)
    ensures multiset(s)[x] <= 1
    decreases |s|
  {
    if s != [] {
      var n := |s| - 1;
      assert s == s[..n] + [s[n]];
      OnceIn(s[..n], x);
      if s[n] == x {
        assert x !in s[..n];
        assert multiset(s[..n])[x] == 0;
      }
    }
  }

  // ----------------------------------------------------------------- staging

  function Components(path: string): (components: seq<string>)
    ensures components != []
  {
    Split(path, SLASH)
  }

  /**
   Where a path goes on disk: joining components drops the empty ones and the dots. (Steps
   upwards, which it resolves as well, do not occur in an accepted path.)
   */
  function OnDisk(path: string): seq<string> {
    Names(Components(path))
  }

  function Names(components: seq<string>): seq<string> {
    if components == [] then []
    else if components[0] == "" || components[0] == "." then Names(components[1..])
    else [components[0]] + Names(components[1..])
  }

  predicate OnlyNames(path: string) {
    "" !in Components(path) && "." !in Components(path)
  }

  lemma {:induction false} NothingDropped(components: seq<string>)
    requires "" !in components && "." !in components
    ensures Names(components) == components
    decreases |components|
  {
    if components != [] {
      assert components[0] in components;
      NothingDropped(components[1..]);
    }
  }

  lemma SameHead(h: string, s: string, k: string, t: string)
    requires '/' !in h && '/' !in k
    requires h + "/" + s == k + "/" + t || h + "/" + s <= k + "/" + t
    ensures h == k && s <= t && (h + "/" + s == k + "/" + t ==> s == t)
  {
    var a, b := h + "/" + s, k + "/" + t;
    assert a[|h|] == '/' && b[|k|] == '/' && b[|h|] == '/';
    assert forall i :: 0 <= i < |h| ==> a[i] == h[i] && h[i] != '/';
    assert forall i :: 0 <= i < |k| ==> b[i] == k[i] && k[i] != '/';
    assert |h| == |k|;
    assert h == a[..|h|] && k == b[..|k|];
    assert s == a[|h| + 1..] && t == b[|k| + 1..];
  }

  /** Being above a path is being a proper prefix of its components. */
  lemma {:induction false} AboveIsPrefix(dir: string, path: string)
    ensures Above(dir, path) <==> Components(dir) < Components(path)
    decreases |dir|
  {
    var h, s := Decompose(dir, SLASH);
    var k, t := Decompose(path, SLASH);
    hide Split;
    if t.None? {
      NotAboveOne(dir, path);
    } else if s.None? {
      AboveByHead(dir, k, t.value);
    } else {
      AboveIsPrefix(s.value, t.value);
      AboveByTail(h, s.value, k, t.value);
      assert ([h] + Components(s.value) < [k] + Components(t.value))
          <==> h == k && Components(s.value) < Components(t.value) by {
        PrefixByTail(h, Components(s.value), k, Components(t.value));
      }
    }
  }

  lemma PrefixByTail(h: string, s: seq<string>, k: string, t: seq<string>)
    ensures [h] + s < [k] + t <==> h == k && s < t
  {
    if h == k && s < t {
      assert ([k] + t)[..|[h] + s|] == [h] + s;
    }
    if [h] + s < [k] + t {
      assert ([h] + s)[0] == ([k] + t)[0];
      assert s == ([h] + s)[1..] && t == ([k] + t)[1..];
      assert s == t[..|s|];
    }
  }

  lemma NotAboveOne(dir: string, path: string)
    requires '/' !in path && |Components(dir)| >= 1 && Components(path) == [path]
    ensures !Above(dir, path) && !(Components(dir) < Components(path))
  {
    hide Components, Split;
    assert (dir + "/")[|dir|] == '/';
    assert forall i :: 0 <= i < |path| ==> path[i] != '/';
  }

  lemma AboveByHead(dir: string, k: string, t: string)
    requires '/' !in dir && '/' !in k && Components(dir) == [dir] && Components(k + "/" + t) == [k] + Components(t)
        && |Components(t)| >= 1
    ensures Above(dir, k + "/" + t) <==> Components(dir) < Components(k + "/" + t)
  {
    hide Components, Split;
    var path := k + "/" + t;
    if Above(dir, path) {
      assert dir + "/" == dir + "/" + "";
      SameHead(dir, "", k, t);
    }
    if Components(dir) < Components(path) {
      assert [dir][0] == ([k] + Components(t))[0];
      assert dir == k;
    }
  }

  lemma AboveByTail(h: string, s: string, k: string, t: string)
    requires '/' !in h && '/' !in k
    ensures Above(h + "/" + s, k + "/" + t) <==> h == k && Above(s, t)
  {
    assert (h + "/" + s) + "/" == h + "/" + (s + "/");
    if Above(h + "/" + s, k + "/" + t) {
      SameHead(h, s + "/", k, t);
    }
  }

  /** Different paths have different components. */
  lemma {:induction false} SplitIsInjective(p: string, q: string)
    requires Components(p) == Components(q)
    ensures p == q
    decreases |p|
  {
    var h, s := Decompose(p, SLASH);
    var k, t := Decompose(q, SLASH);
    assert s.Some? <==> |Components(p)| > 1;
    assert t.Some? <==> |Components(q)| > 1;
    assert Components(p)[0] == h && Components(q)[0] == k;
    if s.Some? {
      assert Components(s.value) == Components(p)[1..] && Components(t.value) == Components(q)[1..];
      SplitIsInjective(s.value, t.value);
    }
  }

  /** The directory tree under the staging root. */
  datatype Disk = Disk(files: set<seq<string>>, dirs: set<seq<string>>)

  /** Proper prefixes: the directories `mkdir` with `recursive` makes. */
  function Ancestors(c: seq<string>): set<seq<string>> {
    set i | 0 <= i < |c| :: c[..i]
  }

  /** `mkdir -p` of the directory and an exclusive create; `None` if something is in the way. */
  function Stage(disk: Disk, c: seq<string>): Option<Disk> {
    if !(Ancestors(c) !! disk.files) || c in disk.files || c in disk.dirs then None
    else Some(Disk(disk.files + {c}, disk.dirs + Ancestors(c)))
  }

  function StageAll(disk: Disk, paths: seq<string>): Option<Disk> {
    if paths == [] then Some(disk)
    else
      match StageAll(disk, paths[..|paths| - 1])
      case None => None
      case Some(next) => Stage(next, OnDisk(paths[|paths| - 1]))
  }

  const EMPTY_DISK: Disk := Disk({}, {[]})

  ghost predicate Staged(disk: Disk, paths: seq<string>) {
    && disk.files == (set p | p in paths :: OnDisk(p))
    && (forall d :: d in disk.dirs <==> d == [] || exists p :: p in paths && d in Ancestors(OnDisk(p)))
  }

  lemma AncestorsArePrefixes(d: seq<string>, c: seq<string>)
    ensures d in Ancestors(c) <==> d < c
  {
    if d < c {
      assert c[..|d|] == d;
    }
  }

  ghost predicate AllWhole(paths: seq<string>) {
    forall i :: 0 <= i < |paths| ==> OnlyNames(paths[i])
  }

  lemma WholeOnDisk(path: string)
    requires OnlyNames(path)
    ensures OnDisk(path) == Components(path)
  {
    NothingDropped(Components(path));
  }

  /** One more path can be staged exactly when it conflicts with none before it. */
  lemma StageOneMore(disk: Disk, paths: seq<string>, path: string)
    requires Staged(disk, paths) && AllWhole(paths) && OnlyNames(path)
    ensures Stage(disk, OnDisk(path)).Some? <==> forall i :: 0 <= i < |paths| ==> !Conflict(paths[i], path)
    ensures Stage(disk, OnDisk(path)).Some? ==> Staged(Stage(disk, OnDisk(path)).value, paths + [path])
  {
    var c := OnDisk(path);
    WholeOnDisk(path);
    forall i | 0 <= i < |paths|
      ensures paths[i] == path <==> OnDisk(paths[i]) == c
      ensures Above(paths[i], path) <==> OnDisk(paths[i]) in Ancestors(c)
      ensures Above(path, paths[i]) <==> c in Ancestors(OnDisk(paths[i]))
    {
      ConflictOnDisk(paths[i], path);
    }
    hide OnDisk, OnlyNames, Ancestors, Above;
    assert c != [];
    if Stage(disk, c).Some? {
      StagedMore(disk, paths, path);
    }
  }

  lemma StagedMore(disk: Disk, paths: seq<string>, path: string)
    requires Staged(disk, paths)
    ensures Staged(Disk(disk.files + {OnDisk(path)}, disk.dirs + Ancestors(OnDisk(path))), paths + [path])
  {
    var more := paths + [path];
    hide OnDisk, Ancestors;
    assert forall p :: p in more <==> p in paths || p == path;
  }

  lemma ConflictOnDisk(p: string, q: string)
    requires OnlyNames(p) && OnlyNames(q)
    ensures p == q <==> OnDisk(p) == OnDisk(q)
    ensures Above(p, q) <==> OnDisk(p) in Ancestors(OnDisk(q))
    ensures Above(q, p) <==> OnDisk(q) in Ancestors(OnDisk(p))
  {
    hide OnDisk, Ancestors, Above, OnlyNames;
    WholeOnDisk(p);
    WholeOnDisk(q);
    if Components(p) == Components(q) { SplitIsInjective(p, q); }
    hide Components, Split;
    AboveIsPrefix(p, q);
    AboveIsPrefix(q, p);
    AncestorsArePrefixes(Components(p), Components(q));
    AncestorsArePrefixes(Components(q), Components(p));
  }

  /** Paths of names alone can be staged, in the given order, exactly when none conflicts with another. */
  lemma {:induction false} StagingSucceedsIffNoConflicts(paths: seq<string>)
    requires AllWhole(paths)
    ensures StageAll(EMPTY_DISK, paths).Some? <==> NoConflicts(paths)
    ensures StageAll(EMPTY_DISK, paths).Some? ==> Staged(StageAll(EMPTY_DISK, paths).value, paths)
    decreases |paths|
  {
    hide Stage, OnDisk, Conflict, OnlyNames, Staged;
    if paths == [] {
      NothingStaged();
    } else {
      var n := |paths| - 1;
      StagingSucceedsIffNoConflicts(paths[..n]);
      NoConflictsMore(paths[..n], paths[n]);
      assert paths[..n] + [paths[n]] == paths;
      var before := StageAll(EMPTY_DISK, paths[..n]);
      if before.Some? {
        StageOneMore(before.value, paths[..n], paths[n]);
      }
    }
  }

  lemma NothingStaged()
    ensures Staged(EMPTY_DISK, [])
  {
  }

  lemma NoConflictsMore(paths: seq<string>, path: string)
    ensures NoConflicts(paths + [path]) <==> NoConflicts(paths) && forall i :: 0 <= i < |paths| ==>
        !Conflict(paths[i], path)
  {
    hide Conflict;
    var more := paths + [path];
    assert forall i :: 0 <= i < |paths| ==> more[i] == paths[i];
    assert more[|paths|] == path;
    if NoConflicts(more) {
      assert forall i :: 0 <= i < |paths| ==> !Conflict(more[i], more[|paths|]);
      assert forall i, j :: 0 <= i < j < |paths| ==> !Conflict(more[i], more[j]);
    }
  }

  // ------------------------------------------------------- normalized paths

  /**
   Of `path.posix.normalize`: a relative path that it leaves as it is has no empty component,
   except that it may end in a slash, dots only stand alone, and a step upwards is only
   behind other steps upwards.
   */
  ghost predicate NormalizesPosix(normalize: Normalizer) {
    forall p: string :: p != "" && p[0] != SLASH && normalize(p) == p ==>
      && "" !in Components(Trim(p))
      && ("." in Components(p) ==> p == "." || p == "./")
      && (".." in Components(p) ==> Components(p)[0] == "..")
  }

  predicate EndsInSlash(path: string) {
    path != "" && path[|path| - 1] == SLASH
  }

  function Trim(path: string): string {
    if EndsInSlash(path) then path[..|path| - 1] else path
  }

  function Trimmed(paths: seq<string>): seq<string> {
    seq(|paths|, i requires 0 <= i < |paths| => Trim(paths[i]))
  }

  lemma {:induction false} SplitTrailing(path: string)
    ensures Components(path + "/") == Components(path) + [""]
    decreases |path|
  {
    var head, tail := Decompose(path, SLASH);
    if tail.None? {
      assert path + "/" == head + "/" + "";
      SplitAt(head, SLASH, "");
      SplitOne("", SLASH);
    } else {
      assert path + "/" == head + "/" + (tail.value + "/");
      SplitAt(head, SLASH, tail.value + "/");
      SplitTrailing(tail.value);
    }
  }

  lemma {:induction false} DropTrailing(components: seq<string>)
    ensures Names(components + [""]) == Names(components)
    decreases |components|
  {
    var more := components + [""];
    if components == [] {
      assert more[1..] == [];
    } else {
      assert more[1..] == components[1..] + [""];
      DropTrailing(components[1..]);
    }
  }

  lemma SamePlace(path: string)
    ensures OnDisk(Trim(path)) == OnDisk(path)
  {
    if Trim(path) != path {
      assert path == Trim(path) + "/";
      SplitTrailing(Trim(path));
      DropTrailing(Components(Trim(path)));
    }
  }

  lemma {:induction false} StagedAsTrimmed(disk: Disk, paths: seq<string>)
    ensures StageAll(disk, Trimmed(paths)) == StageAll(disk, paths)
    decreases |paths|
  {
    if paths != [] {
      var n := |paths| - 1;
      assert Trimmed(paths)[..n] == Trimmed(paths[..n]);
      SamePlace(paths[n]);
      StagedAsTrimmed(disk, paths[..n]);
      hide Stage, OnDisk, Trim;
    }
  }

  lemma TrimmedComponents(path: string)
    ensures Components(path) == Components(Trim(path)) + (if Trim(path) != path then [""] else [])
  {
    if Trim(path) != path {
      assert path == Trim(path) + "/";
      SplitTrailing(Trim(path));
    }
  }

  /** Apart from its trailing slash an accepted path consists of names, unless it is the directory itself. */
  lemma AcceptedIsNames(normalize: Normalizer, path: string)
    requires NormalizesPosix(normalize) && IsArtifactPath(normalize, path) && path != "./"
    ensures OnlyNames(Trim(path))
  {
    hide Components, Trim, Utf16Length;
    TrimmedComponents(path);
  }

  ghost predicate AllAccepted(normalize: Normalizer, paths: seq<string>) {
    forall i :: 0 <= i < |paths| ==> IsArtifactPath(normalize, paths[i])
  }

  lemma TheDirectoryItself()
    ensures Components("./") == [".", ""] && OnDisk("./") == []
  {
    assert "./" == "." + [SLASH] + "";
    SplitAt(".", SLASH, "");
    SplitOne("", SLASH);
    assert [".", ""][1..] == [""] && [""][1..] == [];
  }

  /** The root exists, so nothing can be created in its place. */
  lemma {:induction false} RootIsInTheWay(paths: seq<string>)
    ensures var staged := StageAll(EMPTY_DISK, paths);
            staged.Some? ==> [] in staged.value.dirs && "./" !in paths
    decreases |paths|
  {
    if paths != [] {
      var n := |paths| - 1;
      RootIsInTheWay(paths[..n]);
      assert paths == paths[..n] + [paths[n]];
      TheDirectoryItself();
      hide OnDisk;
    }
  }

  lemma TrimmedAreNames(normalize: Normalizer, paths: seq<string>)
    requires NormalizesPosix(normalize) && AllAccepted(normalize, paths) && "./" !in paths
    ensures AllWhole(Trimmed(paths))
  {
    forall i | 0 <= i < |paths|
      ensures OnlyNames(Trimmed(paths)[i])
    {
      assert paths[i] in paths;
      AcceptedIsNames(normalize, paths[i]);
    }
  }

  /**
   Exactly when accepted paths can be staged: without their trailing slashes none conflicts
   with another, and none is the directory itself.
   */
  lemma StagingSucceedsIffTrimmedAgree(normalize: Normalizer, paths: seq<string>)
    requires NormalizesPosix(normalize) && AllAccepted(normalize, paths)
    ensures StageAll(EMPTY_DISK, paths).Some? <==> NoConflicts(Trimmed(paths)) && "./" !in paths
  {
    RootIsInTheWay(paths);
    if "./" !in paths {
      TrimmedAreNames(normalize, paths);
      hide NormalizesPosix, IsArtifactPath, OnlyNames, NoConflicts, StageAll, Trim;
      StagedAsTrimmed(EMPTY_DISK, paths);
      StagingSucceedsIffNoConflicts(Trimmed(paths));
    }
  }

  /** For accepted paths without a trailing slash the index decides exactly whether they can be staged. */
  lemma IndexAgreesWithStaging(normalize: Normalizer, paths: seq<string>)
    requires NormalizesPosix(normalize) && AllAccepted(normalize, paths)
    requires forall i :: 0 <= i < |paths| ==> !EndsInSlash(paths[i])
    ensures Acceptable(normalize, paths) <==> StageAll(EMPTY_DISK, paths).Some?
    ensures AllWhole(paths)
    ensures Acceptable(normalize, paths) ==> Staged(StageAll(EMPTY_DISK, paths).value, paths)
  {
    forall i | 0 <= i < |paths|
      ensures OnlyNames(paths[i])
    {
      assert EndsInSlash("./");
      AcceptedIsNames(normalize, paths[i]);
    }
    hide NormalizesPosix, IsArtifactPath, OnlyNames, StageAll, EndsInSlash, Staged;
    StagingSucceedsIffNoConflicts(paths);
  }

  lemma BothAreAccepted(normalize: Normalizer)
    requires normalize("a/") == "a/" && normalize("a/b") == "a/b"
    ensures NoConflicts(["a/", "a/b"]) && Acceptable(normalize, ["a/", "a/b"])
  {
    assert Utf16Length("") == 0;
    assert "/"[1..] == "" && "b"[1..] == "" && "a/"[1..] == "/" && "/b"[1..] == "b" && "a/b"[1..] == "/b";
    assert Utf16Length("/") == 1 && Utf16Length("b") == 1;
    assert Utf16Length("/b") == 2;
    assert Utf16Length("a/") == 2 && Utf16Length("a/b") == 3;
    assert ("a/" + "/")[1] == '/' && ("a/" + "/")[2] == '/' && "a/b"[2] == 'b';
    assert !Above("a/", "a/b") && !Above("a/b", "a/");
    assert "../"[0] == '.' && "a/"[0] == 'a' && "a/b"[0] == 'a';
  }

  /** A trailing slash is an empty component: such a path is accepted beside one below it, and staging then collides. */
  lemma TrailingSlashCollides(normalize: Normalizer)
    requires normalize("a/") == "a/" && normalize("a/b") == "a/b"
    ensures Acceptable(normalize, ["a/", "a/b"])
    ensures StageAll(EMPTY_DISK, ["a/", "a/b"]) == None
  {
    var paths := ["a/", "a/b"];
    assert NoConflicts(paths) && Acceptable(normalize, paths) by { BothAreAccepted(normalize); }
    hide Utf16Length, IsArtifactPath, Acceptable, NoConflicts;
    assert "a/" == "a" + "/" + "" && "a/b" == "a" + "/" + "b";
    SplitAt("a", SLASH, "");
    SplitAt("a", SLASH, "b");
    SplitOne("", SLASH);
    SplitOne("b", SLASH);
    assert OnDisk("a/") == ["a"] && OnDisk("a/b") == ["a", "b"] by {
      assert Names([]) == [];
      assert [""][1..] == [] && ["b"][1..] == [] && ["a", ""][1..] == [""] && ["a", "b"][1..] == ["b"];
    }
    assert paths[..1] == ["a/"] && paths[..1][..0] == [];
    assert StageAll(EMPTY_DISK, []) == Some(EMPTY_DISK);
    var first := Stage(EMPTY_DISK, ["a"]);
    assert StageAll(EMPTY_DISK, paths[..1]) == first;
    AncestorsArePrefixes(["a"], ["a", "b"]);
    assert first == None || ["a"] in first.value.files;
  }
}
