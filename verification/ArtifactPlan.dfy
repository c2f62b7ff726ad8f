/**
 `planArtifacts` of src/artifacts/workspace.ts: the request is checked before anything
 touches the disk. Of what it accepts the supervisor refuses long, deep and too many paths,
 and those that end in a slash: when an accepted plan is staged and then passes
 `validate_declared_outputs` of native/src/artifact.rs is stated exactly.
 */
module ArtifactPlanning {
  import opened Wrappers
  import opened UInt64
  import opened Text
  import opened ArtifactPaths
  import opened ArtifactTree
  import opened StagedTrees

  /** `maxBytes` as the caller gave it; `Invalid` is not a safe integer. */
  datatype Maximum = Absent | Given(bytes: int) | NotAnInteger

  datatype Input = Input(target: string, sourceOk: bool)
  datatype Output = Output(path: string, maximum: Maximum, requiredOk: bool)

  /** A planned output: its path and its hard maximum. */
  datatype Planned = Planned(path: string, maxBytes: u64)

  function MaximumBytes(o: Output, limits: OutputLimits): Option<u64> {
    match o.maximum
    case Absent => if limits.fileBytes > 0 then Some(limits.fileBytes) else None
    case Given(bytes) => if 0 < bytes <= limits.fileBytes then Some(bytes) else None
    case NotAnInteger => None
  }

  /** The maximum is the one given, or else that of every file, and only a positive one within that will do. */
  lemma MaximumMeans(o: Output, limits: OutputLimits, bytes: u64)
    ensures MaximumBytes(o, limits) == Some(bytes)
       <==> && 0 < bytes <= limits.fileBytes
            && (o.maximum == Given(bytes) || (o.maximum.Absent? && bytes == limits.fileBytes))
  {
  }

  function Targets(inputs: seq<Input>): seq<string> {
    seq(|inputs|, i requires 0 <= i < |inputs| => inputs[i].target)
  }

  function Paths(outputs: seq<Output>): seq<string> {
    seq(|outputs|, i requires 0 <= i < |outputs| => outputs[i].path)
  }

  predicate InputsOk(normalize: Normalizer, inputs: seq<Input>, maxInputs: u64) {
    && |inputs| <= maxInputs
    && (forall i :: 0 <= i < |inputs| ==> inputs[i].sourceOk)
    && Acceptable(normalize, Targets(inputs))
  }

  /** All maxima are valid and equal, and together they fit the limit. */
  predicate MaximaOk(outputs: seq<Output>, limits: OutputLimits) {
    outputs != [] ==>
      var uniform := MaximumBytes(outputs[0], limits);
      && uniform.Some?
      && (forall i :: 0 <= i < |outputs| ==> MaximumBytes(outputs[i], limits) == uniform)
      && |outputs| * uniform.value <= limits.bytes
  }

  predicate OutputsOk(normalize: Normalizer, outputs: seq<Output>, limits: OutputLimits) {
    && |outputs| <= limits.files
    && MaximaOk(outputs, limits)
    && (forall i :: 0 <= i < |outputs| ==> outputs[i].requiredOk)
    && Acceptable(normalize, Paths(outputs))
  }

  function PlanOf(outputs: seq<Output>, limits: OutputLimits): seq<Planned>
    requires forall i :: 0 <= i < |outputs| ==> MaximumBytes(outputs[i], limits).Some?
  {
    seq(|outputs|, i requires 0 <= i < |outputs| => Planned(outputs[i].path, MaximumBytes(outputs[i], limits).value))
  }

  lemma PathsMore(outputs: seq<Output>, i: nat)
    requires i < |outputs|
    ensures Paths(outputs[..i + 1]) == Paths(outputs[..i]) + [outputs[i].path]
  {
  }

  lemma PathsPrefix(normalize: Normalizer, outputs: seq<Output>, i: nat)
    requires i <= |outputs| && !Acceptable(normalize, Paths(outputs[..i]))
    ensures !Acceptable(normalize, Paths(outputs))
  {
    assert Paths(outputs)[..i] == Paths(outputs[..i]);
    hide Acceptable;
    AcceptablePrefix(normalize, Paths(outputs), i);
  }

  method PlanInputs(normalize: Normalizer, inputs: seq<Input>, maxInputs: u64) returns (ok: bool)
    ensures ok <==> InputsOk(normalize, inputs, maxInputs)
  {
    if |inputs| > maxInputs as int {
      return false;
    }
    if exists i :: 0 <= i < |inputs| && !inputs[i].sourceOk {
      return false;
    }
    var tree := new PathTree(normalize);
    ok := tree.AddAll(Targets(inputs));
  }

  method PlanOutputs(normalize: Normalizer, outputs: seq<Output>, limits: OutputLimits)
      returns (planned: Option<seq<Planned>>)
    ensures planned.Some? <==> OutputsOk(normalize, outputs, limits)
    ensures planned.Some? ==> planned.value == PlanOf(outputs, limits)
  {
    if |outputs| > limits.files as int {
      return None;
    }
    var tree := new PathTree(normalize);
    var plan: seq<Planned> := [];
    var declaredBytes := 0;
    var uniform: Option<u64> := None;
    hide Acceptable, Verdict, PathTree.Valid;
    for i := 0 to |outputs|
      invariant fresh(tree) && tree.normalize == normalize && tree.Valid()
      invariant tree.files == (set v | v in Paths(outputs[..i]))
      invariant Acceptable(normalize, Paths(outputs[..i]))
      invariant forall j :: 0 <= j < i ==>
          MaximumBytes(outputs[j], limits) == uniform && uniform.Some? && outputs[j].requiredOk
      invariant i == 0 ==> uniform == None && declaredBytes == 0
      invariant i > 0 ==> uniform.Some? && declaredBytes == i * uniform.value && declaredBytes <= limits.bytes
      invariant |plan| == i && forall j :: 0 <= j < i ==>
          plan[j] == Planned(outputs[j].path, MaximumBytes(outputs[j], limits).value)
    {
      var output := outputs[i];
      PathsMore(outputs, i);
      AcceptableMore(normalize, Paths(outputs[..i]), output.path);
      var maximum := MaximumBytes(output, limits);
      if maximum.None? {
        return None;
      }
      if uniform.None? {
        uniform := maximum;
      }
      if maximum != uniform {
        return None;
      }
      Times(i, maximum.value);
      TimesGrows(i + 1, |outputs|, maximum.value);
      declaredBytes := declaredBytes + maximum.value;
      if declaredBytes > limits.bytes {
        return None;
      }
      if !output.requiredOk {
        return None;
      }
      var added := tree.Add(output.path);
      AddedMeans(normalize, (set v | v in Paths(outputs[..i])), output.path);
      if !added.Added? {
        PathsPrefix(normalize, outputs, i + 1);
        return None;
      }
      plan := plan + [Planned(output.path, maximum.value)];
    }
    assert outputs[..|outputs|] == outputs;
    return Some(plan);
  }

  lemma AddedMeans(normalize: Normalizer, files: set<string>, path: string)
    ensures Verdict(normalize, files, path).Added? <==> Verdict(normalize, files, path) == Added(path)
  {
  }

  // --------------------------------------------------- the supervisor's view

  /** Rust's string length: UTF-8 bytes. */
  function Utf8Length(s: string): nat {
    if s == "" then 0
    else
      var u := s[0] as int;
      (if u < 0x80 then 1 else if u < 0x800 then 2 else if u < 0x10000 then 3 else 4) + Utf8Length(s[1..])
  }

  /**
   The supervisor's own path check. Rust's `components` leaves out empty components, and
   dots except in front.
   */
  predicate SupervisorPathOk(path: string) {
    && path != "" && Utf8Length(path) <= 1024 && '\\' !in path && path[0] != '/'
    && Components(path)[0] != "." && ".." !in Components(path)
  }

  lemma UpwardInFront(path: string)
    requires Components(path)[0] == ".."
    ensures path == ".." || "../" <= path
  {
    var head, tail := Decompose(path, SLASH);
    hide Split;
    assert head == "..";
    if tail.Some? {
      assert path == "../" + tail.value;
    }
  }

  /** A path the client accepts passes the supervisor's check unless it is the directory itself or too long in bytes. */
  lemma SamePathOnBothSides(normalize: Normalizer, path: string)
    requires NormalizesPosix(normalize) && IsArtifactPath(normalize, path)
    ensures SupervisorPathOk(path) <==> Utf8Length(path) <= 1024 && path != "./"
  {
    hide Split, Utf8Length, Utf16Length;
    if Components(path)[0] == ".." {
      UpwardInFront(path);
    }
    if path == "./" {
      assert path == "." + [SLASH] + "";
      SplitAt(".", SLASH, "");
    }
  }

  /** The client accepts the directory itself as an output; the supervisor does not. */
  lemma TheDirectoryItselfIsPlanned(normalize: Normalizer)
    requires normalize("./") == "./"
    ensures IsArtifactPath(normalize, "./") && !SupervisorPathOk("./")
  {
    assert Utf16Length("") == 0 && "/"[1..] == "" && "./"[1..] == "/";
    assert Utf16Length("/") == 1;
    assert Utf16Length("./") == 2;
    assert "./"[1] == '/' && "../"[1] == '.';
    assert "./" == "." + [SLASH] + "";
    SplitAt(".", SLASH, "");
  }

  /** An empty regular file with one link at the place of a path; a slash behind a file's name finds nothing. */
  predicate FoundEmpty(root: seq<Entry>, path: string) {
    && !EndsInSlash(path)
    && exists i :: 0 <= i < |Items([], root)| && IsEmptyFile(Items([], root)[i], OnDisk(path))
  }

  predicate IsEmptyFile(item: Item, place: Path) {
    item.path == place && item.kind.Regular? && item.kind.size == 0 && item.kind.links == 1
  }

  /** What the supervisor finds for a planned output in the output directory. */
  function Sent(p: Planned, root: seq<Entry>): Declared {
    Declared(p.path, SupervisorPathOk(p.path), Some(p.maxBytes), FoundEmpty(root, p.path))
  }

  function AllSent(plan: seq<Planned>, root: seq<Entry>): seq<Declared> {
    seq(|plan|, i requires 0 <= i < |plan| => Sent(plan[i], root))
  }

  /** On the tree that staging left, the supervisor finds a path exactly when it was staged and has no slash behind. */
  lemma FoundIffStaged(root: seq<Entry>, disk: Disk, blockSize: u64, path: string)
    requires Shows(root, disk, blockSize)
    ensures FoundEmpty(root, path) <==> !EndsInSlash(path) && OnDisk(path) in disk.files
  {
    var items := Items([], root);
    DiskEntries(root, disk, blockSize, items);
    hide Items, OnDisk, EndsInSlash, Shows;
    if OnDisk(path) in disk.files {
      assert EmptyFile(OnDisk(path), blockSize) in FileItems(disk.files, blockSize);
      assert EmptyFile(OnDisk(path), blockSize) in items;
    }
    if i :| 0 <= i < |items| && IsEmptyFile(items[i], OnDisk(path)) {
      assert items[i] in items;
    }
  }

  lemma SentAt(outputs: seq<Output>, limits: OutputLimits, root: seq<Entry>, i: nat)
    requires i < |outputs| && forall j :: 0 <= j < |outputs| ==> MaximumBytes(outputs[j], limits).Some?
    ensures var items := AllSent(PlanOf(outputs, limits), root); var path := outputs[i].path;
      |items| == |outputs| && items[i].path == path && items[i].maxBytes == MaximumBytes(outputs[i], limits)
      && items[i].normal == SupervisorPathOk(path) && items[i].safe == FoundEmpty(root, path)
  {
  }

  lemma SentIsDistinct(outputs: seq<Output>, limits: OutputLimits, root: seq<Entry>)
    requires forall i :: 0 <= i < |outputs| ==> MaximumBytes(outputs[i], limits).Some?
    requires NoConflicts(Paths(outputs))
    ensures Distinct(AllSent(PlanOf(outputs, limits), root))
  {
    var items := AllSent(PlanOf(outputs, limits), root);
    hide Conflict, SupervisorPathOk, FoundEmpty, MaximumBytes;
    forall i, j | 0 <= i < j < |items|
      ensures items[i].path != items[j].path
    {
      assert !Conflict(Paths(outputs)[i], Paths(outputs)[j]);
      ConflictsWithItself(items[i].path);
    }
  }

  lemma NormalOnBothSides(normalize: Normalizer, outputs: seq<Output>, limits: OutputLimits, i: nat)
    requires NormalizesPosix(normalize) && OutputsOk(normalize, outputs, limits) && i < |outputs|
    ensures var path := outputs[i].path;
      SupervisorPathOk(path) <==> Utf8Length(path) <= 1024 && path != "./"
  {
    assert IsArtifactPath(normalize, Paths(outputs)[i]);
    hide IsArtifactPath, SupervisorPathOk, NormalizesPosix, Utf8Length;
    SamePathOnBothSides(normalize, outputs[i].path);
  }

  /** Counts, maxima, totals and duplicates that the client accepts never fail the supervisor's check. */
  lemma DeclarationsAgree(normalize: Normalizer, outputs: seq<Output>, limits: OutputLimits, root: seq<Entry>)
    requires NormalizesPosix(normalize) && OutputsOk(normalize, outputs, limits)
    ensures DeclarationsOk(AllSent(PlanOf(outputs, limits), root), limits)
       <==> forall i :: 0 <= i < |outputs| ==>
              && Utf8Length(outputs[i].path) <= 1024 && outputs[i].path != "./"
              && FoundEmpty(root, outputs[i].path)
  {
    var items := AllSent(PlanOf(outputs, limits), root);
    SentIsDistinct(outputs, limits, root);
    forall i | 0 <= i < |outputs|
      ensures items[i].normal <==> Utf8Length(outputs[i].path) <= 1024 && outputs[i].path != "./"
      ensures items[i].safe == FoundEmpty(root, outputs[i].path)
      ensures items[i].maxBytes == MaximumBytes(outputs[i], limits)
    {
      NormalOnBothSides(normalize, outputs, limits, i);
      SentAt(outputs, limits, root, i);
      hide *;
    }
    assert |items| == |outputs|;
    hide Utf8Length, SupervisorPathOk, NormalizesPosix, FoundEmpty, AllSent, PlanOf, Acceptable, Distinct;
    if outputs != [] {
      var uniform := MaximumBytes(outputs[0], limits).value;
      forall i | 0 <= i < |items|
        ensures DeclaredOk(items[i], limits, uniform) <==> items[i].normal && items[i].safe
      {
        assert MaximumBytes(outputs[i], limits) == MaximumBytes(outputs[0], limits);
      }
    }
  }

  /** The directories that the outputs need. */
  function Directories(outputs: seq<Output>): set<string> {
    AllParents(set p | p in Paths(outputs))
  }

  /** What a caller can check of a plan before anything is staged. */
  predicate Portable(path: string) {
    Utf8Length(path) <= 1024 && !EndsInSlash(path) && Shallow(path)
  }

  /** Staged in order, and accepted by the supervisor in the directory that `root` lists. */
  predicate StagedAndValidated(outputs: seq<Output>, limits: OutputLimits, root: seq<Entry>)
    requires forall i :: 0 <= i < |outputs| ==> MaximumBytes(outputs[i], limits).Some?
  {
    && StageAll(EMPTY_DISK, Paths(outputs)).Some?
    && ValidationOk(AllSent(PlanOf(outputs, limits), root), limits, root)
  }

  predicate NoSlashBehind(outputs: seq<Output>) {
    forall i :: 0 <= i < |outputs| ==> !EndsInSlash(outputs[i].path)
  }

  /** Without trailing slashes what the client accepts can be staged. */
  lemma PlanOnDisk(normalize: Normalizer, outputs: seq<Output>, limits: OutputLimits) returns (disk: Disk)
    requires NormalizesPosix(normalize) && OutputsOk(normalize, outputs, limits) && NoSlashBehind(outputs)
    ensures StageAll(EMPTY_DISK, Paths(outputs)) == Some(disk)
    ensures Staged(disk, Paths(outputs)) && AllWhole(Paths(outputs)) && NoConflicts(Paths(outputs))
  {
    hide NormalizesPosix, IsArtifactPath, EndsInSlash, StageAll, Staged, OnlyNames, MaximaOk;
    IndexAgreesWithStaging(normalize, Paths(outputs));
    disk := StageAll(EMPTY_DISK, Paths(outputs)).value;
  }

  predicate AllFound(outputs: seq<Output>, root: seq<Entry>) {
    forall i :: 0 <= i < |outputs| ==> outputs[i].path != "./" && FoundEmpty(root, outputs[i].path)
  }

  lemma PlanIsFound(outputs: seq<Output>, root: seq<Entry>, disk: Disk, blockSize: u64)
    requires Shows(root, disk, blockSize) && Staged(disk, Paths(outputs)) && NoSlashBehind(outputs)
    ensures AllFound(outputs, root)
  {
    forall i | 0 <= i < |outputs|
      ensures outputs[i].path != "./" && FoundEmpty(root, outputs[i].path)
    {
      FoundIffStaged(root, disk, blockSize, outputs[i].path);
      assert Paths(outputs)[i] in Paths(outputs);
      assert EndsInSlash("./");
      hide OnDisk, FoundEmpty, Shows, EndsInSlash;
    }
  }

  predicate AllShallow(outputs: seq<Output>) {
    forall i :: 0 <= i < |outputs| ==> Shallow(outputs[i].path)
  }

  predicate InspectionOk(outputs: seq<Output>, limits: OutputLimits, root: seq<Entry>) {
    && Inspected(EmptyLimits(limits), root).Some?
    && |Inspected(EmptyLimits(limits), root).value| == |outputs|
  }

  lemma PlanInspected(outputs: seq<Output>, limits: OutputLimits, root: seq<Entry>, disk: Disk, blockSize: u64)
    requires Shows(root, disk, blockSize) && Staged(disk, Paths(outputs))
    requires AllWhole(Paths(outputs)) && NoConflicts(Paths(outputs)) && |outputs| <= limits.files
    ensures InspectionOk(outputs, limits, root)
       <==> AllShallow(outputs) && |outputs| + |Directories(outputs)| <= MaxEntries(EmptyLimits(limits))
  {
    hide Shows, Staged, AllWhole, NoConflicts, Inspected, Shallow, NotTooDeep, MaxEntries, AllParents;
    StagedTreeInspectedIff(EmptyLimits(limits), root, disk, blockSize);
    StagedCounts(disk, Paths(outputs));
    StagedDepth(disk, Paths(outputs));
    assert forall i :: 0 <= i < |outputs| ==> Paths(outputs)[i] == outputs[i].path;
  }

  /**
   Exactly when what the client planned is staged and then passes the supervisor's
   validation: no path is too long in bytes, ends in a slash or is too deep, and files and
   directories together are not too many entries.
   */
  lemma PlannedOutputsAreValidated(
      normalize: Normalizer, outputs: seq<Output>, limits: OutputLimits, root: seq<Entry>, blockSize: u64)
    requires NormalizesPosix(normalize) && OutputsOk(normalize, outputs, limits)
    requires var staged := StageAll(EMPTY_DISK, Paths(outputs)); staged.Some? ==> Shows(root, staged.value, blockSize)
    ensures StagedAndValidated(outputs, limits, root)
       <==> && (forall i :: 0 <= i < |outputs| ==> Portable(outputs[i].path))
            && |outputs| + |Directories(outputs)| <= MaxEntries(EmptyLimits(limits))
  {
    DeclarationsAgree(normalize, outputs, limits, root);
    assert |AllSent(PlanOf(outputs, limits), root)| == |outputs|;
    hide DeclarationsOk, Inspected, Utf8Length, Shallow, MaxEntries, Directories, NormalizesPosix, OutputsOk, StageAll;
    hide PlanOf, AllSent, Paths, Shows, AllWhole, NoConflicts, Staged, EndsInSlash;
    if NoSlashBehind(outputs) {
      hide FoundEmpty;
      var disk := PlanOnDisk(normalize, outputs, limits);
      PlanIsFound(outputs, root, disk, blockSize);
      PlanInspected(outputs, limits, root, disk, blockSize);
    }
  }

  lemma ConflictsWithItself(path: string)
    ensures Conflict(path, path)
  {
  }
}
