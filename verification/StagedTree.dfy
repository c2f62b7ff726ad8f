/**
 The tree that staging leaves on disk (`prepareWorkspace` of src/artifacts/workspace.ts) as
 the supervisor lists it (`inspect_tree` of native/src/artifact.rs): empty files with one
 link, and the directories above them.
 */
module StagedTrees {
  import opened Wrappers
  import opened UInt64
  import opened Text
  import opened ArtifactPaths
  import opened ArtifactTree
  import opened ArtifactOrder

  function EmptyFile(path: Path, blockSize: u64): Item {
    Item(path, Regular(0, 1, 0, blockSize))
  }

  /** The root itself is not among its entries. */
  function DirItems(dirs: set<Path>): set<Item> {
    set d | d in dirs && d != [] :: Item(d, Directory)
  }

  function FileItems(files: set<Path>, blockSize: u64): set<Item> {
    set f | f in files :: EmptyFile(f, blockSize)
  }

  /** `root` lists what is on disk, in any order. */
  ghost predicate Shows(root: seq<Entry>, disk: Disk, blockSize: u64) {
    multiset(Items([], root)) == multiset(DirItems(disk.dirs)) + multiset(FileItems(disk.files, blockSize))
  }

  // --------------------------------------------------------------- counting

  lemma {:induction false} DirSequence(dirs: set<Path>) returns (items: seq<Item>)
    requires [] !in dirs
    ensures multiset(items) == multiset(DirItems(dirs)) && |items| == |dirs| && Sum(Files, items) == 0
    decreases |dirs|
  {
    if dirs == {} {
      items := [];
      assert DirItems(dirs) == {};
    } else {
      var d :| d in dirs;
      var rest := DirSequence(dirs - {d});
      items := rest + [Item(d, Directory)];
      SumConcat(Files, rest, [Item(d, Directory)]);
      assert DirItems(dirs) == DirItems(dirs - {d}) + {Item(d, Directory)};
    }
  }

  lemma {:induction false} FileSequence(files: set<Path>, blockSize: u64) returns (items: seq<Item>)
    ensures multiset(items) == multiset(FileItems(files, blockSize))
    ensures |items| == |files| && Sum(Files, items) == |files|
    decreases |files|
  {
    if files == {} {
      items := [];
      assert FileItems(files, blockSize) == {};
    } else {
      var f :| f in files;
      var rest := FileSequence(files - {f}, blockSize);
      items := rest + [EmptyFile(f, blockSize)];
      SumConcat(Files, rest, [EmptyFile(f, blockSize)]);
      assert FileItems(files, blockSize) == FileItems(files - {f}, blockSize) + {EmptyFile(f, blockSize)};
    }
  }

  /** As many entries as there are files and directories, and as many files. */
  lemma DiskCounts(root: seq<Entry>, disk: Disk, blockSize: u64)
    requires Shows(root, disk, blockSize)
    ensures |Items([], root)| == |disk.files| + |disk.dirs - {[]}|
    ensures Sum(Files, Items([], root)) == |disk.files|
  {
    var dirs := DirSequence(disk.dirs - {[]});
    var files := FileSequence(disk.files, blockSize);
    assert DirItems(disk.dirs - {[]}) == DirItems(disk.dirs);
    hide DirItems, FileItems, Items, Sum;
    SumConcat(Files, dirs, files);
    PermutedTotals(Limits(0, 0, 0, true), Items([], root), dirs + files);
    assert |multiset(Items([], root))| == |multiset(dirs + files)|;
  }

  predicate EmptyOrDirectory(items: seq<Item>) {
    forall i :: 0 <= i < |items| ==>
        items[i].kind.Directory? || (items[i].kind.Regular? && items[i].kind.size == 0 && items[i].kind.blocks == 0)
  }

  lemma {:induction false} NothingStored(items: seq<Item>)
    requires EmptyOrDirectory(items)
    ensures Sum(Bytes, items) == 0 && Sum(Blocks, items) == 0
    decreases |items|
  {
    if items != [] {
      NothingStored(items[..|items| - 1]);
    }
  }

  /** Which entries a listing of the disk has. */
  lemma DiskEntries(root: seq<Entry>, disk: Disk, blockSize: u64, items: seq<Item>)
    requires Shows(root, disk, blockSize) && multiset(items) == multiset(Items([], root))
    ensures forall item :: item in items <==> item in DirItems(disk.dirs) || item in FileItems(disk.files, blockSize)
    ensures EmptyOrDirectory(items)
  {
    forall item
      ensures item in items <==> item in DirItems(disk.dirs) || item in FileItems(disk.files, blockSize)
    {
      hide DirItems, FileItems, Items;
      assert item in items <==> item in multiset(items);
    }
    hide Items;
    forall i | 0 <= i < |items|
      ensures items[i] in DirItems(disk.dirs) || items[i] in FileItems(disk.files, blockSize)
    {
      assert items[i] in items;
    }
  }

  predicate NotTooDeep(disk: Disk) {
    forall d :: d in disk.dirs ==> |d| <= MAX_ARTIFACT_DEPTH
  }

  lemma EntriesAreOk(limits: Limits, root: seq<Entry>, disk: Disk, blockSize: u64)
    requires Shows(root, disk, blockSize)
    ensures (forall i :: 0 <= i < |Items([], root)| ==> EntryOk(limits, Items([], root)[i])) <==> NotTooDeep(disk)
  {
    var items := Items([], root);
    DiskEntries(root, disk, blockSize, items);
    hide Items, Shows;
    if forall i :: 0 <= i < |items| ==> EntryOk(limits, items[i]) {
      forall d | d in disk.dirs
        ensures |d| <= MAX_ARTIFACT_DEPTH
      {
        if d != [] {
          var item := Item(d, Directory);
          assert item in DirItems(disk.dirs);
          assert item in items;
          assert EntryOk(limits, item);
        }
      }
    }
    if NotTooDeep(disk) {
      forall i | 0 <= i < |items|
        ensures EntryOk(limits, items[i])
      {
        assert items[i] in items;
      }
    }
  }

  lemma AllPrefixesFit(limits: Limits, items: seq<Item>)
    requires EmptyOrDirectory(items)
    ensures EveryPrefixFits(limits, items)
  {
    forall n | 0 <= n <= |items|
      ensures BlocksFit(limits, items[..n])
    {
      NothingStored(items[..n]);
    }
  }

  lemma InspectedFiles(limits: Limits, root: seq<Entry>)
    requires Inspected(limits, root).Some?
    ensures |Inspected(limits, root).value| == Sum(Files, Items([], root))
  {
    TreeOrderIsComplete(root);
    ScanTotals(limits, TreeOrder(root));
    hide Items, TreeOrder, Scan, Sum;
    PermutedTotals(limits, TreeOrder(root), Items([], root));
  }

  /** The inspection of a staged tree only counts entries and files, and looks how deep the directories are. */
  lemma StagedTreeInspectedIff(limits: Limits, root: seq<Entry>, disk: Disk, blockSize: u64)
    requires Shows(root, disk, blockSize)
    ensures Inspected(limits, root).Some?
       <==> && |disk.files| + |disk.dirs - {[]}| <= MaxEntries(limits)
            && |disk.files| <= limits.maxFiles
            && NotTooDeep(disk)
    ensures Inspected(limits, root).Some? ==> |Inspected(limits, root).value| == |disk.files|
  {
    var items, order := Items([], root), TreeOrder(root);
    TreeOrderIsComplete(root);
    DiskEntries(root, disk, blockSize, order);
    DiskEntries(root, disk, blockSize, items);
    EntriesAreOk(limits, root, disk, blockSize);
    hide Items, TreeOrder, EmptyOrDirectory, NotTooDeep, MaxEntries, EntryOk, Sum, Inspected;
    hide Shows, DirItems, FileItems;
    DiskCounts(root, disk, blockSize);
    NothingStored(items);
    AllPrefixesFit(limits, order);
    InspectedIffEveryPrefixFits(limits, root);
    if Inspected(limits, root).Some? {
      InspectedFiles(limits, root);
    }
  }

  // ------------------------------------------------- every disk has a listing

  /** Directories are trees, empty ones as well. */
  predicate Plain(entries: seq<Entry>)
    decreases entries
  {
    entries != [] ==> PlainEntry(entries[0]) && Plain(entries[1..])
  }

  predicate PlainEntry(entry: Entry)
    decreases entry
  {
    if entry.node.Tree? then Plain(entry.node.entries) else !entry.node.kind.Directory?
  }

  lemma PlainCons(first: Entry, rest: seq<Entry>)
    ensures Plain([first] + rest) <==> PlainEntry(first) && Plain(rest)
  {
    assert ([first] + rest)[1..] == rest;
  }

  /** `more` has the entries that were there before and one more. */
  ghost predicate Grown(at: Path, more: seq<Entry>, before: seq<Entry>, item: Item) {
    multiset(Items(at, more)) == multiset(Items(at, before)) + multiset{item}
  }

  predicate New(entry: Entry) {
    entry.node == Tree([]) || (entry.node.Leaf? && !entry.node.kind.Directory?)
  }

  lemma GrownHere(at: Path, entries: seq<Entry>, entry: Entry)
    requires New(entry)
    ensures Grown(at, [entry] + entries, entries, ItemOf(at, entry))
  {
    ItemsHead(at, entry, entries);
    if entry.node.Tree? {
      AllItemsOne(Listing(at + [entry.name], []));
    }
    assert AllItems(SubOf(at, entry)) == [];
    hide Items, AllItems;
  }

  lemma GrownBehind(at: Path, first: Entry, rest: seq<Entry>, grown: seq<Entry>, item: Item)
    requires Grown(at, grown, rest, item)
    ensures Grown(at, [first] + grown, [first] + rest, item)
  {
    ItemsHead(at, first, rest);
    ItemsHead(at, first, grown);
    hide Items, AllItems, SubOf, ItemOf;
  }

  lemma GrownBelow(at: Path, name: string, inside: seq<Entry>, grown: seq<Entry>, rest: seq<Entry>, item: Item)
    requires Grown(at + [name], grown, inside, item)
    ensures Grown(at, [Entry(name, Tree(grown))] + rest, [Entry(name, Tree(inside))] + rest, item)
  {
    ItemsHead(at, Entry(name, Tree(inside)), rest);
    ItemsHead(at, Entry(name, Tree(grown)), rest);
    AllItemsOne(Listing(at + [name], inside));
    AllItemsOne(Listing(at + [name], grown));
    hide Items, AllItems;
  }

  /** A directory of the tree is among the later entries, or it is the first entry or below it. */
  lemma WhereItIs(at: Path, first: Entry, rest: seq<Entry>, dir: Path)
    requires Item(dir, Directory) in Items(at, [first] + rest) && PlainEntry(first)
    ensures || Item(dir, Directory) in Items(at, rest)
            || (first.node.Tree?
                && (dir == at + [first.name] || Item(dir, Directory) in Items(at + [first.name], first.node.entries)))
  {
    ItemsHead(at, first, rest);
    if first.node.Tree? {
      AllItemsOne(Listing(at + [first.name], first.node.entries));
    } else {
      assert AllItems([]) == [];
    }
    hide Items, AllItems;
  }

  /** One more entry in a directory of the tree. */
  lemma {:induction false} Graft(at: Path, entries: seq<Entry>, dir: Path, entry: Entry) returns (more: seq<Entry>)
    requires Plain(entries) && New(entry) && (dir == at || Item(dir, Directory) in Items(at, entries))
    ensures Plain(more) && Grown(at, more, entries, ItemOf(dir, entry))
    decreases entries
  {
    hide Items, Grown, ItemOf, Plain;
    if dir == at {
      more := [entry] + entries;
      GrownHere(at, entries, entry);
      PlainNew(entry);
      PlainCons(entry, entries);
    } else {
      HasEntries(at, entries, dir);
      var first, rest := entries[0], entries[1..];
      assert entries == [first] + rest;
      PlainCons(first, rest);
      WhereItIs(at, first, rest, dir);
      if Item(dir, Directory) in Items(at, rest) {
        var grown := Graft(at, rest, dir, entry);
        more := [first] + grown;
        GrownBehind(at, first, rest, grown, ItemOf(dir, entry));
        PlainCons(first, grown);
      } else {
        var grown := Graft(at + [first.name], first.node.entries, dir, entry);
        var node := Entry(first.name, Tree(grown));
        assert first == Entry(first.name, Tree(first.node.entries));
        more := [node] + rest;
        GrownBelow(at, first.name, first.node.entries, grown, rest, ItemOf(dir, entry));
        PlainCons(node, rest);
      }
    }
  }

  lemma HasEntries(at: Path, entries: seq<Entry>, dir: Path)
    requires Item(dir, Directory) in Items(at, entries)
    ensures entries != []
  {
  }

  lemma PlainNew(entry: Entry)
    requires New(entry)
    ensures PlainEntry(entry)
  {
  }

  lemma {:induction false} Deepest(dirs: set<Path>) returns (d: Path)
    requires dirs != {}
    ensures d in dirs && forall e :: e in dirs ==> |e| <= |d|
    decreases |dirs|
  {
    d :| d in dirs;
    if dirs - {d} != {} {
      var other := Deepest(dirs - {d});
      d := if |other| > |d| then other else d;
    }
  }

  ghost predicate Closed(dirs: set<Path>) {
    [] in dirs && forall d :: d in dirs ==> Ancestors(d) <= dirs
  }

  lemma ParentIsAncestor(d: Path)
    requires d != []
    ensures d[..|d| - 1] in Ancestors(d)
  {
  }

  lemma ClosedWithout(dirs: set<Path>, d: Path)
    requires Closed(dirs) && d != [] && forall e :: e in dirs ==> |e| <= |d|
    ensures Closed(dirs - {d})
  {
    forall e, a | e in dirs - {d} && a in Ancestors(e)
      ensures a in dirs - {d}
    {
      assert |a| < |e|;
    }
  }

  /** A new entry in one of the directories that a tree shows. */
  lemma GraftOn(root: seq<Entry>, dirs: set<Path>, files: set<Item>, path: Path, node: Node) returns (more: seq<Entry>)
    requires Plain(root) && multiset(Items([], root)) == multiset(DirItems(dirs)) + multiset(files)
    requires path != [] && path[..|path| - 1] in dirs && New(Entry("", node))
    ensures Plain(more)
    ensures multiset(Items([], more)) == multiset(Items([], root)) + multiset{Item(path, KindOf(node))}
  {
    var n := |path| - 1;
    if path[..n] != [] {
      assert Item(path[..n], Directory) in DirItems(dirs);
      assert Item(path[..n], Directory) in multiset(Items([], root));
    }
    assert path == path[..n] + [path[n]];
    hide Items, Plain, DirItems;
    more := Graft([], root, path[..n], Entry(path[n], node));
  }

  lemma OneMoreDir(dirs: set<Path>, d: Path)
    requires d in dirs && d != []
    ensures multiset(DirItems(dirs)) == multiset(DirItems(dirs - {d})) + multiset{Item(d, Directory)}
  {
    assert DirItems(dirs) == DirItems(dirs - {d}) + {Item(d, Directory)};
  }

  lemma OneMoreFile(files: set<Path>, f: Path, blockSize: u64)
    requires f in files
    ensures multiset(FileItems(files, blockSize))
         == multiset(FileItems(files - {f}, blockSize)) + multiset{EmptyFile(f, blockSize)}
  {
    assert FileItems(files, blockSize) == FileItems(files - {f}, blockSize) + {EmptyFile(f, blockSize)};
  }

  lemma {:induction false} DirsHaveListing(dirs: set<Path>) returns (root: seq<Entry>)
    requires Closed(dirs)
    ensures Plain(root) && multiset(Items([], root)) == multiset(DirItems(dirs))
    decreases |dirs|
  {
    if dirs == {[]} {
      root := [];
      assert DirItems(dirs) == {};
    } else {
      assert dirs == {[]} + (dirs - {[]});
      var d := Deepest(dirs - {[]});
      ClosedWithout(dirs, d);
      ParentIsAncestor(d);
      OneMoreDir(dirs, d);
      hide Items, Plain, DirItems, Ancestors;
      var before := DirsHaveListing(dirs - {d});
      root := GraftOn(before, dirs - {d}, {}, d, Tree([]));
    }
  }

  ghost predicate Sound(disk: Disk) {
    Closed(disk.dirs) && forall f :: f in disk.files ==> f != [] && Ancestors(f) <= disk.dirs
  }

  lemma {:induction false} EveryDiskHasListing(disk: Disk, blockSize: u64) returns (root: seq<Entry>)
    requires Sound(disk)
    ensures Plain(root) && Shows(root, disk, blockSize)
    decreases |disk.files|
  {
    if disk.files == {} {
      root := DirsHaveListing(disk.dirs);
      assert FileItems(disk.files, blockSize) == {};
    } else {
      var f :| f in disk.files;
      var rest := Disk(disk.files - {f}, disk.dirs);
      ParentIsAncestor(f);
      OneMoreFile(disk.files, f, blockSize);
      hide Items, Plain, DirItems, FileItems, Ancestors, Closed;
      var before := EveryDiskHasListing(rest, blockSize);
      root := GraftOn(before, disk.dirs, FileItems(rest.files, blockSize), f, Leaf(Regular(0, 1, 0, blockSize)));
    }
  }

  // ------------------------------------------------ in terms of the paths

  /** Every proper prefix of a path's components is one of its parents. */
  lemma {:induction false} ParentOfPrefix(path: string, i: nat) returns (dir: string)
    requires 0 < i < |Components(path)|
    ensures dir in Parents(path) && Components(dir) == Components(path)[..i]
    decreases |path|
  {
    var head, tail := Decompose(path, SLASH);
    assert |Components(path)| > 1;
    if i == 1 {
      dir := head;
      SplitOne(head, SLASH);
    } else {
      var inner := ParentOfPrefix(tail.value, i - 1);
      dir := head + [SLASH] + inner;
      SplitAt(head, SLASH, inner);
    }
    assert Components(dir) == Components(path)[..i];
    AboveIsPrefix(dir, path);
    ParentsAreAbove(dir, path);
    hide Components, Split;
  }

  function Placed(paths: set<string>): set<Path> {
    set p | p in paths :: Components(p)
  }

  lemma {:induction false} PlacedApart(paths: set<string>)
    ensures |Placed(paths)| == |paths|
    decreases |paths|
  {
    if paths == {} {
      assert Placed(paths) == {};
    } else {
      var p :| p in paths;
      PlacedApart(paths - {p});
      forall q | q in paths - {p}
        ensures Components(q) != Components(p)
      {
        if Components(q) == Components(p) { SplitIsInjective(q, p); }
      }
      hide Components;
      assert Placed(paths) == Placed(paths - {p}) + {Components(p)};
    }
  }

  /** The parents of all paths are the directories on disk. */
  lemma ParentsOnDisk(path: string, d: Path)
    ensures d != [] && d < Components(path) <==> exists dir :: dir in Parents(path) && Components(dir) == d
  {
    hide Split, Components;
    if d != [] && d < Components(path) {
      var dir := ParentOfPrefix(path, |d|);
      assert Components(path)[..|d|] == d;
    }
    if dir :| dir in Parents(path) && Components(dir) == d {
      ParentsAreAbove(dir, path);
      AboveIsPrefix(dir, path);
    }
  }

  lemma DirsArePlaced(disk: Disk, paths: seq<string>)
    requires Staged(disk, paths) && AllWhole(paths)
    ensures disk.dirs - {[]} == Placed(AllParents(set p | p in paths))
  {
    var files := set p | p in paths;
    forall d
      ensures d in disk.dirs - {[]} <==> d in Placed(AllParents(files))
    {
      forall p | p in paths
        ensures d in Ancestors(OnDisk(p)) && d != [] <==> exists dir :: dir in Parents(p) && Components(dir) == d
      {
        WholeOnDisk(p);
        AncestorsArePrefixes(d, OnDisk(p));
        ParentsOnDisk(p, d);
      }
      hide Components, OnDisk, Ancestors, Parents, OnlyNames;
    }
  }

  lemma {:induction false} DistinctPaths(paths: seq<string>)
    requires NoConflicts(paths)
    ensures |set p | p in paths| == |paths|
    decreases |paths|
  {
    if paths == [] {
      assert (set p | p in paths) == {};
    } else {
      var n := |paths| - 1;
      DistinctPaths(paths[..n]);
      assert forall i :: 0 <= i < n ==> paths[i] != paths[n];
      hide Conflict;
      assert paths == paths[..n] + [paths[n]];
      assert (set p | p in paths) == (set p | p in paths[..n]) + {paths[n]};
    }
  }

  lemma FilesArePlaced(disk: Disk, paths: seq<string>)
    requires Staged(disk, paths) && AllWhole(paths)
    ensures disk.files == Placed(set p | p in paths)
  {
    forall p | p in paths
      ensures OnDisk(p) == Components(p)
    {
      WholeOnDisk(p);
    }
    hide Components, OnDisk, OnlyNames;
  }

  /** One file per path, and one directory per parent, as the client's index has them. */
  lemma StagedCounts(disk: Disk, paths: seq<string>)
    requires Staged(disk, paths) && AllWhole(paths) && NoConflicts(paths)
    ensures |disk.files| == |paths| && |disk.dirs - {[]}| == |AllParents(set p | p in paths)|
  {
    hide *;
    DistinctPaths(paths);
    FilesArePlaced(disk, paths);
    DirsArePlaced(disk, paths);
    PlacedApart(set p | p in paths);
    PlacedApart(AllParents(set p | p in paths));
  }

  predicate Shallow(path: string) {
    |Components(path)| <= MAX_ARTIFACT_DEPTH + 1
  }

  lemma StagedDepth(disk: Disk, paths: seq<string>)
    requires Staged(disk, paths) && AllWhole(paths)
    ensures NotTooDeep(disk) <==> forall i :: 0 <= i < |paths| ==> Shallow(paths[i])
  {
    forall i, d | 0 <= i < |paths|
      ensures OnDisk(paths[i]) == Components(paths[i])
      ensures d in Ancestors(OnDisk(paths[i])) <==> d < Components(paths[i])
    {
      WholeOnDisk(paths[i]);
      AncestorsArePrefixes(d, Components(paths[i]));
    }
    hide Components, OnDisk, OnlyNames, Ancestors;
    if NotTooDeep(disk) {
      forall i | 0 <= i < |paths|
        ensures Shallow(paths[i])
      {
        var c := Components(paths[i]);
        var d := c[..|c| - 1];
        assert d < c;
        assert paths[i] in paths && d in Ancestors(OnDisk(paths[i]));
      }
    }
  }

  lemma StagedIsSound(disk: Disk, paths: seq<string>)
    requires Staged(disk, paths) && AllWhole(paths)
    ensures Sound(disk)
  {
    forall p | p in paths
      ensures OnDisk(p) != []
    {
      WholeOnDisk(p);
    }
    forall p, d, e | p in paths && d in Ancestors(OnDisk(p)) && e in Ancestors(d)
      ensures e in Ancestors(OnDisk(p))
    {
      AncestorsArePrefixes(d, OnDisk(p));
      AncestorsArePrefixes(e, d);
      AncestorsArePrefixes(e, OnDisk(p));
    }
    assert Ancestors([]) == {};
    hide Components, OnDisk, OnlyNames, Ancestors;
  }

  /** Whatever could be staged can be listed, so `Shows` is never an empty demand. */
  lemma StagingHasListing(normalize: Normalizer, paths: seq<string>, blockSize: u64) returns (root: seq<Entry>)
    requires NormalizesPosix(normalize) && AllAccepted(normalize, paths) && StageAll(EMPTY_DISK, paths).Some?
    ensures Plain(root) && Shows(root, StageAll(EMPTY_DISK, paths).value, blockSize)
  {
    hide *;
    RootIsInTheWay(paths);
    TrimmedAreNames(normalize, paths);
    StagedAsTrimmed(EMPTY_DISK, paths);
    StagingSucceedsIffNoConflicts(Trimmed(paths));
    var disk := StageAll(EMPTY_DISK, paths).value;
    StagedIsSound(disk, Trimmed(paths));
    root := EveryDiskHasListing(disk, blockSize);
  }
}
