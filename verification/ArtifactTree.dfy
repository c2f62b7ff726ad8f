/**
 `inspect_tree` of native/src/artifact.rs: a traversal with a work stack, running totals
 and early exits. It is proved equal to a scan of the entries in the order of the
 traversal, and that scan to a predicate on the whole tree, whatever order the
 directories list their entries in.
 */
module ArtifactTree {
  import opened Wrappers
  import opened UInt64

  const MIN_ENTRIES: nat := 64
  const MAX_ARTIFACT_ENTRIES: nat := 4096
  const MAX_ARTIFACT_DEPTH: nat := 32
  const SECTOR: u64 := 512

  type Path = seq<string>

  /** What `lstat` says of an entry. */
  datatype Kind =
    | Symlink
    | Special
    | Directory
    | Regular(size: u64, links: u64, blocks: u64, blockSize: u64)

  /** A leaf that is a directory is an empty one. */
  datatype Node = Leaf(kind: Kind) | Tree(entries: seq<Entry>)
  datatype Entry = Entry(name: string, node: Node)

  /** An entry as the traversal meets it. */
  datatype Item = Item(path: Path, kind: Kind)

  /** A directory still to be read. */
  datatype Listing = Listing(path: Path, entries: seq<Entry>)

  datatype Limits = Limits(maxFiles: u64, maxBytes: u64, maxFileBytes: u64, requireEmpty: bool)

  datatype Found = Found(path: Path, size: u64)

  datatype Tally = Tally(entries: nat, total: u64, occupied: u64, overhead: u64, files: seq<Found>)

  const START: Tally := Tally(0, 0, 0, 0, [])

  function Clamp(x: int, low: int, high: int): int {
    if x < low then low else if x > high then high else x
  }

  function MaxEntries(limits: Limits): nat {
    Clamp(SaturatingMul(limits.maxFiles, 4) as int, MIN_ENTRIES, MAX_ARTIFACT_ENTRIES)
  }

  function Allocation(kind: Kind): u64 {
    if kind.Regular? then SaturatingMul(kind.blocks, SECTOR) else 0
  }

  /** What rounding up to blocks may add over all allowed files. */
  function BlockOverhead(limits: Limits, kind: Kind): u64 {
    if kind.Regular? then SaturatingMul(limits.maxFiles, SaturatingSub(kind.blockSize, 1)) else 0
  }

  // -------------------------------------------------------------- one entry

  function CountFile(limits: Limits, t: Tally, path: Path, kind: Kind): Option<Tally>
    requires kind.Regular?
  {
    if kind.links != 1 || (limits.requireEmpty && kind.size != 0) then None
    else
      match CheckedAdd(t.total, kind.size)
      case None => None
      case Some(total) =>
        match CheckedAdd(t.occupied, Allocation(kind))
        case None => None
        case Some(occupied) =>
          var overhead := Max(t.overhead, BlockOverhead(limits, kind));
          var files := t.files + [Found(path, kind.size)];
          if |files| > limits.maxFiles as int || total > limits.maxBytes
             || occupied > SaturatingAdd(limits.maxBytes, overhead) || kind.size > limits.maxFileBytes
          then None
          else Some(Tally(t.entries, total, occupied, overhead, files))
  }

  /** `None` is a policy violation. */
  function Count(limits: Limits, t: Tally, item: Item): Option<Tally> {
    if t.entries + 1 > MaxEntries(limits) then None
    else
      var counted := t.(entries := t.entries + 1);
      match item.kind
      case Symlink => None
      case Special => None
      case Directory => if |item.path| > MAX_ARTIFACT_DEPTH then None else Some(counted)
      case Regular(_, _, _, _) => CountFile(limits, counted, item.path, item.kind)
  }

  function Scan(limits: Limits, items: seq<Item>): Option<Tally> {
    if items == [] then Some(START)
    else
      match Scan(limits, items[..|items| - 1])
      case None => None
      case Some(t) => Count(limits, t, items[|items| - 1])
  }

  lemma ScanMore(limits: Limits, items: seq<Item>, item: Item)
    ensures Scan(limits, items + [item])
         == match Scan(limits, items) case None => None case Some(t) => Count(limits, t, item)
  {
    assert (items + [item])[..|items|] == items;
  }

  lemma {:induction false} ScanStopped(limits: Limits, items: seq<Item>, more: seq<Item>)
    requires Scan(limits, items) == None
    ensures Scan(limits, items + more) == None
    decreases |more|
  {
    if more == [] {
      assert items + more == items;
    } else {
      var n := |more| - 1;
      assert items + more == items + more[..n] + [more[n]];
      ScanStopped(limits, items, more[..n]);
      ScanMore(limits, items + more[..n], more[n]);
    }
  }

  // -------------------------------------------------------------- traversal

  function KindOf(node: Node): Kind {
    if node.Leaf? then node.kind else Directory
  }

  /** The entries of one directory. */
  function Here(path: Path, entries: seq<Entry>): seq<Item> {
    if entries == [] then []
    else Here(path, entries[..|entries| - 1]) + [ItemOf(path, entries[|entries| - 1])]
  }

  function ItemOf(path: Path, entry: Entry): Item {
    Item(path + [entry.name], KindOf(entry.node))
  }

  function SubOf(path: Path, entry: Entry): seq<Listing> {
    if entry.node.Tree? then [Listing(path + [entry.name], entry.node.entries)] else []
  }

  /** The directories among them. */
  function Subs(path: Path, entries: seq<Entry>): seq<Listing> {
    if entries == [] then []
    else Subs(path, entries[..|entries| - 1]) + SubOf(path, entries[|entries| - 1])
  }

  /** Every entry of a tree. */
  function Items(path: Path, entries: seq<Entry>): seq<Item>
    decreases entries
  {
    if entries == [] then []
    else
      var first := entries[0];
      [ItemOf(path, first)]
      + (if first.node.Tree? then Items(path + [first.name], first.node.entries) else [])
      + Items(path, entries[1..])
  }

  function AllItems(pending: seq<Listing>): seq<Item> {
    if pending == [] then []
    else AllItems(pending[..|pending| - 1]) + Items(pending[|pending| - 1].path, pending[|pending| - 1].entries)
  }

  function Measure(pending: seq<Listing>): nat {
    |AllItems(pending)| + |pending|
  }

  lemma AllItemsSnoc(pending: seq<Listing>, last: Listing)
    ensures AllItems(pending + [last]) == AllItems(pending) + Items(last.path, last.entries)
  {
    assert (pending + [last])[..|pending|] == pending;
    hide Items;
  }

  lemma {:induction false} AllItemsConcat(a: seq<Listing>, b: seq<Listing>)
    ensures AllItems(a + b) == AllItems(a) + AllItems(b)
    decreases |b|
  {
    if b == [] {
      assert a + b == a;
    } else {
      var n := |b| - 1;
      assert b == b[..n] + [b[n]] && a + b == a + b[..n] + [b[n]];
      AllItemsConcat(a, b[..n]);
      AllItemsSnoc(a + b[..n], b[n]);
      AllItemsSnoc(b[..n], b[n]);
      hide *;
    }
  }

  lemma AllItemsOne(listing: Listing)
    ensures AllItems([listing]) == Items(listing.path, listing.entries)
  {
    assert [listing][..0] == [];
    assert AllItems([listing][..0]) == [];
  }

  lemma SnocUnfolds(path: Path, entries: seq<Entry>, last: Entry)
    ensures Here(path, entries + [last]) == Here(path, entries) + [ItemOf(path, last)]
    ensures Subs(path, entries + [last]) == Subs(path, entries) + SubOf(path, last)
  {
    assert (entries + [last])[..|entries|] == entries;
  }

  lemma {:induction false} ConsUnfolds(path: Path, first: Entry, rest: seq<Entry>)
    ensures Here(path, [first] + rest) == [ItemOf(path, first)] + Here(path, rest)
    ensures Subs(path, [first] + rest) == SubOf(path, first) + Subs(path, rest)
    decreases |rest|
  {
    if rest == [] {
      assert [first] + rest == [] + [first];
      SnocUnfolds(path, [], first);
    } else {
      var n := |rest| - 1;
      assert rest == rest[..n] + [rest[n]] && [first] + rest == [first] + rest[..n] + [rest[n]];
      hide ItemOf, SubOf;
      ConsUnfolds(path, first, rest[..n]);
      SnocUnfolds(path, [first] + rest[..n], rest[n]);
      SnocUnfolds(path, rest[..n], rest[n]);
      hide Here, Subs;
    }
  }

  lemma ItemsHead(path: Path, first: Entry, rest: seq<Entry>)
    ensures Items(path, [first] + rest) == [ItemOf(path, first)] + AllItems(SubOf(path, first)) + Items(path, rest)
  {
    assert ([first] + rest)[1..] == rest;
    if first.node.Tree? {
      AllItemsOne(Listing(path + [first.name], first.node.entries));
    }
  }

  lemma Shuffle(a: seq<Item>, b: seq<Item>, c: seq<Item>, d: seq<Item>, e: seq<Item>)
    requires multiset(c) == multiset(d) + multiset(e)
    ensures multiset(a + b + c) == multiset(a + d) + multiset(b + e)
  {
  }

  /** A tree is the entries of its root directory and the trees below them. */
  lemma {:induction false} ItemsSplit(path: Path, entries: seq<Entry>)
    ensures multiset(Items(path, entries)) == multiset(Here(path, entries)) + multiset(AllItems(Subs(path, entries)))
    decreases |entries|
  {
    if entries != [] {
      var first, rest := entries[0], entries[1..];
      assert entries == [first] + rest;
      ItemsSplit(path, rest);
      hide *;
      ConsUnfolds(path, first, rest);
      ItemsHead(path, first, rest);
      AllItemsConcat(SubOf(path, first), Subs(path, rest));
      Shuffle([ItemOf(path, first)], AllItems(SubOf(path, first)), Items(path, rest), Here(path, rest),
          AllItems(Subs(path, rest)));
    }
  }

  lemma SplitSize(path: Path, entries: seq<Entry>)
    ensures |Items(path, entries)| == |entries| + |AllItems(Subs(path, entries))|
    ensures |Subs(path, entries)| <= |entries|
  {
    ItemsSplit(path, entries);
    HereSize(path, entries);
    SubsSize(path, entries);
    hide Items, Here, Subs, AllItems;
    assert |multiset(Items(path, entries))| == |Items(path, entries)|;
  }

  lemma {:induction false} HereSize(path: Path, entries: seq<Entry>)
    ensures |Here(path, entries)| == |entries|
    decreases |entries|
  {
    if entries != [] { HereSize(path, entries[..|entries| - 1]); }
  }

  lemma {:induction false} SubsSize(path: Path, entries: seq<Entry>)
    ensures |Subs(path, entries)| <= |entries|
    decreases |entries|
  {
    if entries != [] { SubsSize(path, entries[..|entries| - 1]); }
  }

  /** Reading the last pending directory and pushing those found in it makes progress. */
  lemma PopProgress(pending: seq<Listing>)
    requires pending != []
    ensures var n := |pending| - 1; var next := pending[..n] + Subs(pending[n].path, pending[n].entries);
      Measure(next) < Measure(pending) && |pending[n].entries| <= |AllItems(pending)|
  {
    var n := |pending| - 1;
    var top := pending[n];
    SplitSize(top.path, top.entries);
    AllItemsConcat(pending[..n], Subs(top.path, top.entries));
  }

  /** The entries in the order of the traversal: the last directory found is read first. */
  function Order(pending: seq<Listing>): seq<Item>
    decreases Measure(pending)
  {
    if pending == [] then []
    else
      var n := |pending| - 1;
      PopProgress(pending);
      Here(pending[n].path, pending[n].entries) + Order(pending[..n] + Subs(pending[n].path, pending[n].entries))
  }

  /** The traversal meets every entry of the tree exactly once. */
  lemma {:induction false} OrderIsComplete(pending: seq<Listing>)
    ensures multiset(Order(pending)) == multiset(AllItems(pending))
    decreases Measure(pending)
  {
    if pending != [] {
      var n := |pending| - 1;
      var top := pending[n];
      var next := pending[..n] + Subs(top.path, top.entries);
      PopProgress(pending);
      OrderIsComplete(next);
      AllItemsConcat(pending[..n], Subs(top.path, top.entries));
      ItemsSplit(top.path, top.entries);
      hide Measure, Here, Subs, Items;
    }
  }

  function TreeOrder(root: seq<Entry>): seq<Item> {
    Order([Listing([], root)])
  }

  lemma TreeOrderIsComplete(root: seq<Entry>)
    ensures multiset(TreeOrder(root)) == multiset(Items([], root))
  {
    OrderIsComplete([Listing([], root)]);
    AllItemsOne(Listing([], root));
  }

  // ---------------------------------------------------------------- method

  lemma HereMore(path: Path, entries: seq<Entry>, i: nat)
    requires i < |entries|
    ensures Here(path, entries[..i + 1]) == Here(path, entries[..i]) + [ItemOf(path, entries[i])]
    ensures Subs(path, entries[..i + 1]) == Subs(path, entries[..i])
              + SubOf(path, entries[i])
  {
    assert entries[..i + 1][..i] == entries[..i];
  }

  lemma {:induction false} HerePrefix(path: Path, entries: seq<Entry>, i: nat)
    requires i <= |entries|
    ensures Here(path, entries[..i]) <= Here(path, entries)
    decreases |entries| - i
  {
    if i == |entries| {
      assert entries[..i] == entries;
    } else {
      HerePrefix(path, entries, i + 1);
      HereMore(path, entries, i);
    }
  }

  lemma {:induction false} TallyCounts(limits: Limits, items: seq<Item>)
    requires Scan(limits, items).Some?
    ensures Scan(limits, items).value.entries == |items| <= MaxEntries(limits)
    decreases |items|
  {
    if items != [] {
      TallyCounts(limits, items[..|items| - 1]);
    }
  }

  /** The counters of one running inspection. */
  class Inspection {
    const limits: Limits
    var entries: nat
    var total: u64
    var occupied: u64
    var overhead: u64
    var files: seq<Found>

    function Abstract(): Tally
      reads this
    {
      Tally(entries, total, occupied, overhead, files)
    }

    constructor (limits: Limits)
      ensures Abstract() == START && this.limits == limits
    {
      this.limits := limits;
      entries, total, occupied, overhead, files := 0, 0, 0, 0, [];
    }

    /** Adds a regular file to the totals; false is a policy violation. */
    method AddFile(path: Path, kind: Kind) returns (ok: bool)
      requires kind.Regular?
      modifies this
      ensures ok <==> CountFile(limits, old(Abstract()), path, kind).Some?
      ensures ok ==> CountFile(limits, old(Abstract()), path, kind) == Some(Abstract())
    {
      if kind.links != 1 { return false; }
      if limits.requireEmpty && kind.size != 0 { return false; }
      var sum := CheckedAdd(total, kind.size);
      if sum.None? { return false; }
      total := sum.value;
      var blocks := CheckedAdd(occupied, SaturatingMul(kind.blocks, SECTOR));
      if blocks.None? { return false; }
      occupied := blocks.value;
      overhead := Max(overhead, SaturatingMul(limits.maxFiles, SaturatingSub(kind.blockSize, 1)));
      files := files + [Found(path, kind.size)];
      return !(|files| > limits.maxFiles as int || total > limits.maxBytes
               || occupied > SaturatingAdd(limits.maxBytes, overhead) || kind.size > limits.maxFileBytes);
    }

    method Visit(item: Item) returns (ok: bool)
      modifies this
      ensures ok <==> Count(limits, old(Abstract()), item).Some?
      ensures ok ==> Count(limits, old(Abstract()), item) == Some(Abstract())
    {
      entries := entries + 1;
      if entries > MaxEntries(limits) { return false; }
      if item.kind.Symlink? { return false; }
      if item.kind.Directory? {
        return |item.path| <= MAX_ARTIFACT_DEPTH;
      }
      if !item.kind.Regular? { return false; }
      ok := AddFile(item.path, item.kind);
    }

    /** Reads one directory: `pending` grows by the directories in it. `seen` is what was visited before. */
    method ReadDirectory(top: Listing, pending: seq<Listing>, ghost seen: seq<Item>)
      returns (r: Option<seq<Listing>>, ghost visited: nat)
      requires Scan(limits, seen) == Some(Abstract())
      modifies this
      ensures r.Some? <==> Scan(limits, seen + Here(top.path, top.entries)).Some?
      ensures r.Some? ==> r.value == pending + Subs(top.path, top.entries)
      ensures r.Some? ==> Scan(limits, seen + Here(top.path, top.entries)) == Some(Abstract())
      ensures r.None? ==> visited <= MaxEntries(limits) + 1
    {
      hide *;
      var found := pending;
      visited := |seen|;
      BeforeReading(limits, top, pending, seen);
      for i := 0 to |top.entries|
        invariant Scan(limits, SoFar(seen, top, i)) == Some(Abstract())
        invariant found == FoundSoFar(pending, top, i)
      {
        var entry := top.entries[i];
        var item := ItemOf(top.path, entry);
        ghost var before := SoFar(seen, top, i);
        OneMore(limits, top, pending, seen, i);
        TallyCounts(limits, before);
        visited := |before| + 1;
        var ok := Visit(item);
        if !ok {
          StoppedHere(limits, seen, top, i + 1);
          return None, visited;
        }
        if entry.node.Tree? {
          found := found + [Listing(top.path + [entry.name], entry.node.entries)];
        }
      }
      AfterReading(top, pending, seen);
      return Some(found), visited;
    }
  }

  /** Half-way through a directory: what has been visited, and what is pending. */
  function SoFar(seen: seq<Item>, top: Listing, i: nat): seq<Item>
    requires i <= |top.entries|
  {
    seen + Here(top.path, top.entries[..i])
  }

  function FoundSoFar(pending: seq<Listing>, top: Listing, i: nat): seq<Listing>
    requires i <= |top.entries|
  {
    pending + Subs(top.path, top.entries[..i])
  }

  lemma BeforeReading(limits: Limits, top: Listing, pending: seq<Listing>, seen: seq<Item>)
    ensures SoFar(seen, top, 0) == seen && FoundSoFar(pending, top, 0) == pending
  {
    assert top.entries[..0] == [];
  }

  lemma OneMore(limits: Limits, top: Listing, pending: seq<Listing>, seen: seq<Item>, i: nat)
    requires i < |top.entries|
    ensures var entry := top.entries[i]; var item := ItemOf(top.path, entry);
      && Scan(limits, SoFar(seen, top, i + 1))
         == (match Scan(limits, SoFar(seen, top, i)) case None => None case Some(t) => Count(limits, t, item))
      && FoundSoFar(pending, top, i + 1)
         == if entry.node.Tree?
            then FoundSoFar(pending, top, i) + [Listing(top.path + [entry.name], entry.node.entries)]
            else FoundSoFar(pending, top, i)
  {
    HereMore(top.path, top.entries, i);
    ScanMore(limits, SoFar(seen, top, i), ItemOf(top.path, top.entries[i]));
    hide Scan, Count, Here, Subs, ItemOf;
    assert SoFar(seen, top, i + 1) == SoFar(seen, top, i) + [ItemOf(top.path, top.entries[i])];
  }

  lemma AfterReading(top: Listing, pending: seq<Listing>, seen: seq<Item>)
    ensures SoFar(seen, top, |top.entries|) == seen + Here(top.path, top.entries)
    ensures FoundSoFar(pending, top, |top.entries|) == pending + Subs(top.path, top.entries)
  {
    assert top.entries[..|top.entries|] == top.entries;
  }

  lemma StoppedHere(limits: Limits, seen: seq<Item>, top: Listing, i: nat)
    requires i <= |top.entries| && Scan(limits, SoFar(seen, top, i)) == None
    ensures Scan(limits, seen + Here(top.path, top.entries)) == None
  {
    var some, all := Here(top.path, top.entries[..i]), Here(top.path, top.entries);
    HerePrefix(top.path, top.entries, i);
    hide Scan, Here;
    ScanStopped(limits, seen + some, all[|some|..]);
    assert seen + some + all[|some|..] == seen + all;
  }

  lemma OrderStep(pending: seq<Listing>)
    requires pending != []
    ensures var n := |pending| - 1;
      Order(pending)
      == Here(pending[n].path, pending[n].entries)
         + Order(pending[..n] + Subs(pending[n].path, pending[n].entries))
  {
  }

  /** `None` is a policy violation; `visited` counts the entries that were looked at. */
  method InspectTree(root: seq<Entry>, limits: Limits) returns (r: Option<seq<Found>>, ghost visited: nat)
    ensures r == (match Scan(limits, TreeOrder(root)) case None => None case Some(t) => Some(t.files))
    ensures visited <= MaxEntries(limits) + 1
  {
    hide *;
    var inspection := new Inspection(limits);
    var pending := [Listing([], root)];
    ghost var seen: seq<Item> := [];
    ghost var order := TreeOrder(root);
    StartOfScan(limits, root);
    while pending != []
      invariant inspection.limits == limits && fresh(inspection)
      invariant Scan(limits, seen) == Some(inspection.Abstract())
      invariant order == seen + Order(pending)
      decreases Measure(pending)
    {
      var n := |pending| - 1;
      var top := pending[n];
      OrderStep(pending);
      PopProgress(pending);
      ghost var here, more := Here(top.path, top.entries), Order(pending[..n] + Subs(top.path, top.entries));
      Regroup(order, seen, here, more);
      var next;
      next, visited := inspection.ReadDirectory(top, pending[..n], seen);
      if next.None? {
        ScanStopped(limits, seen + here, more);
        return None, visited;
      }
      pending := next.value;
      seen := seen + here;
    }
    NoOrder();
    EmptyTail(order, seen);
    TallyCounts(limits, seen);
    visited := |seen|;
    r := Some(inspection.files);
    FilesOfTally(inspection);
  }

  lemma FilesOfTally(inspection: Inspection)
    ensures inspection.Abstract().files == inspection.files
  {
  }

  lemma StartOfScan(limits: Limits, root: seq<Entry>)
    ensures Scan(limits, []) == Some(START) && TreeOrder(root) == [] + Order([Listing([], root)])
  {
  }

  lemma Regroup(order: seq<Item>, seen: seq<Item>, here: seq<Item>, more: seq<Item>)
    requires order == seen + (here + more)
    ensures order == seen + here + more
  {
  }

  lemma NoOrder()
    ensures Order([]) == []
  {
  }

  lemma EmptyTail(order: seq<Item>, seen: seq<Item>)
    requires order == seen + []
    ensures order == seen
  {
  }

  // ------------------------------------------------------ whole-tree predicate

  predicate EntryOk(limits: Limits, item: Item) {
    match item.kind
    case Symlink => false
    case Special => false
    case Directory => |item.path| <= MAX_ARTIFACT_DEPTH
    case Regular(size, links, _, _) => links == 1 && (limits.requireEmpty ==> size == 0) && size <= limits.maxFileBytes
  }

  /** What is added up over files; `BlocksUpTo` only looks at files of no larger block overhead. */
  datatype Quantity = Files | Bytes | Blocks | BlocksUpTo(limits: Limits, overhead: u64)

  function Amount(q: Quantity, item: Item): nat {
    if !item.kind.Regular? then 0
    else
      match q
      case Files => 1
      case Bytes => item.kind.size
      case Blocks => Allocation(item.kind)
      case BlocksUpTo(limits, overhead) =>
        if BlockOverhead(limits, item.kind) <= overhead then Allocation(item.kind) else 0
  }

  function Sum(q: Quantity, items: seq<Item>): nat {
    if items == [] then 0 else Sum(q, items[..|items| - 1]) + Amount(q, items[|items| - 1])
  }

  function FilesOf(items: seq<Item>): seq<Found> {
    if items == [] then []
    else
      var last := items[|items| - 1];
      FilesOf(items[..|items| - 1]) + if last.kind.Regular? then [Found(last.path, last.kind.size)] else []
  }

  /** The largest overhead of any file. */
  function Overhead(limits: Limits, items: seq<Item>): u64 {
    if items == [] then 0
    else Max(Overhead(limits, items[..|items| - 1]), BlockOverhead(limits, items[|items| - 1].kind))
  }

  /** Kinds, depth, counts and sizes. */
  predicate WithinCounts(limits: Limits, items: seq<Item>) {
    && |items| <= MaxEntries(limits)
    && (forall i :: 0 <= i < |items| ==> EntryOk(limits, items[i]))
    && Sum(Files, items) <= limits.maxFiles
    && Sum(Bytes, items) <= limits.maxBytes
  }

  /** What the files occupy may exceed the byte limit by the block overhead. */
  predicate BlocksFit(limits: Limits, items: seq<Item>) {
    Sum(Blocks, items) <= SaturatingAdd(limits.maxBytes, Overhead(limits, items))
  }

  /** Nothing here depends on an order. */
  predicate Whole(limits: Limits, items: seq<Item>) {
    WithinCounts(limits, items) && BlocksFit(limits, items)
  }

  /** All files are on one kind of file system. */
  predicate Uniform(items: seq<Item>, blockSize: u64) {
    forall i :: 0 <= i < |items| && items[i].kind.Regular? ==> items[i].kind.blockSize == blockSize
  }

  /** The totals of a scan that went well. */
  ghost predicate Totals(limits: Limits, items: seq<Item>, t: Tally) {
    && t.entries == |items|
    && t.total == Sum(Bytes, items)
    && t.occupied == Sum(Blocks, items)
    && t.overhead == Overhead(limits, items)
    && t.files == FilesOf(items)
    && |t.files| == Sum(Files, items)
  }

  /** What one more entry must satisfy once the entries before it were accepted. */
  predicate Fits(limits: Limits, items: seq<Item>) {
    && |items| <= MaxEntries(limits)
    && (items != [] ==> EntryOk(limits, items[|items| - 1]))
    && (items != [] && items[|items| - 1].kind.Regular? ==>
          && Sum(Files, items) <= limits.maxFiles
          && Sum(Bytes, items) <= limits.maxBytes
          && Sum(Blocks, items) <= SaturatingAdd(limits.maxBytes, Overhead(limits, items)))
  }

  lemma CountIsFits(limits: Limits, items: seq<Item>, t: Tally)
    requires items != [] && Totals(limits, items[..|items| - 1], t)
    ensures Count(limits, t, items[|items| - 1]).Some? <==> Fits(limits, items)
    ensures Fits(limits, items) ==> Totals(limits, items, Count(limits, t, items[|items| - 1]).value)
  {
  }

  lemma {:induction false} ScanTotals(limits: Limits, items: seq<Item>)
    ensures Scan(limits, items).Some? ==> Totals(limits, items, Scan(limits, items).value)
    decreases |items|
  {
    hide Count, Totals;
    if items == [] {
      NoTotals(limits);
    } else {
      var before := items[..|items| - 1];
      ScanTotals(limits, before);
      if Scan(limits, before).Some? {
        CountIsFits(limits, items, Scan(limits, before).value);
      }
    }
  }

  lemma NoTotals(limits: Limits)
    ensures Totals(limits, [], START)
  {
  }

  lemma ScanFits(limits: Limits, items: seq<Item>)
    requires items != []
    ensures Scan(limits, items).Some? <==> Scan(limits, items[..|items| - 1]).Some? && Fits(limits, items)
  {
    var before := items[..|items| - 1];
    ScanTotals(limits, before);
    if Scan(limits, before).Some? {
      CountIsFits(limits, items, Scan(limits, before).value);
    }
  }

  /** Whatever the block sizes, an accepted tree keeps every limit. */
  lemma {:induction false} AcceptedIsWhole(limits: Limits, items: seq<Item>)
    ensures Scan(limits, items).Some? ==> Whole(limits, items)
    decreases |items|
  {
    if items != [] {
      AcceptedIsWhole(limits, items[..|items| - 1]);
      ScanFits(limits, items);
      hide Scan;
    }
  }

  /** With one block size a part of a tree that keeps the limits keeps them too. */
  lemma WholePrefix(limits: Limits, items: seq<Item>, blockSize: u64)
    requires items != [] && Whole(limits, items) && Uniform(items, blockSize)
    ensures Whole(limits, items[..|items| - 1]) && Uniform(items[..|items| - 1], blockSize)
  {
    UniformOverhead(limits, items, blockSize);
    UniformOverhead(limits, items[..|items| - 1], blockSize);
    FilesHaveBlocks(items[..|items| - 1]);
    FilesHaveBlocks(items);
  }

  /** Without files nothing is allocated. */
  lemma {:induction false} FilesHaveBlocks(items: seq<Item>)
    ensures Sum(Files, items) == 0 ==> Sum(Blocks, items) == 0
    decreases |items|
  {
    if items != [] { FilesHaveBlocks(items[..|items| - 1]); }
  }

  lemma {:induction false} UniformOverhead(limits: Limits, items: seq<Item>, blockSize: u64)
    requires Uniform(items, blockSize)
    ensures Overhead(limits, items)
         == if Sum(Files, items) == 0 then 0 else SaturatingMul(limits.maxFiles, SaturatingSub(blockSize, 1))
    decreases |items|
  {
    if items != [] {
      UniformOverhead(limits, items[..|items| - 1], blockSize);
      hide SaturatingMul, SaturatingSub;
    }
  }

  /** With one block size a scan in any order accepts exactly the trees that keep the limits. */
  lemma {:induction false} ScanIsWhole(limits: Limits, items: seq<Item>, blockSize: u64)
    requires Uniform(items, blockSize)
    ensures Scan(limits, items).Some? <==> Whole(limits, items)
    ensures Scan(limits, items).Some? ==> Scan(limits, items).value.files == FilesOf(items)
    decreases |items|
  {
    ScanTotals(limits, items);
    AcceptedIsWhole(limits, items);
    if items != [] {
      ScanFits(limits, items);
      if Whole(limits, items) {
        WholePrefix(limits, items, blockSize);
        ScanIsWhole(limits, items[..|items| - 1], blockSize);
        hide Scan;
      }
    }
  }

  // ------------------------------------------------------ order independence

  lemma {:induction false} SumConcat(q: Quantity, a: seq<Item>, b: seq<Item>)
    ensures Sum(q, a + b) == Sum(q, a) + Sum(q, b)
    decreases |b|
  {
    if b == [] {
      assert a + b == a;
    } else {
      var n := |b| - 1;
      assert (a + b)[..|a + b| - 1] == a + b[..n];
      SumConcat(q, a, b[..n]);
    }
  }

  lemma {:induction false} OverheadConcat(limits: Limits, a: seq<Item>, b: seq<Item>)
    ensures Overhead(limits, a + b) == Max(Overhead(limits, a), Overhead(limits, b))
    decreases |b|
  {
    if b == [] {
      assert a + b == a;
    } else {
      var n := |b| - 1;
      assert (a + b)[..|a + b| - 1] == a + b[..n];
      OverheadConcat(limits, a, b[..n]);
    }
  }

  lemma {:induction false} FilesConcat(a: seq<Item>, b: seq<Item>)
    ensures FilesOf(a + b) == FilesOf(a) + FilesOf(b)
    decreases |b|
  {
    if b == [] {
      assert a + b == a;
    } else {
      var n := |b| - 1;
      assert (a + b)[..|a + b| - 1] == a + b[..n];
      FilesConcat(a, b[..n]);
    }
  }

  /** Everything the predicate looks at, with the item at `i` moved to the end. */
  lemma MoveToEnd(limits: Limits, items: seq<Item>, i: nat)
    requires i < |items|
    ensures var moved := RemoveAt(items, i) + [items[i]];
      && multiset(moved) == multiset(items)
      && (forall q: Quantity :: Sum(q, moved) == Sum(q, items))
      && Overhead(limits, moved) == Overhead(limits, items)
      && multiset(FilesOf(moved)) == multiset(FilesOf(items))
  {
    var a, x, b := items[..i], [items[i]], items[i + 1..];
    assert items == a + (x + b);
    assert RemoveAt(items, i) + x == a + (b + x);
    forall q: Quantity
      ensures Sum(q, a + (b + x)) == Sum(q, a + (x + b))
    {
      SumConcat(q, a, b + x);
      SumConcat(q, b, x);
      SumConcat(q, a, x + b);
      SumConcat(q, x, b);
    }
    OverheadConcat(limits, a, b + x);
    OverheadConcat(limits, b, x);
    OverheadConcat(limits, a, x + b);
    OverheadConcat(limits, x, b);
    FilesConcat(a, b + x);
    FilesConcat(b, x);
    FilesConcat(a, x + b);
    FilesConcat(x, b);
    hide Sum, Overhead, FilesOf;
    assert multiset(items) == multiset(a) + (multiset(x) + multiset(b));
  }

  ghost predicate SameTotals(limits: Limits, a: seq<Item>, b: seq<Item>) {
    && (forall q: Quantity :: Sum(q, a) == Sum(q, b))
    && Overhead(limits, a) == Overhead(limits, b)
    && multiset(FilesOf(a)) == multiset(FilesOf(b))
  }

  lemma SameTotalsMore(limits: Limits, a: seq<Item>, b: seq<Item>, item: Item)
    requires SameTotals(limits, a, b)
    ensures SameTotals(limits, a + [item], b + [item])
  {
    forall q: Quantity
      ensures Sum(q, a + [item]) == Sum(q, b + [item])
    {
      SumConcat(q, a, [item]);
      SumConcat(q, b, [item]);
    }
    OverheadConcat(limits, a, [item]);
    OverheadConcat(limits, b, [item]);
    FilesConcat(a, [item]);
    FilesConcat(b, [item]);
    hide Sum, Overhead, FilesOf;
  }

  /** Totals only depend on which entries there are. */
  lemma {:induction false} PermutedTotals(limits: Limits, a: seq<Item>, b: seq<Item>)
    requires multiset(a) == multiset(b)
    ensures SameTotals(limits, a, b)
    decreases |a|
  {
    hide Sum, Overhead, FilesOf, SameTotals, RemoveAt;
    if a == [] {
      assert |multiset(a)| == 0;
      assert b == [];
      SameAsItself(limits, a);
    } else {
      var n := |a| - 1;
      var i := FindLast(a, b);
      var rest := RemoveAt(b, i);
      MoveToEnd(limits, b, i);
      assert a == a[..n] + [a[n]];
      SameRest(a[..n], rest, a[n]);
      PermutedTotals(limits, a[..n], rest);
      SameTotalsMore(limits, a[..n], rest, a[n]);
      SameTotalsChain(limits, a, rest + [a[n]], b);
    }
  }

  lemma SameAsItself(limits: Limits, a: seq<Item>)
    ensures SameTotals(limits, a, a)
  {
  }

  lemma FindLast(a: seq<Item>, b: seq<Item>) returns (i: nat)
    requires multiset(a) == multiset(b) && a != []
    ensures i < |b| && b[i] == a[|a| - 1]
  {
    assert a[|a| - 1] in multiset(b);
    i :| 0 <= i < |b| && b[i] == a[|a| - 1];
  }

  lemma SameRest(a: seq<Item>, b: seq<Item>, item: Item)
    requires multiset(a + [item]) == multiset(b + [item])
    ensures multiset(a) == multiset(b)
  {
    assert multiset(a) == multiset(a + [item]) - multiset{item};
    assert multiset(b) == multiset(b + [item]) - multiset{item};
  }

  lemma SameTotalsChain(limits: Limits, a: seq<Item>, b: seq<Item>, c: seq<Item>)
    requires SameTotals(limits, a, b)
    requires (forall q: Quantity :: Sum(q, b) == Sum(q, c)) && Overhead(limits, b) == Overhead(limits, c)
    requires multiset(FilesOf(b)) == multiset(FilesOf(c))
    ensures SameTotals(limits, a, c)
  {
  }

  lemma PermutedWhole(limits: Limits, a: seq<Item>, b: seq<Item>)
    requires multiset(a) == multiset(b) && Whole(limits, a)
    ensures Whole(limits, b)
  {
    PermutedTotals(limits, a, b);
    assert |multiset(a)| == |a| && |multiset(b)| == |b|;
    hide EntryOk, Sum, Overhead, MaxEntries;
    forall i | 0 <= i < |b|
      ensures EntryOk(limits, b[i])
    {
      assert b[i] in multiset(a);
      assert b[i] in a;
    }
  }

  lemma PermutedUniform(a: seq<Item>, b: seq<Item>, blockSize: u64)
    requires multiset(a) == multiset(b) && Uniform(a, blockSize)
    ensures Uniform(b, blockSize)
  {
    forall i | 0 <= i < |b| && b[i].kind.Regular?
      ensures b[i].kind.blockSize == blockSize
    {
      assert b[i] in multiset(a);
      assert b[i] in a;
    }
  }

  /** What an inspection of `root` answers. */
  function Inspected(limits: Limits, root: seq<Entry>): Option<seq<Found>> {
    match Scan(limits, TreeOrder(root))
    case None => None
    case Some(t) => Some(t.files)
  }

  /**
   With one block size the traversal accepts exactly the trees that keep the limits, and returns
   their regular files.
   */
  lemma InspectionIsWholeTree(limits: Limits, root: seq<Entry>, blockSize: u64)
    requires Uniform(Items([], root), blockSize)
    ensures Inspected(limits, root).Some? <==> Whole(limits, Items([], root))
    ensures Inspected(limits, root).Some? ==>
        multiset(Inspected(limits, root).value) == multiset(FilesOf(Items([], root)))
  {
    var items, order := Items([], root), TreeOrder(root);
    TreeOrderIsComplete(root);
    hide Items, TreeOrder, Uniform, Whole;
    PermutedUniform(items, order, blockSize);
    ScanIsWhole(limits, order, blockSize);
    PermutedTotals(limits, items, order);
    if Whole(limits, items) { PermutedWhole(limits, items, order); }
    if Whole(limits, order) { PermutedWhole(limits, order, items); }
  }

  /** Two listings of the same tree get the same answer, up to the order of the files. */
  lemma ListingOrderDoesNotMatter(limits: Limits, a: seq<Entry>, b: seq<Entry>, blockSize: u64)
    requires multiset(Items([], a)) == multiset(Items([], b)) && Uniform(Items([], a), blockSize)
    ensures Inspected(limits, a).Some? <==> Inspected(limits, b).Some?
    ensures Inspected(limits, a).Some? ==> multiset(Inspected(limits, a).value) == multiset(Inspected(limits, b).value)
  {
    var x, y := Items([], a), Items([], b);
    PermutedUniform(x, y, blockSize);
    InspectionIsWholeTree(limits, a, blockSize);
    InspectionIsWholeTree(limits, b, blockSize);
    PermutedTotals(limits, x, y);
    hide Items, Inspected, Whole, Uniform;
    if Whole(limits, x) { PermutedWhole(limits, x, y); }
    if Whole(limits, y) { PermutedWhole(limits, y, x); }
  }

  /** Whatever the block sizes: an accepted tree keeps every limit. */
  lemma AcceptedTreeKeepsLimits(limits: Limits, root: seq<Entry>)
    requires Inspected(limits, root).Some?
    ensures Whole(limits, Items([], root))
    ensures multiset(Inspected(limits, root).value) == multiset(FilesOf(Items([], root)))
  {
    var items, order := Items([], root), TreeOrder(root);
    TreeOrderIsComplete(root);
    AcceptedIsWhole(limits, order);
    ScanTotals(limits, order);
    PermutedTotals(limits, order, items);
    hide Items, TreeOrder, Scan, Whole;
    PermutedWhole(limits, order, items);
  }

  // --------------------------------------------------------- declared outputs

  /**
   One declared output. `safe` stands for what the file system says of it: a regular file
   with one link, empty, and inside the output directory.
   */
  datatype Declared = Declared(path: string, normal: bool, maxBytes: Option<u64>, safe: bool)

  datatype OutputLimits = OutputLimits(files: u64, bytes: u64, fileBytes: u64)

  function MaximumOf(item: Declared, limits: OutputLimits): u64 {
    match item.maxBytes
    case Some(bytes) => bytes
    case None => limits.fileBytes
  }

  predicate DeclaredOk(item: Declared, limits: OutputLimits, uniform: u64) {
    && item.normal && item.safe
    && MaximumOf(item, limits) == uniform
    && 0 < uniform <= limits.fileBytes
  }

  predicate Distinct(items: seq<Declared>) {
    forall i, j :: 0 <= i < j < |items| ==> items[i].path != items[j].path
  }

  /** All outputs share one positive maximum, and together they fit the byte limit. */
  predicate DeclarationsOk(items: seq<Declared>, limits: OutputLimits) {
    && |items| <= limits.files
    && Distinct(items)
    && (items != [] ==>
          var uniform := MaximumOf(items[0], limits);
          && (forall i :: 0 <= i < |items| ==> DeclaredOk(items[i], limits, uniform))
          && |items| * uniform <= limits.bytes)
  }

  lemma Times(n: nat, m: nat)
    ensures (n + 1) * m == n * m + m
  {
  }

  lemma TimesGrows(n: nat, k: nat, m: nat)
    requires n <= k
    ensures n * m <= k * m
  {
  }

  /** The last step of the validation: only empty files, and no byte of content. */
  function EmptyLimits(limits: OutputLimits): Limits {
    Limits(limits.files, 0, 0, true)
  }

  /** The declarations are fine, and the output directory holds as many files as were declared. */
  predicate ValidationOk(items: seq<Declared>, limits: OutputLimits, root: seq<Entry>) {
    && DeclarationsOk(items, limits)
    && Inspected(EmptyLimits(limits), root).Some?
    && |Inspected(EmptyLimits(limits), root).value| == |items|
  }

  method ValidateDeclaredOutputs(root: seq<Entry>, items: seq<Declared>, limits: OutputLimits)
      returns (ok: bool, fileSizeLimit: Option<u64>)
    ensures ok <==> ValidationOk(items, limits, root)
    ensures ok ==> fileSizeLimit == (if items == [] then None else Some(MaximumOf(items[0], limits)))
  {
    if |items| > limits.files as int {
      return false, None;
    }
    var declaredBytes: u64 := 0;
    fileSizeLimit := None;
    for i := 0 to |items|
      invariant fileSizeLimit == if i == 0 then None else Some(MaximumOf(items[0], limits))
      invariant i > 0 ==> declaredBytes == i * fileSizeLimit.value && declaredBytes <= limits.bytes
      invariant i == 0 ==> declaredBytes == 0
      invariant forall j :: 0 <= j < i ==> DeclaredOk(items[j], limits, MaximumOf(items[0], limits))
      invariant forall j, k :: 0 <= j < k < i ==> items[j].path != items[k].path
    {
      var item := items[i];
      if !item.normal {
        return false, None;
      }
      var maximum := MaximumOf(item, limits);
      if fileSizeLimit.Some? && fileSizeLimit.value != maximum {
        return false, None;
      }
      fileSizeLimit := Some(maximum);
      Times(i, maximum);
      TimesGrows(i + 1, |items|, maximum);
      var sum := CheckedAdd(declaredBytes, maximum);
      if sum.None? {
        return false, None;
      }
      declaredBytes := sum.value;
      if maximum == 0 || maximum > limits.fileBytes || declaredBytes > limits.bytes {
        return false, None;
      }
      if !item.safe || exists j :: 0 <= j < i && items[j].path == item.path {
        return false, None;
      }
    }
    var files, visited := InspectTree(root, EmptyLimits(limits));
    return files.Some? && |files.value| == |items|, fileSizeLimit;
  }
}
