/**
 For which trees the answer of `inspect_tree` (native/src/artifact.rs) does not depend on
 how their directories list their entries. A directory is read to its end before any
 directory in it, and those are read the last one first; so a listing cannot bring every
 set of files to the front of the traversal, only the ones that `Worst` adds up.
 */
module ArtifactListings {
  import opened Wrappers
  import opened UInt64
  import opened ArtifactTree
  import opened ArtifactOrder

  // --------------------------------------------------------------- listings

  /** The same tree, with the entries of every directory in any order. */
  ghost predicate Relisted(a: seq<Entry>, b: seq<Entry>)
    decreases a
  {
    if a == [] then b == []
    else exists i :: 0 <= i < |b| && SameEntry(a[0], b[i]) && Relisted(a[1..], RemoveAt(b, i))
  }

  ghost predicate SameEntry(x: Entry, y: Entry)
    decreases x
  {
    if x.node.Tree? then x.name == y.name && y.node.Tree? && Relisted(x.node.entries, y.node.entries) else x == y
  }

  lemma {:induction false} RelistedAsItIs(a: seq<Entry>)
    ensures Relisted(a, a)
    decreases a
  {
    if a != [] {
      if a[0].node.Tree? { RelistedAsItIs(a[0].node.entries); }
      RelistedAsItIs(a[1..]);
      assert RemoveAt(a, 0) == a[1..];
      assert SameEntry(a[0], a[0]);
    }
  }

  lemma FirstIsThere(a: seq<Entry>, b: seq<Entry>) returns (i: nat)
    requires Relisted(a, b) && a != []
    ensures i < |b| && SameEntry(a[0], b[i]) && Relisted(a[1..], RemoveAt(b, i))
  {
    i :| 0 <= i < |b| && SameEntry(a[0], b[i]) && Relisted(a[1..], RemoveAt(b, i));
  }

  lemma FirstAndRest(a: seq<Entry>)
    requires a != []
    ensures a == [a[0]] + a[1..]
  {
  }

  lemma NothingListed(b: seq<Entry>)
    requires Relisted([], b)
    ensures b == []
  {
  }

  /** What one entry adds to the entries of a tree. */
  function EntryItems(path: Path, entry: Entry): seq<Item> {
    [ItemOf(path, entry)] + AllItems(SubOf(path, entry))
  }

  lemma SplitEntry(path: Path, entry: Entry)
    ensures EntryItems(path, entry) == [ItemOf(path, entry)] + AllItems(SubOf(path, entry))
  {
  }

  lemma NoItems(path: Path, b: seq<Entry>)
    ensures Items(path, [] + b) == Items(path, []) + Items(path, b)
  {
    assert [] + b == b;
  }

  lemma FirstOfBoth(a: seq<Entry>, b: seq<Entry>)
    requires a != []
    ensures a + b == [a[0]] + (a[1..] + b)
  {
  }

  lemma Behind(x: seq<Item>, y: seq<Item>, z: seq<Item>)
    ensures x + (y + z) == (x + y) + z
  {
  }

  lemma {:induction false} ItemsConcat(path: Path, a: seq<Entry>, b: seq<Entry>)
    ensures Items(path, a + b) == Items(path, a) + Items(path, b)
    decreases |a|
  {
    hide *;
    if a == [] {
      NoItems(path, b);
    } else {
      FirstAndRest(a);
      FirstOfBoth(a, b);
      ItemsConcat(path, a[1..], b);
      ItemsHead(path, a[0], a[1..]);
      ItemsHead(path, a[0], a[1..] + b);
      Behind(EntryItems(path, a[0]), Items(path, a[1..]), Items(path, b));
      SplitEntry(path, a[0]);
    }
  }

  lemma ItemsOfHead(path: Path, first: Entry, rest: seq<Entry>)
    ensures multiset(Items(path, [first] + rest)) == multiset(EntryItems(path, first)) + multiset(Items(path, rest))
  {
    ItemsHead(path, first, rest);
    hide Items, AllItems, ItemOf, SubOf;
  }

  lemma ItemsTaken(path: Path, b: seq<Entry>, i: nat)
    requires i < |b|
    ensures multiset(Items(path, b)) == multiset(EntryItems(path, b[i])) + multiset(Items(path, RemoveAt(b, i)))
  {
    var front, back := b[..i], b[i + 1..];
    assert b == front + ([b[i]] + back);
    ItemsConcat(path, front, [b[i]] + back);
    ItemsConcat(path, front, back);
    ItemsHead(path, b[i], back);
    hide Items;
  }

  /** A listing has the entries of the tree. */
  lemma {:induction false} RelistedItems(path: Path, a: seq<Entry>, b: seq<Entry>)
    requires Relisted(a, b)
    ensures multiset(Items(path, a)) == multiset(Items(path, b))
    decreases a
  {
    hide *;
    if a == [] {
      NothingListed(b);
    } else {
      var i := FirstIsThere(a, b);
      RelistedItems(path, a[1..], RemoveAt(b, i));
      SameEntryItems(path, a[0], b[i]);
      FirstAndRest(a);
      ItemsOfHead(path, a[0], a[1..]);
      ItemsTaken(path, b, i);
    }
  }

  lemma {:induction false} SameEntryItems(path: Path, x: Entry, y: Entry)
    requires SameEntry(x, y)
    ensures multiset(EntryItems(path, x)) == multiset(EntryItems(path, y))
    decreases x
  {
    if x.node.Tree? {
      RelistedItems(path + [x.name], x.node.entries, y.node.entries);
      AllItemsOne(Listing(path + [x.name], x.node.entries));
      AllItemsOne(Listing(path + [x.name], y.node.entries));
      hide Items, AllItems;
    }
  }

  // ------------------------------------------------------------- worst case

  /**
   Of the files of no larger block overhead than some bound: those of the directory itself,
   those of its wholly low subtrees, and the most that any other subtree can bring forward.
   */
  datatype Summary = Summary(own: nat, ownLow: bool, lowSubs: nat, highSub: nat, subsLow: bool)

  const NOTHING: Summary := Summary(0, true, 0, 0, true)

  function Larger(a: nat, b: nat): nat {
    if a < b then b else a
  }

  function Both(a: Summary, b: Summary): Summary {
    Summary(a.own + b.own, a.ownLow && b.ownLow, a.lowSubs + b.lowSubs, Larger(a.highSub, b.highSub),
            a.subsLow && b.subsLow)
  }

  predicate IsLow(s: Summary) {
    s.ownLow && s.subsLow
  }

  /** A file above the bound in the directory itself ends it; otherwise the low subtrees come first, then one other. */
  function Reach(s: Summary): nat {
    s.own + if s.ownLow then s.lowSubs + s.highSub else 0
  }

  function OfEntry(limits: Limits, bound: u64, entry: Entry): Summary
    decreases entry
  {
    match entry.node
    case Leaf(kind) =>
      if BlockOverhead(limits, kind) <= bound then NOTHING.(own := Allocation(kind)) else NOTHING.(ownLow := false)
    case Tree(entries) =>
      var below := OfEntries(limits, bound, entries);
      if IsLow(below) then NOTHING.(lowSubs := Reach(below)) else NOTHING.(highSub := Reach(below), subsLow := false)
  }

  function OfEntries(limits: Limits, bound: u64, entries: seq<Entry>): Summary
    decreases entries
  {
    if entries == [] then NOTHING
    else Both(OfEntry(limits, bound, entries[0]), OfEntries(limits, bound, entries[1..]))
  }

  /** The most that files of no larger overhead can occupy before a listing shows a file of a larger one. */
  function Worst(limits: Limits, bound: u64, entries: seq<Entry>): nat {
    Reach(OfEntries(limits, bound, entries))
  }

  lemma OfHead(limits: Limits, bound: u64, first: Entry, rest: seq<Entry>)
    ensures OfEntries(limits, bound, [first] + rest)
         == Both(OfEntry(limits, bound, first), OfEntries(limits, bound, rest))
  {
    assert ([first] + rest)[1..] == rest;
    hide OfEntry, Both;
  }

  lemma Associates(a: Summary, b: Summary, c: Summary)
    ensures Both(Both(a, b), c) == Both(a, Both(b, c)) && Both(a, b) == Both(b, a)
  {
  }

  lemma NothingBesides(limits: Limits, bound: u64, b: seq<Entry>)
    ensures OfEntries(limits, bound, [] + b) == Both(OfEntries(limits, bound, []), OfEntries(limits, bound, b))
  {
    assert [] + b == b;
    hide OfEntry;
  }

  lemma {:induction false} OfConcat(limits: Limits, bound: u64, a: seq<Entry>, b: seq<Entry>)
    ensures OfEntries(limits, bound, a + b) == Both(OfEntries(limits, bound, a), OfEntries(limits, bound, b))
    decreases |a|
  {
    if a == [] {
      NothingBesides(limits, bound, b);
    } else {
      hide *;
      FirstAndRest(a);
      FirstOfBoth(a, b);
      OfConcat(limits, bound, a[1..], b);
      OfHead(limits, bound, a[0], a[1..]);
      OfHead(limits, bound, a[0], a[1..] + b);
      Associates(OfEntry(limits, bound, a[0]), OfEntries(limits, bound, a[1..]), OfEntries(limits, bound, b));
    }
  }

  lemma OfOne(limits: Limits, bound: u64, entry: Entry)
    ensures OfEntries(limits, bound, [entry]) == OfEntry(limits, bound, entry)
  {
    assert [entry] + [] == [entry];
    OfHead(limits, bound, entry, []);
    hide OfEntry;
  }

  lemma OfTaken(limits: Limits, bound: u64, b: seq<Entry>, i: nat)
    requires i < |b|
    ensures OfEntries(limits, bound, b)
         == Both(OfEntry(limits, bound, b[i]), OfEntries(limits, bound, RemoveAt(b, i)))
  {
    var front, back := b[..i], b[i + 1..];
    assert b == front + ([b[i]] + back);
    OfConcat(limits, bound, front, [b[i]] + back);
    OfHead(limits, bound, b[i], back);
    OfConcat(limits, bound, front, back);
    hide OfEntry, OfEntries, Both;
    var f, x, k := OfEntries(limits, bound, front), OfEntry(limits, bound, b[i]), OfEntries(limits, bound, back);
    Associates(f, x, k);
    Associates(x, f, k);
  }

  /** It does not depend on the listing. */
  lemma {:induction false} RelistedWorst(limits: Limits, bound: u64, a: seq<Entry>, b: seq<Entry>)
    requires Relisted(a, b)
    ensures OfEntries(limits, bound, a) == OfEntries(limits, bound, b)
    decreases a
  {
    hide *;
    if a == [] {
      NothingListed(b);
    } else {
      var i := FirstIsThere(a, b);
      RelistedWorst(limits, bound, a[1..], RemoveAt(b, i));
      SameEntryWorst(limits, bound, a[0], b[i]);
      FirstAndRest(a);
      OfHead(limits, bound, a[0], a[1..]);
      OfTaken(limits, bound, b, i);
    }
  }

  lemma {:induction false} SameEntryWorst(limits: Limits, bound: u64, x: Entry, y: Entry)
    requires SameEntry(x, y)
    ensures OfEntry(limits, bound, x) == OfEntry(limits, bound, y)
    decreases x
  {
    if x.node.Tree? {
      RelistedWorst(limits, bound, x.node.entries, y.node.entries);
    }
  }

  /** Only subtrees with a file above the bound count as such. */
  lemma {:induction false} LowHasNoHigh(limits: Limits, bound: u64, entries: seq<Entry>)
    ensures OfEntries(limits, bound, entries).subsLow ==> OfEntries(limits, bound, entries).highSub == 0
    decreases |entries|
  {
    if entries != [] {
      LowHasNoHigh(limits, bound, entries[1..]);
    }
  }

  // -------------------------------------------------------- the upper bound

  /** No file above the bound. */
  predicate AllBelow(limits: Limits, bound: u64, items: seq<Item>) {
    forall i :: 0 <= i < |items| ==> BlockOverhead(limits, items[i].kind) <= bound
  }

  lemma {:induction false} OrderConcat(p: seq<Listing>, q: seq<Listing>)
    ensures Order(p + q) == Order(q) + Order(p)
    decreases Measure(q)
  {
    hide *;
    if q == [] {
      assert p + q == p;
      NoOrder();
      assert Order([]) + Order(p) == Order(p);
    } else {
      var n := |q| - 1;
      var here, next := Here(q[n].path, q[n].entries), q[..n] + Subs(q[n].path, q[n].entries);
      OrderStep(q);
      OrderStep(p + q);
      PopProgress(q);
      OrderConcat(p, next);
      LastOfBoth(p, q, Subs(q[n].path, q[n].entries));
      Behind(here, Order(next), Order(p));
    }
  }

  lemma LastOfBoth(p: seq<Listing>, q: seq<Listing>, subs: seq<Listing>)
    requires q != []
    ensures var k, n := |p + q| - 1, |q| - 1;
      k >= 0 && (p + q)[k] == q[n] && (p + q)[..k] + subs == p + (q[..n] + subs)
  {
  }

  /** The traversal of one directory: its entries, and then what is below them. */
  function Traversal(path: Path, entries: seq<Entry>): seq<Item> {
    Here(path, entries) + Order(Subs(path, entries))
  }

  lemma TraversalIsOrder(path: Path, entries: seq<Entry>)
    ensures Order([Listing(path, entries)]) == Traversal(path, entries)
  {
    OrderStep([Listing(path, entries)]);
    assert [Listing(path, entries)][..0] + Subs(path, entries) == Subs(path, entries);
    hide Order, Subs, Here;
  }

  lemma NothingSpread(path: Path, b: seq<Entry>)
    ensures Here(path, [] + b) == Here(path, []) + Here(path, b)
    ensures Subs(path, [] + b) == Subs(path, []) + Subs(path, b)
  {
    assert [] + b == b;
  }

  lemma BehindListings(x: seq<Listing>, y: seq<Listing>, z: seq<Listing>)
    ensures x + (y + z) == (x + y) + z
  {
  }

  lemma {:induction false} Spread(path: Path, a: seq<Entry>, b: seq<Entry>)
    ensures Here(path, a + b) == Here(path, a) + Here(path, b)
    ensures Subs(path, a + b) == Subs(path, a) + Subs(path, b)
    decreases |a|
  {
    hide *;
    if a == [] {
      NothingSpread(path, b);
    } else {
      FirstAndRest(a);
      FirstOfBoth(a, b);
      Spread(path, a[1..], b);
      ConsUnfolds(path, a[0], a[1..]);
      ConsUnfolds(path, a[0], a[1..] + b);
      Behind([ItemOf(path, a[0])], Here(path, a[1..]), Here(path, b));
      BehindListings(SubOf(path, a[0]), Subs(path, a[1..]), Subs(path, b));
    }
  }

  /** Below a listing that is joined from two, the second one is read first. */
  lemma OrderSpread(path: Path, a: seq<Entry>, b: seq<Entry>)
    ensures Order(Subs(path, a + b)) == Order(Subs(path, b)) + Order(Subs(path, a))
  {
    Spread(path, a, b);
    hide Order, Subs;
    OrderConcat(Subs(path, a), Subs(path, b));
  }

  lemma BelowBoth(limits: Limits, bound: u64, a: seq<Item>, b: seq<Item>)
    ensures AllBelow(limits, bound, a + b) <==> AllBelow(limits, bound, a) && AllBelow(limits, bound, b)
  {
    hide BlockOverhead;
    if AllBelow(limits, bound, a + b) {
      assert forall i :: 0 <= i < |a| ==> (a + b)[i] == a[i];
      assert forall i :: 0 <= i < |b| ==> (a + b)[|a| + i] == b[i];
    }
  }

  /** A prefix ends in the first part, or has all of it and some of the second. */
  lemma PrefixOfBoth(p: seq<Item>, a: seq<Item>, b: seq<Item>) returns (q: seq<Item>)
    requires p <= a + b
    ensures p <= a || (p == a + q && q <= b)
  {
    if |p| <= |a| {
      q := [];
      assert p == (a + b)[..|p|];
    } else {
      q := p[|a|..];
      assert p == (a + b)[..|p|];
      assert p[..|a|] == a;
      assert p == a + q;
      assert q == b[..|q|];
    }
  }

  lemma OneItem(limits: Limits, bound: u64, path: Path, x: Entry)
    ensures AllBelow(limits, bound, [ItemOf(path, x)]) <==> OfEntry(limits, bound, x).ownLow
    ensures OfEntry(limits, bound, x).ownLow ==> Sum(Blocks, [ItemOf(path, x)]) == OfEntry(limits, bound, x).own
  {
    hide OfEntries, SaturatingMul, SaturatingSub;
    var item := ItemOf(path, x);
    assert [item][0] == item && [item][..0] == [];
    assert Sum(Blocks, []) == 0;
  }

  lemma NoneHere(limits: Limits, bound: u64, path: Path)
    ensures Here(path, []) == [] && Subs(path, []) == []
    ensures OfEntries(limits, bound, []) == Summary(0, true, 0, 0, true)
    ensures AllBelow(limits, bound, []) && Sum(Blocks, []) == 0
  {
  }

  lemma HasFirst(path: Path, entries: seq<Entry>, p: seq<Item>)
    requires p != [] && (p <= Here(path, entries) || p <= Order(Subs(path, entries)))
    ensures entries != []
  {
    NoOrder();
  }

  lemma AddedUp(a: Summary, b: Summary)
    ensures Both(a, b).own == a.own + b.own && Both(a, b).lowSubs == a.lowSubs + b.lowSubs
    ensures Both(a, b).ownLow == (a.ownLow && b.ownLow) && Both(a, b).subsLow == (a.subsLow && b.subsLow)
    ensures a.highSub <= Both(a, b).highSub && b.highSub <= Both(a, b).highSub
    ensures Both(a, b).highSub == a.highSub || Both(a, b).highSub == b.highSub
  {
  }

  lemma {:induction false} HereLow(limits: Limits, bound: u64, path: Path, entries: seq<Entry>)
    ensures AllBelow(limits, bound, Here(path, entries)) <==> OfEntries(limits, bound, entries).ownLow
    ensures OfEntries(limits, bound, entries).ownLow ==>
        Sum(Blocks, Here(path, entries)) == OfEntries(limits, bound, entries).own
    decreases |entries|
  {
    hide *;
    NoneHere(limits, bound, path);
    if entries != [] {
      var x, rest := entries[0], entries[1..];
      FirstAndRest(entries);
      HereLow(limits, bound, path, rest);
      ConsUnfolds(path, x, rest);
      OfHead(limits, bound, x, rest);
      OneItem(limits, bound, path, x);
      BelowBoth(limits, bound, [ItemOf(path, x)], Here(path, rest));
      SumConcat(Blocks, [ItemOf(path, x)], Here(path, rest));
      AddedUp(OfEntry(limits, bound, x), OfEntries(limits, bound, rest));
    }
  }

  /** What comes first in a directory. */
  lemma {:induction false} HereReach(limits: Limits, bound: u64, path: Path, entries: seq<Entry>, p: seq<Item>)
    requires p <= Here(path, entries) && AllBelow(limits, bound, p)
    ensures Sum(Blocks, p) <= OfEntries(limits, bound, entries).own
    decreases |entries|
  {
    hide *;
    NoneHere(limits, bound, path);
    if p != [] {
      HasFirst(path, entries, p);
      var x, rest := entries[0], entries[1..];
      FirstAndRest(entries);
      ConsUnfolds(path, x, rest);
      var q := p[1..];
      assert p == [ItemOf(path, x)] + q && q <= Here(path, rest);
      BelowBoth(limits, bound, [ItemOf(path, x)], q);
      HereReach(limits, bound, path, rest, q);
      OfHead(limits, bound, x, rest);
      OneItem(limits, bound, path, x);
      SumConcat(Blocks, [ItemOf(path, x)], q);
      AddedUp(OfEntry(limits, bound, x), OfEntries(limits, bound, rest));
    }
  }

  /** What one entry adds below the directory it is in. */
  lemma EntryBelow(limits: Limits, bound: u64, path: Path, x: Entry)
    ensures x.node.Tree? ==>
        && Order(SubOf(path, x)) == Traversal(path + [x.name], x.node.entries)
        && var below := OfEntries(limits, bound, x.node.entries);
           OfEntry(limits, bound, x)
           == if IsLow(below) then Summary(0, true, Reach(below), 0, true)
              else Summary(0, true, 0, Reach(below), false)
    ensures x.node.Leaf? ==> var s := OfEntry(limits, bound, x);
        Order(SubOf(path, x)) == [] && s.lowSubs == 0 && s.highSub == 0 && s.subsLow
  {
    if x.node.Tree? {
      TraversalIsOrder(path + [x.name], x.node.entries);
    }
    hide Order, Traversal, BlockOverhead, Reach, OfEntries;
    NoOrder();
  }

  lemma BelowHead(path: Path, x: Entry, rest: seq<Entry>)
    ensures Order(Subs(path, [x] + rest)) == Order(Subs(path, rest)) + Order(SubOf(path, x))
  {
    ConsUnfolds(path, x, rest);
    OrderConcat(SubOf(path, x), Subs(path, rest));
    hide *;
  }

  lemma {:induction false} BelowLow(limits: Limits, bound: u64, path: Path, entries: seq<Entry>)
    ensures AllBelow(limits, bound, Order(Subs(path, entries))) <==> OfEntries(limits, bound, entries).subsLow
    ensures OfEntries(limits, bound, entries).subsLow ==>
        Sum(Blocks, Order(Subs(path, entries))) == OfEntries(limits, bound, entries).lowSubs
    decreases entries, 0
  {
    hide *;
    NoneHere(limits, bound, path);
    NoOrder();
    if entries != [] {
      var x, rest := entries[0], entries[1..];
      FirstAndRest(entries);
      BelowHead(path, x, rest);
      BelowLow(limits, bound, path, rest);
      EntryBelow(limits, bound, path, x);
      if x.node.Tree? {
        TraversalLow(limits, bound, path + [x.name], x.node.entries);
      }
      OfHead(limits, bound, x, rest);
      BelowBoth(limits, bound, Order(Subs(path, rest)), Order(SubOf(path, x)));
      SumConcat(Blocks, Order(Subs(path, rest)), Order(SubOf(path, x)));
      AddedUp(OfEntry(limits, bound, x), OfEntries(limits, bound, rest));
    }
  }

  lemma ReachOf(limits: Limits, bound: u64, entries: seq<Entry>)
    ensures var s := OfEntries(limits, bound, entries);
      && Reach(s) == s.own + (if s.ownLow then s.lowSubs + s.highSub else 0)
      && (IsLow(s) <==> s.ownLow && s.subsLow)
      && (s.subsLow ==> s.highSub == 0)
  {
    LowHasNoHigh(limits, bound, entries);
    hide OfEntries;
  }

  lemma Traverses(path: Path, entries: seq<Entry>)
    ensures Traversal(path, entries) == Here(path, entries) + Order(Subs(path, entries))
  {
    hide Here, Order, Subs;
  }

  /** A tree without files above the bound is wholly within reach. */
  lemma {:induction false} TraversalLow(limits: Limits, bound: u64, path: Path, entries: seq<Entry>)
    ensures AllBelow(limits, bound, Traversal(path, entries)) <==> IsLow(OfEntries(limits, bound, entries))
    ensures IsLow(OfEntries(limits, bound, entries)) ==>
        Sum(Blocks, Traversal(path, entries)) == Reach(OfEntries(limits, bound, entries))
    decreases entries, 1
  {
    hide *;
    HereLow(limits, bound, path, entries);
    BelowLow(limits, bound, path, entries);
    Traverses(path, entries);
    BelowBoth(limits, bound, Here(path, entries), Order(Subs(path, entries)));
    SumConcat(Blocks, Here(path, entries), Order(Subs(path, entries)));
    ReachOf(limits, bound, entries);
  }

  lemma {:induction false} BelowReach(limits: Limits, bound: u64, path: Path, entries: seq<Entry>, p: seq<Item>)
    requires p <= Order(Subs(path, entries)) && AllBelow(limits, bound, p)
    ensures var s := OfEntries(limits, bound, entries); Sum(Blocks, p) <= s.lowSubs + s.highSub
    decreases entries, 0
  {
    hide *;
    NoneHere(limits, bound, path);
    NoOrder();
    if p != [] {
      HasFirst(path, entries, p);
      var x, rest := entries[0], entries[1..];
      FirstAndRest(entries);
      BelowHead(path, x, rest);
      OfHead(limits, bound, x, rest);
      AddedUp(OfEntry(limits, bound, x), OfEntries(limits, bound, rest));
      var later, sub := Order(Subs(path, rest)), Order(SubOf(path, x));
      var q := PrefixOfBoth(p, later, sub);
      if p <= later {
        BelowReach(limits, bound, path, rest, p);
      } else {
        BelowBoth(limits, bound, later, q);
        BelowLow(limits, bound, path, rest);
        ReachOf(limits, bound, rest);
        SumConcat(Blocks, later, q);
        EntryBelow(limits, bound, path, x);
        if x.node.Tree? {
          TraversalReach(limits, bound, path + [x.name], x.node.entries, q);
        }
      }
    }
  }

  /** No traversal brings more forward than the worst case. */
  lemma {:induction false} TraversalReach(limits: Limits, bound: u64, path: Path, entries: seq<Entry>, p: seq<Item>)
    requires p <= Traversal(path, entries) && AllBelow(limits, bound, p)
    ensures Sum(Blocks, p) <= Reach(OfEntries(limits, bound, entries))
    decreases entries, 1
  {
    hide *;
    Traverses(path, entries);
    ReachOf(limits, bound, entries);
    var here, below := Here(path, entries), Order(Subs(path, entries));
    var q := PrefixOfBoth(p, here, below);
    if p <= here {
      HereReach(limits, bound, path, entries, p);
    } else {
      BelowBoth(limits, bound, here, q);
      HereLow(limits, bound, path, entries);
      BelowReach(limits, bound, path, entries, q);
      SumConcat(Blocks, here, q);
    }
  }

  // --------------------------------------------------- the bound is reached

  /** The worst listing: subtrees with files above the bound, then everything below it, then larger files. */
  datatype Layout = Layout(high: seq<Entry>, low: seq<Entry>, large: seq<Entry>)

  function Listed(l: Layout): seq<Entry> {
    l.high + l.low + l.large
  }

  ghost predicate LowPart(limits: Limits, bound: u64, s: Summary, low: seq<Entry>) {
    var of := OfEntries(limits, bound, low);
    IsLow(of) && of.own == s.own && of.lowSubs == s.lowSubs
  }

  predicate LargePart(path: Path, s: Summary, large: seq<Entry>) {
    Subs(path, large) == [] && (large == [] <==> s.ownLow)
  }

  /** `first` is what they bring forward. */
  ghost predicate HighPart(limits: Limits, bound: u64, path: Path, s: Summary, high: seq<Entry>, first: seq<Item>) {
    && OfEntries(limits, bound, high).ownLow && OfEntries(limits, bound, high).own == 0
    && first <= Order(Subs(path, high)) && AllBelow(limits, bound, first) && Sum(Blocks, first) == s.highSub
  }

  lemma PlaceLow(limits: Limits, bound: u64, x: Entry, s: Summary, low: seq<Entry>)
    requires LowPart(limits, bound, s, low) && IsLow(OfEntry(limits, bound, x))
    ensures LowPart(limits, bound, Both(OfEntry(limits, bound, x), s), [x] + low)
  {
    OfHead(limits, bound, x, low);
    hide OfEntries, OfEntry;
  }

  lemma KeepLow(limits: Limits, bound: u64, x: Entry, s: Summary, low: seq<Entry>)
    requires LowPart(limits, bound, s, low) && !IsLow(OfEntry(limits, bound, x))
    ensures LowPart(limits, bound, Both(OfEntry(limits, bound, x), s), low)
  {
    hide OfEntries, BlockOverhead, Allocation, Reach;
  }

  lemma PlaceLarge(path: Path, x: Entry, e: Summary, s: Summary, large: seq<Entry>)
    requires LargePart(path, s, large) && x.node.Leaf? && !e.ownLow
    ensures LargePart(path, Both(e, s), [x] + large)
  {
    ConsUnfolds(path, x, large);
    hide Subs;
  }

  lemma KeepLarge(path: Path, e: Summary, s: Summary, large: seq<Entry>)
    requires LargePart(path, s, large) && e.ownLow
    ensures LargePart(path, Both(e, s), large)
  {
    hide Subs;
  }

  lemma KeepHigh(
      limits: Limits, bound: u64, path: Path, e: Summary, s: Summary, high: seq<Entry>, first: seq<Item>)
    requires HighPart(limits, bound, path, s, high, first) && e.highSub == 0
    ensures HighPart(limits, bound, path, Both(e, s), high, first)
  {
    hide Subs, Order, OfEntries, AllBelow;
  }

  lemma TreesAreLow(limits: Limits, bound: u64, x: Entry)
    requires x.node.Tree?
    ensures OfEntry(limits, bound, x).ownLow && OfEntry(limits, bound, x).own == 0
  {
    hide OfEntries, Reach;
  }

  /** A subtree that brings forward no more than another one is read last. */
  lemma PlaceLast(
      limits: Limits, bound: u64, path: Path, x: Entry, e: Summary, s: Summary, high: seq<Entry>, first: seq<Item>)
    requires HighPart(limits, bound, path, s, high, first) && x.node.Tree? && e.highSub <= s.highSub
    ensures HighPart(limits, bound, path, Both(e, s), [x] + high, first)
  {
    OfHead(limits, bound, x, high);
    TreesAreLow(limits, bound, x);
    BelowHead(path, x, high);
    hide Subs, Order, OfEntries, OfEntry, AllBelow;
    var later, sub := Order(Subs(path, high)), Order(SubOf(path, x));
    assert later <= later + sub;
  }

  /** One that brings forward more is read first. */
  lemma PlaceFirst(
      limits: Limits, bound: u64, path: Path, x: Entry, e: Summary, s: Summary, high: seq<Entry>, before: seq<Item>,
      first: seq<Item>)
    requires HighPart(limits, bound, path, s, high, before) && x.node.Tree? && e.highSub > s.highSub
    requires first <= Order(SubOf(path, x)) && AllBelow(limits, bound, first) && Sum(Blocks, first) == e.highSub
    ensures HighPart(limits, bound, path, Both(e, s), high + [x], first)
  {
    OfConcat(limits, bound, high, [x]);
    OfOne(limits, bound, x);
    TreesAreLow(limits, bound, x);
    OrderSpread(path, high, [x]);
    OneSub(path, x);
    hide Subs, Order, OfEntries, OfEntry, AllBelow;
    var sub, later := Order(SubOf(path, x)), Order(Subs(path, high));
    assert sub <= sub + later;
  }

  lemma OneSub(path: Path, x: Entry)
    ensures Subs(path, [x]) == SubOf(path, x)
  {
    assert [] + [x] == [x];
    SnocUnfolds(path, [], x);
  }

  lemma Inserted(x: Entry, rest: seq<Entry>, front: seq<Entry>, y: Entry, back: seq<Entry>)
    requires SameEntry(x, y) && Relisted(rest, front + back)
    ensures Relisted([x] + rest, front + [y] + back)
  {
    var a, b := [x] + rest, front + [y] + back;
    assert a[0] == x && a[1..] == rest && b[|front|] == y;
    assert RemoveAt(b, |front|) == front + back;
    hide SameEntry;
  }

  lemma RelistedIn(x: Entry, y: Entry, rest: seq<Entry>, l: Layout)
    requires SameEntry(x, y) && Relisted(rest, Listed(l))
    ensures Relisted([x] + rest, Listed(l.(high := [y] + l.high)))
    ensures Relisted([x] + rest, Listed(l.(high := l.high + [y])))
    ensures Relisted([x] + rest, Listed(l.(low := [y] + l.low)))
    ensures Relisted([x] + rest, Listed(l.(large := [y] + l.large)))
  {
    hide Relisted, SameEntry;
    var h, g, f := l.high, l.low, l.large;
    assert h + g + f == [] + (h + g + f) == h + (g + f) == (h + g) + f;
    Inserted(x, rest, [], y, h + g + f);
    assert [] + [y] + (h + g + f) == ([y] + h) + g + f;
    Inserted(x, rest, h, y, g + f);
    assert h + [y] + (g + f) == (h + [y]) + g + f == h + ([y] + g) + f;
    Inserted(x, rest, h + g, y, f);
    assert (h + g) + [y] + f == h + g + ([y] + f);
  }

  ghost predicate Arranged(
      limits: Limits, bound: u64, path: Path, entries: seq<Entry>, l: Layout, first: seq<Item>)
  {
    var s := OfEntries(limits, bound, entries);
    && Relisted(entries, Listed(l))
    && LowPart(limits, bound, s, l.low) && LargePart(path, s, l.large)
    && HighPart(limits, bound, path, s, l.high, first)
  }

  lemma SameAsItself(x: Entry)
    ensures SameEntry(x, x)
  {
    if x.node.Tree? {
      RelistedAsItIs(x.node.entries);
    }
  }

  lemma ArrangeLeaf(
      limits: Limits, bound: u64, path: Path, x: Entry, rest: seq<Entry>, l: Layout, first: seq<Item>)
      returns (more: Layout)
    requires x.node.Leaf? || IsLow(OfEntry(limits, bound, x))
    requires Arranged(limits, bound, path, rest, l, first)
    ensures Arranged(limits, bound, path, [x] + rest, more, first)
  {
    var e, s := OfEntry(limits, bound, x), OfEntries(limits, bound, rest);
    SameAsItself(x);
    OfHead(limits, bound, x, rest);
    RelistedIn(x, x, rest, l);
    assert e.highSub == 0 && (!IsLow(e) ==> !e.ownLow);
    KeepHigh(limits, bound, path, e, s, l.high, first);
    if IsLow(e) {
      PlaceLow(limits, bound, x, s, l.low);
      KeepLarge(path, e, s, l.large);
      more := l.(low := [x] + l.low);
    } else {
      KeepLow(limits, bound, x, s, l.low);
      PlaceLarge(path, x, e, s, l.large);
      more := l.(large := [x] + l.large);
    }
    hide OfEntry, OfEntries, HighPart, LowPart, LargePart, Relisted, Both;
  }

  lemma ArrangeTree(
      limits: Limits, bound: u64, path: Path, x: Entry, inside: seq<Entry>, p: seq<Item>, rest: seq<Entry>,
      l: Layout, first: seq<Item>) returns (more: Layout, q: seq<Item>)
    requires x.node.Tree? && !IsLow(OfEntry(limits, bound, x)) && Relisted(x.node.entries, inside)
    requires p <= Traversal(path + [x.name], inside) && AllBelow(limits, bound, p)
    requires Sum(Blocks, p) == Reach(OfEntries(limits, bound, x.node.entries))
    requires Arranged(limits, bound, path, rest, l, first)
    ensures Arranged(limits, bound, path, [x] + rest, more, q)
  {
    var e, s := OfEntry(limits, bound, x), OfEntries(limits, bound, rest);
    var y := Entry(x.name, Tree(inside));
    assert SameEntry(x, y);
    EntryBelow(limits, bound, path, x);
    EntryBelow(limits, bound, path, y);
    OfHead(limits, bound, x, rest);
    RelistedIn(x, y, rest, l);
    assert IsLow(e) <==> e.ownLow && e.subsLow;
    hide *;
    KeepLow(limits, bound, x, s, l.low);
    KeepLarge(path, e, s, l.large);
    if e.highSub <= s.highSub {
      PlaceLast(limits, bound, path, y, e, s, l.high, first);
      more, q := l.(high := [y] + l.high), first;
    } else {
      PlaceFirst(limits, bound, path, y, e, s, l.high, first, p);
      more, q := l.(high := l.high + [y]), p;
    }
  }

  lemma NothingArranged(limits: Limits, bound: u64, path: Path)
    ensures Arranged(limits, bound, path, [], Layout([], [], []), [])
  {
    NoOrder();
    assert Listed(Layout([], [], [])) == [];
    hide Order;
  }

  lemma {:induction false} Arrange(limits: Limits, bound: u64, path: Path, entries: seq<Entry>)
      returns (l: Layout, first: seq<Item>)
    ensures Arranged(limits, bound, path, entries, l, first)
    decreases entries, 0
  {
    hide *;
    if entries == [] {
      l, first := Layout([], [], []), [];
      NothingArranged(limits, bound, path);
    } else {
      var x, rest := entries[0], entries[1..];
      FirstAndRest(entries);
      l, first := Arrange(limits, bound, path, rest);
      if x.node.Leaf? || IsLow(OfEntry(limits, bound, x)) {
        l := ArrangeLeaf(limits, bound, path, x, rest, l, first);
      } else {
        var inside, p := WorstListing(limits, bound, path + [x.name], x.node.entries);
        l, first := ArrangeTree(limits, bound, path, x, inside, p, rest, l, first);
      }
    }
  }

  lemma PartsOf(limits: Limits, bound: u64, path: Path, entries: seq<Entry>, l: Layout, first: seq<Item>)
    requires Arranged(limits, bound, path, entries, l, first)
    ensures var s := OfEntries(limits, bound, entries);
      var high, low := OfEntries(limits, bound, l.high), OfEntries(limits, bound, l.low);
      && Relisted(entries, Listed(l)) && Listed(l) == l.high + l.low + l.large
      && low.ownLow && low.subsLow && low.own == s.own && low.lowSubs == s.lowSubs
      && high.ownLow && high.own == 0
      && first <= Order(Subs(path, l.high)) && AllBelow(limits, bound, first) && Sum(Blocks, first) == s.highSub
      && Subs(path, l.large) == [] && (l.large == [] <==> s.ownLow)
  {
    hide Relisted, OfEntries, Subs, Order, AllBelow, Sum;
  }

  /** The traversal of such a listing. */
  lemma LaidOut(path: Path, l: Layout)
    requires Subs(path, l.large) == []
    ensures Here(path, Listed(l)) == Here(path, l.high) + Here(path, l.low) + Here(path, l.large)
    ensures Order(Subs(path, Listed(l))) == Order(Subs(path, l.low)) + Order(Subs(path, l.high))
  {
    hide Here, Subs, Order;
    Spread(path, l.high + l.low, l.large);
    Spread(path, l.high, l.low);
    assert Subs(path, l.high + l.low) + [] == Subs(path, l.high + l.low);
    OrderSpread(path, l.high, l.low);
  }

  lemma PrefixTwice(a: seq<Item>, b: seq<Item>, c: seq<Item>, first: seq<Item>)
    requires first <= c
    ensures a + (b + first) <= a + (b + c)
  {
  }

  lemma PrefixOnce(a: seq<Item>, b: seq<Item>, c: seq<Item>)
    ensures a <= (a + b) + c
  {
  }

  /** Some listing brings forward as much as the worst case says. */
  lemma {:induction false} WorstListing(limits: Limits, bound: u64, path: Path, entries: seq<Entry>)
      returns (listing: seq<Entry>, p: seq<Item>)
    ensures Relisted(entries, listing) && p <= Traversal(path, listing)
    ensures AllBelow(limits, bound, p) && Sum(Blocks, p) == Reach(OfEntries(limits, bound, entries))
    decreases entries, 1
  {
    hide *;
    var l, first := Arrange(limits, bound, path, entries);
    PartsOf(limits, bound, path, entries, l, first);
    LaidOut(path, l);
    listing := Listed(l);
    Traverses(path, listing);
    HereLow(limits, bound, path, l.high);
    HereLow(limits, bound, path, l.low);
    BelowLow(limits, bound, path, l.low);
    var here := Here(path, l.high) + Here(path, l.low);
    var below := Order(Subs(path, l.low));
    BelowBoth(limits, bound, Here(path, l.high), Here(path, l.low));
    SumConcat(Blocks, Here(path, l.high), Here(path, l.low));
    ReachOf(limits, bound, entries);
    NoneHere(limits, bound, path);
    if l.large == [] {
      assert here + Here(path, l.large) == here;
      p := here + (below + first);
      BelowBoth(limits, bound, below, first);
      SumConcat(Blocks, below, first);
      BelowBoth(limits, bound, here, below + first);
      SumConcat(Blocks, here, below + first);
      PrefixTwice(here, below, Order(Subs(path, l.high)), first);
    } else {
      p := here;
      PrefixOnce(here, Here(path, l.large), Order(Subs(path, listing)));
    }
  }

  // ------------------------------------------------------------ every listing

  /** Every file's own allowance covers the most that can come before a file of a larger overhead. */
  predicate WorstFits(limits: Limits, root: seq<Entry>) {
    forall i :: 0 <= i < |Items([], root)| && Items([], root)[i].kind.Regular? ==>
        FitsUpTo(limits, root, BlockOverhead(limits, Items([], root)[i].kind))
  }

  predicate FitsUpTo(limits: Limits, root: seq<Entry>, bound: u64) {
    Worst(limits, bound, root) <= SaturatingAdd(limits.maxBytes, bound)
  }

  lemma TreeOrderTraverses(root: seq<Entry>)
    ensures TreeOrder(root) == Traversal([], root)
  {
    TraversalIsOrder([], root);
    hide Order, Traversal;
  }

  lemma PrefixIsTested(limits: Limits, listing: seq<Entry>, p: seq<Item>)
    requires Inspected(limits, listing).Some? && p <= TreeOrder(listing)
    ensures BlocksFit(limits, p)
  {
    hide Inspected, TreeOrder, WithinCounts, BlocksFit;
    InspectedIffEveryPrefixFits(limits, listing);
    assert TreeOrder(listing)[..|p|] == p;
  }

  lemma AllowanceTested(limits: Limits, root: seq<Entry>, bound: u64, p: seq<Item>)
    requires BlocksFit(limits, p) && Overhead(limits, p) <= bound
    requires Sum(Blocks, p) == Reach(OfEntries(limits, bound, root))
    ensures FitsUpTo(limits, root, bound)
  {
    hide OfEntries, Reach, Overhead, Sum;
  }

  /** A listing that brings everything forward puts the allowance to the test. */
  lemma WorstIsTested(limits: Limits, root: seq<Entry>, bound: u64)
    requires forall listing :: Relisted(root, listing) ==> Inspected(limits, listing).Some?
    ensures FitsUpTo(limits, root, bound)
  {
    hide *;
    var listing, p := WorstListing(limits, bound, [], root);
    TreeOrderTraverses(listing);
    BelowBound(limits, bound, p);
    PrefixIsTested(limits, listing, p);
    AllowanceTested(limits, root, bound, p);
  }

  lemma BelowBound(limits: Limits, bound: u64, p: seq<Item>)
    requires AllBelow(limits, bound, p)
    ensures Overhead(limits, p) <= bound
  {
    OverheadAtMost(limits, p, bound);
  }

  /** In no listing does any prefix outgrow the allowance it has reached. */
  lemma PrefixWithin(limits: Limits, root: seq<Entry>, listing: seq<Entry>, p: seq<Item>)
    requires Relisted(root, listing) && WorstFits(limits, root) && p <= TreeOrder(listing)
    ensures BlocksFit(limits, p)
  {
    hide *;
    if Sum(Files, p) == 0 {
      EmptyFits(limits, p);
    } else {
      var f := FileAttains(limits, p);
      var bound := Overhead(limits, p);
      WithinOverhead(limits, p);
      TreeOrderTraverses(listing);
      TraversalReach(limits, bound, [], listing, p);
      RelistedWorst(limits, bound, root, listing);
      FromTheTree(root, listing, p, f);
      FileFits(limits, root, p[f]);
      FitsMeans(limits, root, p);
    }
  }

  lemma EmptyFits(limits: Limits, p: seq<Item>)
    requires Sum(Files, p) == 0
    ensures BlocksFit(limits, p)
  {
    FilesHaveBlocks(p);
  }

  lemma WithinOverhead(limits: Limits, p: seq<Item>)
    ensures AllBelow(limits, Overhead(limits, p), p)
  {
    forall i | 0 <= i < |p|
      ensures BlockOverhead(limits, p[i].kind) <= Overhead(limits, p)
    {
      OverheadBounds(limits, p, i);
    }
  }

  /** What the traversal of a listing meets is in the tree. */
  lemma FromTheTree(root: seq<Entry>, listing: seq<Entry>, p: seq<Item>, f: nat)
    requires Relisted(root, listing) && p <= TreeOrder(listing) && f < |p|
    ensures p[f] in Items([], root)
  {
    RelistedItems([], root, listing);
    TreeOrderIsComplete(listing);
    hide Relisted, Items, TreeOrder;
    assert p[f] == TreeOrder(listing)[f];
    assert p[f] in multiset(TreeOrder(listing));
  }

  lemma FileFits(limits: Limits, root: seq<Entry>, file: Item)
    requires WorstFits(limits, root) && file in Items([], root) && file.kind.Regular?
    ensures FitsUpTo(limits, root, BlockOverhead(limits, file.kind))
  {
    hide Items, BlockOverhead, FitsUpTo;
  }

  lemma FitsMeans(limits: Limits, root: seq<Entry>, p: seq<Item>)
    requires FitsUpTo(limits, root, Overhead(limits, p))
    requires Sum(Blocks, p) <= Reach(OfEntries(limits, Overhead(limits, p), root))
    ensures BlocksFit(limits, p)
  {
    hide OfEntries, Reach, Overhead, Sum;
  }

  /**
   Exactly which trees are accepted however their directories are listed: they keep the
   counts, and every file's allowance covers the worst case up to it.
   */
  lemma EveryListingIffWorstFits(limits: Limits, root: seq<Entry>)
    ensures (forall listing :: Relisted(root, listing) ==> Inspected(limits, listing).Some?)
       <==> WithinCounts(limits, Items([], root)) && WorstFits(limits, root)
  {
    hide Relisted, Inspected, WithinCounts, Items, TreeOrder, FitsUpTo;
    if forall listing :: Relisted(root, listing) ==> Inspected(limits, listing).Some? {
      RelistedAsItIs(root);
      InspectedIffEveryPrefixFits(limits, root);
      forall bound
        ensures FitsUpTo(limits, root, bound)
      {
        WorstIsTested(limits, root, bound);
      }
    }
    if WithinCounts(limits, Items([], root)) && WorstFits(limits, root) {
      forall listing | Relisted(root, listing)
        ensures Inspected(limits, listing).Some?
      {
        forall n | 0 <= n <= |TreeOrder(listing)|
          ensures BlocksFit(limits, TreeOrder(listing)[..n])
        {
          PrefixWithin(limits, root, listing, TreeOrder(listing)[..n]);
        }
        RelistedItems([], root, listing);
        PermutedCounts(limits, Items([], root), Items([], listing));
        InspectedIffEveryPrefixFits(limits, listing);
      }
    }
  }

  /** So a tree accepted as it is listed is refused in some other listing exactly if the worst case does not fit. */
  lemma ListingDecidesIff(limits: Limits, root: seq<Entry>)
    requires Inspected(limits, root).Some?
    ensures (exists listing :: Relisted(root, listing) && Inspected(limits, listing).None?)
       <==> !WorstFits(limits, root)
  {
    hide Inspected, WorstFits, Relisted;
    EveryListingIffWorstFits(limits, root);
    AcceptedTreeKeepsLimits(limits, root);
    hide WithinCounts, Items;
  }

  lemma ThreeItems(file: Entry, dir: Entry, inner: Entry)
    requires file.node.Leaf? && inner.node.Leaf? && dir.node == Tree([inner])
    ensures Items([], [file, dir]) == [ItemOf([], file), ItemOf([], dir), ItemOf([dir.name], inner)]
  {
    assert [file, dir] == [file] + ([dir] + []) && [inner] == [inner] + [];
    ItemsHead([], file, [dir] + []);
    ItemsHead([], dir, []);
    ItemsHead([dir.name], inner, []);
    AllItemsOne(Listing([dir.name], [inner]));
    assert [] + [dir.name] == [dir.name];
  }

  lemma ThreeSums(q: Quantity, x: Item, y: Item, z: Item)
    ensures Sum(q, [x, y, z]) == Amount(q, x) + Amount(q, y) + Amount(q, z)
  {
    assert [x, y, z][..2] == [x, y] && [x, y][..1] == [x] && [x][..0] == [];
    assert Sum(q, [x]) == Amount(q, x);
    assert Sum(q, [x, y]) == Amount(q, x) + Amount(q, y);
    hide Amount;
  }

  lemma ThreeSummaries(limits: Limits, bound: u64, file: Entry, dir: Entry, inner: Entry)
    requires file.node.Leaf? && inner.node.Leaf? && dir.node == Tree([inner])
    ensures OfEntries(limits, bound, [file, dir])
         == Both(OfEntry(limits, bound, file), OfEntry(limits, bound, dir))
    ensures OfEntries(limits, bound, [inner]) == OfEntry(limits, bound, inner)
  {
    assert [file, dir] == [file] + [dir];
    OfHead(limits, bound, file, [dir]);
    OfOne(limits, bound, dir);
    OfOne(limits, bound, inner);
    hide OfEntry, Both;
  }

  const TWO_SMALL: Limits := Limits(2, 1000, 1000, false)
  const SMALL: Kind := Regular(600, 1, 8, 512)
  const LARGE: Kind := Regular(100, 1, 8, 65536)
  const BELOW: Entry := Entry("a", Leaf(SMALL))
  const NESTED: seq<Entry> := [Entry("b", Leaf(LARGE)), Entry("d", Tree([BELOW]))]

  lemma NestedItems()
    ensures Items([], NESTED)
         == [Item(["b"], LARGE), Item(["d"], Directory), Item(["d", "a"], SMALL)]
    ensures BlockOverhead(TWO_SMALL, SMALL) == 1022 && BlockOverhead(TWO_SMALL, LARGE) == 131070
    ensures Allocation(SMALL) == 4096 && Allocation(LARGE) == 4096
  {
    ThreeItems(NESTED[0], NESTED[1], BELOW);
    assert [] + ["b"] == ["b"] && [] + ["d"] == ["d"] && ["d"] + ["a"] == ["d", "a"];
  }

  lemma NestedIsNotOrderFree()
    ensures !OrderFree(TWO_SMALL, Items([], NESTED)) && WithinCounts(TWO_SMALL, Items([], NESTED))
  {
    NestedItems();
    var items := Items([], NESTED);
    forall q: Quantity
      ensures Sum(q, items) == Amount(q, items[0]) + Amount(q, items[1]) + Amount(q, items[2])
    {
      ThreeSums(q, items[0], items[1], items[2]);
    }
    hide Sum, Items, BlockOverhead, Allocation;
    assert !Covered(TWO_SMALL, items, 1022);
    assert items[2].kind == SMALL;
  }

  lemma LeafSummary(limits: Limits, bound: u64, x: Entry)
    requires x.node.Leaf?
    ensures OfEntry(limits, bound, x)
         == LeafPart(BlockOverhead(limits, x.node.kind) <= bound, Allocation(x.node.kind))
  {
    hide BlockOverhead, Allocation;
  }

  function LeafPart(low: bool, blocks: nat): Summary {
    if low then Summary(blocks, true, 0, 0, true) else Summary(0, false, 0, 0, true)
  }

  lemma ReachOfThree(f: Summary, d: Summary, i: Summary, fileLow: bool, file: nat, innerLow: bool, inner: nat)
    requires f == LeafPart(fileLow, file) && i == LeafPart(innerLow, inner)
    requires d == if IsLow(i) then Summary(0, true, Reach(i), 0, true) else Summary(0, true, 0, Reach(i), false)
    ensures Reach(Both(f, d)) == if !fileLow then 0 else file + if innerLow then inner else 0
  {
  }

  lemma ThreeReach(limits: Limits, bound: u64, file: Entry, dir: Entry, inner: Entry)
    requires file.node.Leaf? && inner.node.Leaf? && dir.node == Tree([inner])
    ensures Worst(limits, bound, [file, dir])
         == if BlockOverhead(limits, file.node.kind) > bound then 0
            else Allocation(file.node.kind)
                 + if BlockOverhead(limits, inner.node.kind) <= bound then Allocation(inner.node.kind) else 0
  {
    hide *;
    WorstIs(limits, bound, [file, dir]);
    ThreeSummaries(limits, bound, file, dir, inner);
    DirSummary(limits, bound, dir, inner);
    LeafSummary(limits, bound, file);
    LeafSummary(limits, bound, inner);
    ReachOfThree(OfEntry(limits, bound, file), OfEntry(limits, bound, dir), OfEntry(limits, bound, inner),
        BlockOverhead(limits, file.node.kind) <= bound, Allocation(file.node.kind),
        BlockOverhead(limits, inner.node.kind) <= bound, Allocation(inner.node.kind));
  }

  lemma WorstIs(limits: Limits, bound: u64, entries: seq<Entry>)
    ensures Worst(limits, bound, entries) == Reach(OfEntries(limits, bound, entries))
  {
    hide OfEntries, Reach;
  }

  lemma DirSummary(limits: Limits, bound: u64, dir: Entry, inner: Entry)
    requires dir.node == Tree([inner])
    ensures var i := OfEntry(limits, bound, inner);
      OfEntry(limits, bound, dir)
      == if IsLow(i) then Summary(0, true, Reach(i), 0, true) else Summary(0, true, 0, Reach(i), false)
  {
    hide *;
    EntryBelow(limits, bound, [], dir);
    OfOne(limits, bound, inner);
  }

  /**
   A tree that some order of its entries would fail, but no listing does: the file on large
   blocks is in the root, so it is always met before the one below.
   */
  lemma DepthSettlesTheOrder()
    ensures !OrderFree(TWO_SMALL, Items([], NESTED))
    ensures forall listing :: Relisted(NESTED, listing) ==> Inspected(TWO_SMALL, listing).Some?
  {
    NestedItems();
    NestedIsNotOrderFree();
    ThreeReach(TWO_SMALL, 1022, NESTED[0], NESTED[1], BELOW);
    ThreeReach(TWO_SMALL, 131070, NESTED[0], NESTED[1], BELOW);
    hide OrderFree, Items, BlockOverhead, Allocation, Worst, WithinCounts, Relisted, Inspected;
    assert WorstFits(TWO_SMALL, NESTED);
    EveryListingIffWorstFits(TWO_SMALL, NESTED);
  }
}
