/**
 How far the answer of `inspect_tree` (native/src/artifact.rs) depends on the order in
 which directories list their entries. The allowance for rounding up to blocks grows with
 the largest block size met so far, so with mixed block sizes the order can decide.
 */
module ArtifactOrder {
  import opened Wrappers
  import opened UInt64
  import opened ArtifactTree

  // ------------------------------------------------------- the exact condition

  ghost predicate EveryPrefixFits(limits: Limits, items: seq<Item>) {
    forall n :: 0 <= n <= |items| ==> BlocksFit(limits, items[..n])
  }

  lemma PrefixesMore(limits: Limits, items: seq<Item>)
    requires items != []
    ensures EveryPrefixFits(limits, items)
       <==> EveryPrefixFits(limits, items[..|items| - 1]) && BlocksFit(limits, items)
  {
    var before := items[..|items| - 1];
    hide BlocksFit;
    assert items[..|items|] == items;
    assert forall n :: 0 <= n <= |before| ==> items[..n] == before[..n];
  }

  lemma CountsMore(limits: Limits, items: seq<Item>)
    requires items != [] && WithinCounts(limits, items[..|items| - 1])
    requires BlocksFit(limits, items[..|items| - 1])
    ensures WithinCounts(limits, items) && BlocksFit(limits, items) <==> Fits(limits, items)
  {
    hide EntryOk, MaxEntries, SaturatingAdd;
    var n := |items| - 1;
    assert forall i :: 0 <= i < n ==> items[..n][i] == items[i];
  }

  lemma CountsBefore(limits: Limits, items: seq<Item>)
    requires items != [] && WithinCounts(limits, items)
    ensures WithinCounts(limits, items[..|items| - 1])
  {
    hide EntryOk, MaxEntries;
    var n := |items| - 1;
    assert forall i :: 0 <= i < n ==> items[..n][i] == items[i];
  }

  /** A scan accepts exactly when the counts keep their limits and every prefix fits its own allowance. */
  lemma {:induction false} ScanIffEveryPrefixFits(limits: Limits, items: seq<Item>)
    ensures Scan(limits, items).Some? <==> WithinCounts(limits, items) && EveryPrefixFits(limits, items)
    decreases |items|
  {
    if items != [] {
      var before := items[..|items| - 1];
      ScanIffEveryPrefixFits(limits, before);
      ScanFits(limits, items);
      PrefixesMore(limits, items);
      if WithinCounts(limits, items) {
        CountsBefore(limits, items);
      }
      if WithinCounts(limits, before) && EveryPrefixFits(limits, before) {
        assert before[..|before|] == before;
        CountsMore(limits, items);
      }
      hide Scan, Fits, WithinCounts, BlocksFit;
    }
  }

  /** The exact condition for a tree, over the order of its traversal. */
  lemma InspectedIffEveryPrefixFits(limits: Limits, root: seq<Entry>)
    ensures Inspected(limits, root).Some?
       <==> WithinCounts(limits, Items([], root)) && EveryPrefixFits(limits, TreeOrder(root))
  {
    var items, order := Items([], root), TreeOrder(root);
    TreeOrderIsComplete(root);
    ScanIffEveryPrefixFits(limits, order);
    hide Items, TreeOrder, WithinCounts, EveryPrefixFits, Scan;
    PermutedCounts(limits, items, order);
    PermutedCounts(limits, order, items);
  }

  lemma PermutedCounts(limits: Limits, a: seq<Item>, b: seq<Item>)
    requires multiset(a) == multiset(b)
    ensures WithinCounts(limits, a) ==> WithinCounts(limits, b)
  {
    PermutedTotals(limits, a, b);
    assert |multiset(a)| == |a| && |multiset(b)| == |b|;
    hide EntryOk, Sum, MaxEntries;
    if WithinCounts(limits, a) {
      forall i | 0 <= i < |b|
        ensures EntryOk(limits, b[i])
      {
        assert b[i] in multiset(a);
        assert b[i] in a;
      }
    }
  }

  // ------------------------------------------------------------- some order

  lemma {:induction false} OverheadBounds(limits: Limits, items: seq<Item>, i: nat)
    requires i < |items|
    ensures BlockOverhead(limits, items[i].kind) <= Overhead(limits, items)
    decreases |items|
  {
    hide BlockOverhead;
    if i < |items| - 1 {
      OverheadBounds(limits, items[..|items| - 1], i);
    }
  }

  lemma {:induction false} OverheadAtMost(limits: Limits, items: seq<Item>, bound: u64)
    requires forall i :: 0 <= i < |items| ==> BlockOverhead(limits, items[i].kind) <= bound
    ensures Overhead(limits, items) <= bound
    decreases |items|
  {
    hide BlockOverhead;
    if items != [] {
      OverheadAtMost(limits, items[..|items| - 1], bound);
    }
  }

  lemma {:induction false} OverheadAttained(limits: Limits, items: seq<Item>) returns (i: nat)
    requires items != []
    ensures i < |items| && BlockOverhead(limits, items[i].kind) == Overhead(limits, items)
    decreases |items|
  {
    hide BlockOverhead;
    var n := |items| - 1;
    if BlockOverhead(limits, items[n].kind) >= Overhead(limits, items[..n]) {
      i := n;
    } else {
      assert n > 0 by { assert Overhead(limits, []) == 0; }
      i := OverheadAttained(limits, items[..n]);
    }
  }

  lemma SumOfPrefix(q: Quantity, items: seq<Item>, n: nat)
    requires n <= |items|
    ensures Sum(q, items[..n]) <= Sum(q, items)
  {
    assert items == items[..n] + items[n..];
    SumConcat(q, items[..n], items[n..]);
  }

  /** With the largest block size first the allowance is complete from the start. */
  lemma LargestFirst(limits: Limits, items: seq<Item>)
    requires items != [] && BlocksFit(limits, items)
    requires BlockOverhead(limits, items[0].kind) == Overhead(limits, items)
    ensures EveryPrefixFits(limits, items)
  {
    forall n | 0 <= n <= |items|
      ensures BlocksFit(limits, items[..n])
    {
      SumOfPrefix(Blocks, items, n);
      if n > 0 {
        OverheadBounds(limits, items[..n], 0);
        hide Overhead, BlockOverhead;
      }
    }
  }

  ghost predicate Reordered(a: seq<Item>, b: seq<Item>) {
    multiset(a) == multiset(b)
  }

  lemma BestOrder(limits: Limits, items: seq<Item>) returns (order: seq<Item>)
    requires Whole(limits, items)
    ensures Reordered(order, items) && Scan(limits, order).Some?
  {
    if items == [] {
      order := [];
      assert Scan(limits, []) == Some(START);
    } else {
      var i := OverheadAttained(limits, items);
      order := [items[i]] + RemoveAt(items, i);
      assert items == items[..i] + ([items[i]] + items[i + 1..]);
      assert multiset(order) == multiset(items);
      hide RemoveAt, Scan, WithinCounts, BlocksFit, Overhead, BlockOverhead;
      PermutedTotals(limits, items, order);
      PermutedWhole(limits, items, order);
      LargestFirst(limits, order);
      ScanIffEveryPrefixFits(limits, order);
    }
  }

  /** Some order is accepted exactly when the entries as a whole keep every limit. */
  lemma SomeOrderIffWhole(limits: Limits, items: seq<Item>)
    ensures (exists order :: Reordered(order, items) && Scan(limits, order).Some?) <==> Whole(limits, items)
  {
    hide Scan, Whole;
    if order :| Reordered(order, items) && Scan(limits, order).Some? {
      AcceptedIsWhole(limits, order);
      PermutedWhole(limits, order, items);
    }
    if Whole(limits, items) {
      var order := BestOrder(limits, items);
    }
  }

  // ------------------------------------------------------------ every order

  /** Each file's own allowance covers all files of no larger block overhead. */
  predicate OrderFree(limits: Limits, items: seq<Item>) {
    && WithinCounts(limits, items)
    && forall i :: 0 <= i < |items| && items[i].kind.Regular? ==>
        Covered(limits, items, BlockOverhead(limits, items[i].kind))
  }

  predicate Covered(limits: Limits, items: seq<Item>, overhead: u64) {
    Sum(BlocksUpTo(limits, overhead), items) <= SaturatingAdd(limits.maxBytes, overhead)
  }

  function Low(limits: Limits, items: seq<Item>, overhead: u64): (low: seq<Item>)
    ensures forall i :: 0 <= i < |low| ==> low[i] in items && BlockOverhead(limits, low[i].kind) <= overhead
  {
    if items == [] then []
    else
      var last := items[|items| - 1];
      Low(limits, items[..|items| - 1], overhead) + if BlockOverhead(limits, last.kind) <= overhead then [last] else []
  }

  function High(limits: Limits, items: seq<Item>, overhead: u64): seq<Item> {
    if items == [] then []
    else
      var last := items[|items| - 1];
      High(limits, items[..|items| - 1], overhead) + if BlockOverhead(limits, last.kind) <= overhead then [] else [last]
  }

  lemma {:induction false} LowAndHigh(limits: Limits, items: seq<Item>, overhead: u64)
    ensures Reordered(Low(limits, items, overhead) + High(limits, items, overhead), items)
    decreases |items|
  {
    if items != [] {
      var n := |items| - 1;
      hide BlockOverhead;
      LowAndHigh(limits, items[..n], overhead);
      assert items == items[..n] + [items[n]];
    }
  }

  lemma {:induction false} LowHas(limits: Limits, items: seq<Item>, overhead: u64, i: nat)
    requires i < |items| && BlockOverhead(limits, items[i].kind) <= overhead
    ensures items[i] in Low(limits, items, overhead)
    decreases |items|
  {
    hide BlockOverhead;
    if i < |items| - 1 {
      LowHas(limits, items[..|items| - 1], overhead, i);
    }
  }

  lemma {:induction false} SumOfLow(limits: Limits, items: seq<Item>, overhead: u64)
    ensures Sum(Blocks, Low(limits, items, overhead)) == Sum(BlocksUpTo(limits, overhead), items)
    decreases |items|
  {
    if items != [] {
      var n := |items| - 1;
      SumOfLow(limits, items[..n], overhead);
      var low := Low(limits, items[..n], overhead);
      if BlockOverhead(limits, items[n].kind) <= overhead {
        assert (low + [items[n]])[..|low|] == low;
      } else {
        assert low + [] == low;
      }
      hide BlockOverhead, Allocation;
    }
  }

  /** Listing the files of no larger overhead first puts the file's allowance to the test. */
  lemma WorstOrder(limits: Limits, items: seq<Item>, i: nat)
    requires i < |items| && forall order :: Reordered(order, items) ==> Scan(limits, order).Some?
    ensures Covered(limits, items, BlockOverhead(limits, items[i].kind))
  {
    var overhead := BlockOverhead(limits, items[i].kind);
    var low, high := Low(limits, items, overhead), High(limits, items, overhead);
    LowAndHigh(limits, items, overhead);
    LowHas(limits, items, overhead, i);
    SumOfLow(limits, items, overhead);
    var k :| 0 <= k < |low| && low[k] == items[i];
    OverheadBounds(limits, low, k);
    OverheadAtMost(limits, low, overhead);
    hide Low, High, Sum, Overhead, BlockOverhead, Scan, WithinCounts, Reordered;
    ScanIffEveryPrefixFits(limits, low + high);
    assert (low + high)[..|low|] == low;
    assert BlocksFit(limits, low);
  }

  lemma {:induction false} AllLow(limits: Limits, items: seq<Item>, overhead: u64)
    requires forall i :: 0 <= i < |items| ==> BlockOverhead(limits, items[i].kind) <= overhead
    ensures Sum(BlocksUpTo(limits, overhead), items) == Sum(Blocks, items)
    decreases |items|
  {
    hide BlockOverhead, Allocation;
    if items != [] {
      AllLow(limits, items[..|items| - 1], overhead);
    }
  }

  /** The file that sets the allowance of a list that has files. */
  lemma {:induction false} FileAttains(limits: Limits, items: seq<Item>) returns (i: nat)
    requires Sum(Files, items) > 0
    ensures i < |items| && items[i].kind.Regular? && BlockOverhead(limits, items[i].kind) == Overhead(limits, items)
    decreases |items|
  {
    hide SaturatingMul, SaturatingSub;
    var n := |items| - 1;
    if Sum(Files, items[..n]) == 0 {
      NoFilesNoOverhead(limits, items[..n]);
    }
    if items[n].kind.Regular? && BlockOverhead(limits, items[n].kind) >= Overhead(limits, items[..n]) {
      i := n;
    } else {
      i := FileAttains(limits, items[..n]);
    }
  }

  lemma {:induction false} NoFilesNoOverhead(limits: Limits, items: seq<Item>)
    requires Sum(Files, items) == 0
    ensures Overhead(limits, items) == 0
    decreases |items|
  {
    if items != [] {
      NoFilesNoOverhead(limits, items[..|items| - 1]);
    }
  }

  lemma CoveredPrefixFits(limits: Limits, items: seq<Item>, order: seq<Item>, n: nat)
    requires OrderFree(limits, items) && Reordered(order, items) && n <= |order|
    ensures BlocksFit(limits, order[..n])
  {
    var prefix := order[..n];
    if Sum(Files, prefix) == 0 {
      FilesHaveBlocks(prefix);
    } else {
      var f := FileAttains(limits, prefix);
      var overhead := Overhead(limits, prefix);
      forall i | 0 <= i < |prefix|
        ensures BlockOverhead(limits, prefix[i].kind) <= overhead
      {
        OverheadBounds(limits, prefix, i);
      }
      AllLow(limits, prefix, overhead);
      SumOfPrefix(BlocksUpTo(limits, overhead), order, n);
      PermutedTotals(limits, order, items);
      assert prefix[f] == order[f] && order[f] in multiset(items);
      assert order[f] in items;
      hide Sum, Overhead, BlockOverhead, WithinCounts;
      assert Covered(limits, items, overhead);
    }
  }

  /** Every order is accepted exactly when the limits hold in the order-free form. */
  lemma EveryOrderIffOrderFree(limits: Limits, items: seq<Item>)
    ensures (forall order :: Reordered(order, items) ==> Scan(limits, order).Some?) <==> OrderFree(limits, items)
  {
    hide Scan, WithinCounts, Covered;
    if forall order :: Reordered(order, items) ==> Scan(limits, order).Some? {
      assert Reordered(items, items);
      ScanIffEveryPrefixFits(limits, items);
      forall i | 0 <= i < |items| && items[i].kind.Regular?
        ensures Covered(limits, items, BlockOverhead(limits, items[i].kind))
      {
        WorstOrder(limits, items, i);
      }
    }
    if OrderFree(limits, items) {
      forall order | Reordered(order, items)
        ensures Scan(limits, order).Some?
      {
        forall n | 0 <= n <= |order|
          ensures BlocksFit(limits, order[..n])
        {
          CoveredPrefixFits(limits, items, order, n);
        }
        PermutedCounts(limits, items, order);
        ScanIffEveryPrefixFits(limits, order);
      }
    }
  }

  /** So the order decides exactly for entries that keep the limits as a whole but not in the order-free form. */
  lemma OrderDecidesIff(limits: Limits, items: seq<Item>)
    ensures (&& (exists order :: Reordered(order, items) && Scan(limits, order).Some?)
             && (exists order :: Reordered(order, items) && Scan(limits, order).None?))
       <==> Whole(limits, items) && !OrderFree(limits, items)
  {
    hide Scan, Whole, OrderFree;
    SomeOrderIffWhole(limits, items);
    EveryOrderIffOrderFree(limits, items);
  }

  // --------------------------------------------------------------- listings

  /** Two listings of the same tree. */
  ghost predicate SameTree(a: seq<Entry>, b: seq<Entry>) {
    multiset(Items([], a)) == multiset(Items([], b))
  }

  /** However its directories are listed, a tree that keeps the order-free limits is accepted. */
  lemma OrderFreeTreeIsAccepted(limits: Limits, root: seq<Entry>, listing: seq<Entry>)
    requires OrderFree(limits, Items([], root)) && SameTree(root, listing)
    ensures Inspected(limits, listing).Some?
  {
    TreeOrderIsComplete(listing);
    EveryOrderIffOrderFree(limits, Items([], root));
    hide Items, TreeOrder, Scan, OrderFree;
    assert Reordered(TreeOrder(listing), Items([], root));
  }

  predicate Flat(root: seq<Entry>) {
    forall i :: 0 <= i < |root| ==> root[i].node.Leaf?
  }

  function EntryOf(item: Item): Entry {
    Entry(if item.path == [] then "" else item.path[0], Leaf(item.kind))
  }

  function EntriesOf(items: seq<Item>): seq<Entry> {
    seq(|items|, i requires 0 <= i < |items| => EntryOf(items[i]))
  }

  lemma {:induction false} FlatHere(root: seq<Entry>)
    requires Flat(root)
    ensures Subs([], root) == []
    ensures |Here([], root)| == |root| && forall i :: 0 <= i < |root| ==>
        Here([], root)[i] == Item([root[i].name], root[i].node.kind)
    decreases |root|
  {
    if root != [] {
      FlatHere(root[..|root| - 1]);
    }
  }

  /** A flat directory is traversed as it is listed. */
  lemma FlatOrder(root: seq<Entry>)
    requires Flat(root)
    ensures TreeOrder(root) == Here([], root)
  {
    FlatHere(root);
    hide Here, Subs;
    OrderStep([Listing([], root)]);
    assert [Listing([], root)][..0] + [] == [];
    NoOrder();
  }

  lemma FlatListing(order: seq<Item>)
    requires forall i :: 0 <= i < |order| ==> |order[i].path| == 1
    ensures Flat(EntriesOf(order)) && TreeOrder(EntriesOf(order)) == order
  {
    var root := EntriesOf(order);
    FlatOrder(root);
    FlatHere(root);
    hide Here, TreeOrder;
    forall i | 0 <= i < |order|
      ensures Here([], root)[i] == order[i]
    {
      assert [order[i].path[0]] == order[i].path;
    }
  }

  /** Every order of a flat directory's entries is the traversal of one of its listings. */
  lemma ListingOfOrder(root: seq<Entry>, order: seq<Item>)
    requires Flat(root) && Reordered(order, Items([], root))
    ensures SameTree(root, EntriesOf(order)) && TreeOrder(EntriesOf(order)) == order
  {
    TreeOrderIsComplete(root);
    FlatOrder(root);
    FlatHere(root);
    forall i | 0 <= i < |order|
      ensures |order[i].path| == 1
    {
      assert order[i] in multiset(order);
      assert order[i] in multiset(Here([], root));
      assert order[i] in Here([], root);
    }
    hide Here, TreeOrder, Items;
    FlatListing(order);
    TreeOrderIsComplete(EntriesOf(order));
  }

  /**
   For the files of one directory: some listing is accepted exactly when they keep the
   limits as a whole, and every listing exactly when they keep them in the order-free form.
   */
  lemma DirectoryListingDecidesIff(limits: Limits, root: seq<Entry>)
    requires Flat(root)
    ensures (exists listing :: SameTree(root, listing) && Inspected(limits, listing).Some?)
       <==> Whole(limits, Items([], root))
    ensures (forall listing :: SameTree(root, listing) ==> Inspected(limits, listing).Some?)
       <==> OrderFree(limits, Items([], root))
  {
    var items := Items([], root);
    hide Items, Scan, Whole, OrderFree, TreeOrder, Flat;
    if listing :| SameTree(root, listing) && Inspected(limits, listing).Some? {
      AcceptedTreeKeepsLimits(limits, listing);
      PermutedWhole(limits, Items([], listing), items);
    }
    if Whole(limits, items) {
      var order := BestOrder(limits, items);
      ListingOfOrder(root, order);
      assert Inspected(limits, EntriesOf(order)).Some?;
    }
    if forall listing :: SameTree(root, listing) ==> Inspected(limits, listing).Some? {
      forall order | Reordered(order, items)
        ensures Scan(limits, order).Some?
      {
        ListingOfOrder(root, order);
        assert Inspected(limits, EntriesOf(order)).Some?;
      }
      EveryOrderIffOrderFree(limits, items);
    }
    if OrderFree(limits, items) {
      forall listing | SameTree(root, listing)
        ensures Inspected(limits, listing).Some?
      {
        OrderFreeTreeIsAccepted(limits, root, listing);
      }
    }
  }

  /** A file on small blocks next to one on large blocks: listed first, it has too little allowance. */
  lemma MixedBlockSizesDependOnOrder()
    ensures var limits := Limits(2, 1000, 1000, false);
      var small, large := Entry("a", Leaf(Regular(600, 1, 8, 512))), Entry("b", Leaf(Regular(100, 1, 8, 65536)));
      Inspected(limits, [small, large]) == None && Inspected(limits, [large, small]).Some?
  {
    var limits := Limits(2, 1000, 1000, false);
    var small, large := Entry("a", Leaf(Regular(600, 1, 8, 512))), Entry("b", Leaf(Regular(100, 1, 8, 65536)));
    TwoFiles(small, large);
    TwoFiles(large, small);
    var s, l := ItemOf([], small), ItemOf([], large);
    ScanTwo(limits, s, l);
    ScanTwo(limits, l, s);
  }

  lemma TwoFiles(a: Entry, b: Entry)
    requires a.node.Leaf? && b.node.Leaf?
    ensures TreeOrder([a, b]) == [ItemOf([], a), ItemOf([], b)]
  {
    FlatOrder([a, b]);
    FlatHere([a, b]);
    hide Here, TreeOrder;
    assert Here([], [a, b]) == [ItemOf([], a), ItemOf([], b)];
  }

  lemma ScanTwo(limits: Limits, a: Item, b: Item)
    ensures Scan(limits, [a, b])
         == match Count(limits, START, a) case None => None case Some(t) => Count(limits, t, b)
  {
    assert [a, b] == [] + [a] + [b];
    assert [] + [a] == [a];
    ScanMore(limits, [], a);
    ScanMore(limits, [a], b);
  }
}
