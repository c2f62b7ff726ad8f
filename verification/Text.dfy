/** Searching and splitting the way Rust's and JavaScript's `indexOf`, `split` and `rsplit_once` do. */
module Text {
  import opened Wrappers

  /** The position of the first `c` at or after `from`, or the length. */
  function IndexOf<T(==)>(s: seq<T>, c: T, from: nat): (at: nat)
    requires from <= |s|
    ensures from <= at <= |s|
    decreases |s| - from
  {
    if from == |s| || s[from] == c then from else IndexOf(s, c, from + 1)
  }

  lemma {:induction false} Found<T>(s: seq<T>, c: T, from: nat)
    requires from <= |s|
    ensures var at := IndexOf(s, c, from);
            && (forall i :: from <= i < at ==> s[i] != c)
            && (at < |s| ==> s[at] == c)
    decreases |s| - from
  {
    if from < |s| && s[from] != c {
      Found(s, c, from + 1);
    }
  }

  function Split(s: string, c: char): (fields: seq<string>)
    ensures fields != []
    decreases |s|
  {
    var at := IndexOf(s, c, 0);
    if at == |s| then [s] else [s[..at]] + Split(s[at + 1..], c)
  }

  lemma SplitAt(head: string, c: char, tail: string)
    requires c !in head
    ensures Split(head + [c] + tail, c) == [head] + Split(tail, c)
  {
    var s := head + [c] + tail;
    Found(s, c, 0);
    assert forall i :: 0 <= i < |head| ==> s[i] == head[i];
    assert s[|head|] == c;
    assert IndexOf(s, c, 0) == |head|;
    assert s[..|head|] == head && s[|head| + 1..] == tail;
  }

  lemma SplitOne(s: string, c: char)
    requires c !in s
    ensures Split(s, c) == [s]
  {
    Found(s, c, 0);
  }

  /** A string is a single field, or a first field, a separator and the rest. */
  lemma Decompose(s: string, c: char) returns (head: string, tail: Option<string>)
    ensures c !in head
    ensures tail.None? ==> s == head && Split(s, c) == [head]
    ensures tail.Some? ==> s == head + [c] + tail.value && |tail.value| < |s|
    ensures tail.Some? ==> Split(s, c) == [head] + Split(tail.value, c)
  {
    var at := IndexOf(s, c, 0);
    Found(s, c, 0);
    if at == |s| {
      head, tail := s, None;
    } else {
      head, tail := s[..at], Some(s[at + 1..]);
      assert s == s[..at] + [s[at]] + s[at + 1..];
      assert forall i :: 0 <= i < |head| ==> head[i] == s[i];
    }
  }

  /** The parts before and after the last separator. */
  function RSplitOnce(s: string, c: char): Option<(string, string)> {
    if s == "" then None
    else
      var n := |s| - 1;
      if s[n] == c then Some((s[..n], ""))
      else
        match RSplitOnce(s[..n], c)
        case None => None
        case Some((head, tail)) => Some((head, tail + [s[n]]))
  }

  lemma {:induction false} RSplitAt(head: string, c: char, tail: string)
    requires c !in tail
    ensures RSplitOnce(head + [c] + tail, c) == Some((head, tail))
    decreases |tail|
  {
    var s := head + [c] + tail;
    if tail == "" {
      assert s[..|s| - 1] == head;
    } else {
      var n := |tail| - 1;
      assert s[..|s| - 1] == head + [c] + tail[..n];
      assert s[|s| - 1] == tail[n] && tail[n] in tail;
      RSplitAt(head, c, tail[..n]);
      assert tail[..n] + [tail[n]] == tail;
    }
  }
}
