/**
 Newline-delimited frames. "Split on newline" is defined once; the two incremental
 splitters, `FrameDecoder` of src/supervisor/protocol.ts and `read_bounded_frame` of
 native/src/supervisor.rs, are proved equal to it for every chunking, and the encoders
 of both sides are its inverse.
 */
module Framing {
  import opened Text
  import opened Wrappers

  const NEWLINE: Byte := 0x0a
  const MAX_FRAME_BYTES: nat := 1024 * 1024

  // ------------------------------------------------------- split on newline

  predicate Unbroken(s: Bytes) {
    forall i :: 0 <= i < |s| ==> s[i] != NEWLINE
  }

  function Behind(s: Bytes, at: nat): (tail: Bytes)
    requires at < |s|
    ensures |tail| == |s| - at - 1
  {
    s[at + 1..]
  }

  /** The newline-terminated segments, without their newlines. */
  function Frames(s: Bytes): seq<Bytes>
    decreases |s|
  {
    var at := IndexOf(s, NEWLINE, 0);
    if at == |s| then [] else [s[..at]] + Frames(Behind(s, at))
  }

  /** What follows the last newline. */
  function Rest(s: Bytes): Bytes
    decreases |s|
  {
    var at := IndexOf(s, NEWLINE, 0);
    if at == |s| then s else Rest(Behind(s, at))
  }

  /** Every body followed by a newline: the wire form of a list of frames. */
  function Join(bodies: seq<Bytes>): Bytes {
    if bodies == [] then [] else bodies[0] + [NEWLINE] + Join(bodies[1..])
  }

  predicate AllUnbroken(bodies: seq<Bytes>) {
    forall i :: 0 <= i < |bodies| ==> Unbroken(bodies[i])
  }

  lemma IndexIs(s: Bytes, at: nat)
    requires at <= |s| && Unbroken(s[..at]) && (at < |s| ==> s[at] == NEWLINE)
    ensures IndexOf(s, NEWLINE, 0) == at
  {
    Found(s, NEWLINE, 0);
    assert forall i :: 0 <= i < at ==> s[i] == s[..at][i];
  }

  lemma FramesHead(s: Bytes)
    ensures var at := IndexOf(s, NEWLINE, 0);
            Frames(s) == if at == |s| then [] else [s[..at]] + Frames(Behind(s, at))
  {
    hide IndexOf, Behind;
  }

  lemma RestHead(s: Bytes)
    ensures var at := IndexOf(s, NEWLINE, 0);
            Rest(s) == if at == |s| then s else Rest(Behind(s, at))
  {
    hide IndexOf, Behind;
  }

  lemma BehindIs(s: Bytes, at: nat)
    ensures at < |s| ==> Behind(s, at) == s[at + 1..]
  {
  }

  lemma Cut(s: Bytes, at: nat)
    requires at < |s|
    ensures s == s[..at] + [s[at]] + s[at + 1..]
  {
  }

  lemma BytesHead(s: Bytes)
    ensures var at := IndexOf(s, NEWLINE, 0);
            && Unbroken(s[..at])
            && (at < |s| ==> s == s[..at] + [NEWLINE] + s[at + 1..])
            && (at == |s| ==> s == s[..at])
  {
    Found(s, NEWLINE, 0);
    var at := IndexOf(s, NEWLINE, 0);
    if at < |s| {
      hide IndexOf;
      Cut(s, at);
    }
  }

  lemma SplitHead(s: Bytes)
    ensures var at := IndexOf(s, NEWLINE, 0);
            if at == |s| then Frames(s) == [] && Rest(s) == s && Unbroken(s)
            else && Frames(s) == [s[..at]] + Frames(s[at + 1..]) && Rest(s) == Rest(s[at + 1..])
                 && Unbroken(s[..at]) && s == s[..at] + [NEWLINE] + s[at + 1..]
  {
    hide *;
    FramesHead(s);
    RestHead(s);
    BehindIs(s, IndexOf(s, NEWLINE, 0));
    BytesHead(s);
  }

  lemma SplitFirst(head: Bytes, tail: Bytes)
    requires Unbroken(head)
    ensures Frames(head + [NEWLINE] + tail) == [head] + Frames(tail) && Rest(head + [NEWLINE] + tail) == Rest(tail)
  {
    var s := head + [NEWLINE] + tail;
    assert s[..|head|] == head && s[|head| + 1..] == tail && s[|head|] == NEWLINE;
    hide Frames, Rest;
    IndexIs(s, |head|);
    SplitHead(s);
  }

  lemma JoinHead(head: Bytes, bodies: seq<Bytes>)
    ensures Join([head] + bodies) == head + [NEWLINE] + Join(bodies)
  {
    assert ([head] + bodies)[1..] == bodies;
  }

  /** Splitting and joining are inverse: a stream is its frames and its unterminated rest. */
  lemma {:induction false} SplitThenJoin(s: Bytes)
    ensures Join(Frames(s)) + Rest(s) == s
    ensures AllUnbroken(Frames(s)) && Unbroken(Rest(s))
    decreases |s|
  {
    hide Frames, Rest, Join, Unbroken;
    SplitHead(s);
    var at := IndexOf(s, NEWLINE, 0);
    if at == |s| {
      assert Join([]) == [] by { JoinNothing(); }
    } else {
      var head, tail := s[..at], s[at + 1..];
      SplitThenJoin(tail);
      JoinHead(head, Frames(tail));
      assert head + [NEWLINE] + Join(Frames(tail)) + Rest(tail) == head + [NEWLINE] + tail;
    }
  }

  lemma JoinNothing()
    ensures Join([]) == []
  {
  }

  /** And the decomposition is the only one. */
  lemma {:induction false} JoinThenSplit(bodies: seq<Bytes>, rest: Bytes)
    requires AllUnbroken(bodies) && Unbroken(rest)
    ensures Frames(Join(bodies) + rest) == bodies && Rest(Join(bodies) + rest) == rest
    decreases |bodies|
  {
    if bodies == [] {
      assert Join(bodies) + rest == rest;
      assert rest[..|rest|] == rest;
      IndexIs(rest, |rest|);
      SplitHead(rest);
    } else {
      assert Join(bodies) + rest == bodies[0] + [NEWLINE] + (Join(bodies[1..]) + rest);
      SplitFirst(bodies[0], Join(bodies[1..]) + rest);
      hide Frames, Rest, Join;
      JoinThenSplit(bodies[1..], rest);
    }
  }

  lemma {:induction false} JoinConcat(a: seq<Bytes>, b: seq<Bytes>)
    ensures Join(a + b) == Join(a) + Join(b)
    decreases |a|
  {
    if a == [] {
      assert a + b == b;
    } else {
      assert (a + b)[1..] == a[1..] + b;
      JoinConcat(a[1..], b);
    }
  }

  /** Splitting may pause anywhere and go on from the unterminated rest. */
  lemma {:induction false} SplitConcat(s: Bytes, t: Bytes)
    ensures Frames(s + t) == Frames(s) + Frames(Rest(s) + t)
    ensures Rest(s + t) == Rest(Rest(s) + t)
    decreases |s|
  {
    hide Frames, Rest, Unbroken;
    SplitHead(s);
    var at := IndexOf(s, NEWLINE, 0);
    if at < |s| {
      var head, tail := s[..at], s[at + 1..];
      assert s + t == head + [NEWLINE] + (tail + t);
      SplitFirst(head, tail + t);
      SplitConcat(tail, t);
    }
  }

  // ---------------------------------------------------------------- decoder

  /** A parser stands for the JSON library. */
  type Parser<!M> = Bytes -> Option<M>

  predicate FrameOk<M>(parse: Parser<M>, frame: Bytes) {
    |frame| <= MAX_FRAME_BYTES && (frame != [] ==> parse(frame).Some?)
  }

  /** No complete or trailing segment is oversized and every non-empty frame parses. */
  predicate Acceptable<M>(parse: Parser<M>, s: Bytes) {
    && AllOk(parse, Frames(s))
    && |Rest(s)| <= MAX_FRAME_BYTES
  }

  /** A frame's message; empty frames carry none. */
  function Message<M>(parse: Parser<M>, frame: Bytes): seq<M> {
    if frame == [] then []
    else
      match parse(frame)
      case Some(message) => [message]
      case None => []
  }

  function Messages<M>(parse: Parser<M>, frames: seq<Bytes>): seq<M> {
    if frames == [] then []
    else Messages(parse, frames[..|frames| - 1]) + Message(parse, frames[|frames| - 1])
  }

  lemma {:induction false} MessagesConcat<M>(parse: Parser<M>, a: seq<Bytes>, b: seq<Bytes>)
    ensures Messages(parse, a + b) == Messages(parse, a) + Messages(parse, b)
    decreases |b|
  {
    if b == [] {
      assert a + b == a;
    } else {
      var n := |b| - 1;
      assert (a + b)[..|a + b| - 1] == a + b[..n];
      MessagesConcat(parse, a, b[..n]);
    }
  }

  datatype Decoded<M> = Delivered(messages: seq<M>, pending: Bytes) | Raised

  /** What plain split-on-newline makes of a stream. */
  function Decode<M>(parse: Parser<M>, s: Bytes): Decoded<M> {
    if Acceptable(parse, s) then Delivered(Messages(parse, Frames(s)), Rest(s)) else Raised
  }

  function Prepend<M>(messages: seq<M>, d: Decoded<M>): Decoded<M> {
    match d
    case Raised => Raised
    case Delivered(more, pending) => Delivered(messages + more, pending)
  }

  predicate AllOk<M>(parse: Parser<M>, frames: seq<Bytes>) {
    forall i :: 0 <= i < |frames| ==> FrameOk(parse, frames[i])
  }

  lemma AllOkConcat<M>(parse: Parser<M>, a: seq<Bytes>, b: seq<Bytes>)
    ensures AllOk(parse, a + b) <==> AllOk(parse, a) && AllOk(parse, b)
  {
    assert forall i :: 0 <= i < |a| ==> (a + b)[i] == a[i];
    assert forall i :: 0 <= i < |b| ==> (a + b)[|a| + i] == b[i];
  }

  /** Decoding goes on from where an accepted prefix stopped. */
  lemma DecodeContinues<M>(parse: Parser<M>, s: Bytes, t: Bytes)
    requires Acceptable(parse, s)
    ensures Decode(parse, s + t) == Prepend(Messages(parse, Frames(s)), Decode(parse, Rest(s) + t))
  {
    hide Frames, Rest, FrameOk, AllOk;
    SplitConcat(s, t);
    AllOkConcat(parse, Frames(s), Frames(Rest(s) + t));
    MessagesConcat(parse, Frames(s), Frames(Rest(s) + t));
  }

  /** A stream that raised raises however it goes on. */
  lemma RaiseIsFinal<M>(parse: Parser<M>, s: Bytes, t: Bytes)
    requires !Acceptable(parse, s)
    ensures !Acceptable(parse, s + t)
  {
    SplitConcat(s, t);
    AllOkConcat(parse, Frames(s), Frames(Rest(s) + t));
    if |Rest(s)| > MAX_FRAME_BYTES {
      SplitThenJoin(s);
      OversizedStays(parse, Rest(s), t);
    }
    hide Frames, Rest, AllOk;
  }

  /** An empty frame is skipped, whatever the parser would make of it. */
  lemma EmptyFrameIsSkipped<M>(parse: Parser<M>, s: Bytes)
    ensures Decode(parse, [NEWLINE] + s) == Decode(parse, s)
  {
    var none: Bytes := [];
    assert [NEWLINE] + s == none + [NEWLINE] + s;
    SplitFirst(none, s);
    hide Frames, Rest;
    AllOkConcat(parse, [none], Frames(s));
    MessagesConcat(parse, [none], Frames(s));
    assert [none][..0] == [] && Messages(parse, [none][..0]) == [];
    assert Messages(parse, [none]) == [];
  }

  lemma OversizedStays<M>(parse: Parser<M>, head: Bytes, t: Bytes)
    requires |head| > MAX_FRAME_BYTES && Unbroken(head)
    ensures !Acceptable(parse, head + t)
  {
    var s := head + t;
    var at := IndexOf(s, NEWLINE, 0);
    Found(s, NEWLINE, 0);
    assert forall i :: 0 <= i < |head| ==> s[i] == head[i];
    assert at >= |head|;
    if at < |s| {
      assert !FrameOk(parse, Frames(s)[0]);
    }
  }

  function Flatten(chunks: seq<Bytes>): Bytes {
    if chunks == [] then [] else Flatten(chunks[..|chunks| - 1]) + chunks[|chunks| - 1]
  }

  lemma {:induction false} FlattenHead(chunks: seq<Bytes>)
    requires chunks != []
    ensures Flatten(chunks) == chunks[0] + Flatten(chunks[1..])
    decreases |chunks|
  {
    var n := |chunks| - 1;
    assert Flatten(chunks) == Flatten(chunks[..n]) + chunks[n];
    if n == 0 {
      assert chunks[..0] == [] == chunks[1..];
    } else {
      assert chunks[..n][0] == chunks[0] && chunks[..n][1..] == chunks[1..][..n - 1];
      assert Flatten(chunks[1..]) == Flatten(chunks[1..][..n - 1]) + chunks[n];
      FlattenHead(chunks[..n]);
      hide Flatten;
    }
  }

  /** Feeding chunks one after the other, stopping at the first raise. */
  function DecodeChunks<M>(parse: Parser<M>, pending: Bytes, chunks: seq<Bytes>): Decoded<M>
    decreases |chunks|
  {
    if chunks == [] then Delivered([], pending)
    else
      match Decode(parse, pending + chunks[0])
      case Raised => Raised
      case Delivered(messages, rest) => Prepend(messages, DecodeChunks(parse, rest, chunks[1..]))
  }

  /** However the same bytes are cut into chunks, decoding them gives the same result. */
  lemma {:induction false} ChunkingDoesNotMatter<M>(parse: Parser<M>, pending: Bytes, chunks: seq<Bytes>)
    requires Unbroken(pending) && |pending| <= MAX_FRAME_BYTES
    ensures DecodeChunks(parse, pending, chunks) == Decode(parse, pending + Flatten(chunks))
    decreases |chunks|
  {
    if chunks == [] {
      assert pending + Flatten(chunks) == pending;
      assert Join([]) + pending == pending;
      JoinThenSplit([], pending);
    } else {
      var s, t := pending + chunks[0], Flatten(chunks[1..]);
      FlattenHead(chunks);
      assert pending + Flatten(chunks) == s + t;
      hide Frames, Rest, Flatten;
      if Acceptable(parse, s) {
        SplitThenJoin(s);
        ChunkingDoesNotMatter(parse, Rest(s), chunks[1..]);
        DecodeContinues(parse, s, t);
      } else {
        RaiseIsFinal(parse, s, t);
      }
    }
  }

  lemma TwoChunkingsAgree<M>(parse: Parser<M>, a: seq<Bytes>, b: seq<Bytes>)
    requires Flatten(a) == Flatten(b)
    ensures DecodeChunks(parse, [], a) == DecodeChunks(parse, [], b)
  {
    ChunkingDoesNotMatter(parse, [], a);
    ChunkingDoesNotMatter(parse, [], b);
  }

  lemma FlattenAppend(chunks: seq<Bytes>, chunk: Bytes)
    ensures Flatten(chunks + [chunk]) == Flatten(chunks) + chunk
  {
    assert (chunks + [chunk])[..|chunks|] == chunks;
  }

  /** The next newline completes one frame out of the fragments kept so far. */
  lemma NextFrame(kept: Bytes, chunk: Bytes, start: nat, newline: nat)
    requires Unbroken(kept) && start <= newline < |chunk| && newline == IndexOf(chunk, NEWLINE, start)
    ensures var frame := kept + chunk[start..newline];
            && Unbroken(frame)
            && Frames(kept + chunk[start..]) == [frame] + Frames(chunk[newline + 1..])
            && Rest(kept + chunk[start..]) == Rest(chunk[newline + 1..])
  {
    var frame, tail := kept + chunk[start..newline], chunk[newline + 1..];
    Found(chunk, NEWLINE, start);
    assert forall i :: start <= i < newline ==> chunk[i] != NEWLINE;
    assert Unbroken(frame);
    assert chunk[start..] == chunk[start..newline] + [NEWLINE] + tail;
    assert kept + chunk[start..] == frame + [NEWLINE] + tail;
    SplitFirst(frame, tail);
    hide Frames, Rest;
  }

  /** What a decoder knows half-way: some frames done, the rest still ahead. */
  ghost predicate Progress<M>(parse: Parser<M>, all: Bytes, done: seq<Bytes>, messages: seq<M>, kept: Bytes,
                              ahead: Bytes)
  {
    && Unbroken(kept)
    && Frames(all) == done + Frames(kept + ahead)
    && Rest(all) == Rest(kept + ahead)
    && AllOk(parse, done)
    && messages == Messages(parse, done)
  }

  lemma TakeFrame<M>(parse: Parser<M>, all: Bytes, done: seq<Bytes>, messages: seq<M>, kept: Bytes, chunk: Bytes,
      start: nat, newline: nat)
    requires start <= newline < |chunk| && newline == IndexOf(chunk, NEWLINE, start)
    requires Progress(parse, all, done, messages, kept, chunk[start..])
    ensures var frame := kept + chunk[start..newline];
            && (!FrameOk(parse, frame) ==> Decode(parse, all) == Raised)
            && (FrameOk(parse, frame) ==>
                  Progress(parse, all, done + [frame], messages + Message(parse, frame), [], chunk[newline + 1..]))
  {
    NextFrame(kept, chunk, start, newline);
    var frame := kept + chunk[start..newline];
    FrameCounts(parse, all, done, frame, Frames(chunk[newline + 1..]));
    assert [] + chunk[newline + 1..] == chunk[newline + 1..];
    hide Frames, Rest, AllOk, Messages, Acceptable, IndexOf, FrameOk;
  }

  lemma FrameCounts<M>(parse: Parser<M>, all: Bytes, done: seq<Bytes>, frame: Bytes, more: seq<Bytes>)
    requires Frames(all) == done + ([frame] + more) && AllOk(parse, done)
    ensures Acceptable(parse, all) ==> FrameOk(parse, frame)
    ensures FrameOk(parse, frame) ==> AllOk(parse, done + [frame])
    ensures Messages(parse, done + [frame]) == Messages(parse, done) + Message(parse, frame)
    ensures Frames(all) == done + [frame] + more
  {
    hide Frames;
    AllOkConcat(parse, done, [frame] + more);
    AllOkConcat(parse, [frame], more);
    AllOkConcat(parse, done, [frame]);
    assert [frame][0] == frame;
    assert (done + [frame])[..|done|] == done;
  }

  /** What is left after the last newline is the rest of the whole stream. */
  lemma LastFragment<M>(parse: Parser<M>, all: Bytes, done: seq<Bytes>, messages: seq<M>, kept: Bytes, last: Bytes)
    requires Unbroken(last) && Progress(parse, all, done, messages, kept, last)
    ensures Unbroken(kept + last)
    ensures Decode(parse, all) == if |kept + last| <= MAX_FRAME_BYTES then Delivered(messages, kept + last) else Raised
  {
    assert Unbroken(kept + last);
    assert Join([]) + (kept + last) == kept + last;
    JoinThenSplit([], kept + last);
    assert done + [] == done;
    hide Frames, Rest, AllOk, Messages;
  }

  lemma NoMoreNewlines(chunk: Bytes, start: nat)
    requires start <= |chunk| && IndexOf(chunk, NEWLINE, start) == |chunk|
    ensures Unbroken(chunk[start..])
  {
    Found(chunk, NEWLINE, start);
  }

  lemma StartProgress<M>(parse: Parser<M>, kept: Bytes, chunk: Bytes)
    requires Unbroken(kept)
    ensures Progress(parse, kept + chunk, [], [], kept, chunk[0..])
  {
    hide Frames, Rest;
    assert chunk[0..] == chunk;
  }

  /** The incremental decoder: a list of unterminated fragments and their total length. */
  class FrameDecoder<!M> {
    const parse: Parser<M>
    var pending: seq<Bytes>
    var pendingBytes: nat

    ghost predicate Valid()
      reads this
    {
      && pendingBytes == |Flatten(pending)| <= MAX_FRAME_BYTES
      && Unbroken(Flatten(pending))
    }

    constructor (parse: Parser<M>)
      ensures Valid() && this.parse == parse && pending == []
    {
      this.parse := parse;
      pending := [];
      pendingBytes := 0;
    }

    /** Joins the kept fragments with `tail` into one frame and parses it, if it is not empty. */
    method CompleteFrame(tail: Bytes) returns (r: Option<seq<M>>)
      requires Valid()
      modifies this
      ensures r.Some? <==> FrameOk(parse, old(Flatten(pending)) + tail)
      ensures r.Some? ==> r.value == Message(parse, old(Flatten(pending)) + tail) && Valid() && Flatten(pending) == []
    {
      var length := pendingBytes + |tail|;
      if length > MAX_FRAME_BYTES {
        return None;
      }
      var frame := Flatten(pending) + tail;
      pending := [];
      pendingBytes := 0;
      if frame == [] {
        return Some([]);
      }
      var parsed := parse(frame);
      return if parsed.None? then None else Some([parsed.value]);
    }

    /** Keeps the unterminated end of a chunk, unless it grows past the bound. */
    method KeepFragment(fragment: Bytes) returns (ok: bool)
      requires Valid() && Unbroken(fragment)
      modifies this
      ensures ok <==> |old(Flatten(pending))| + |fragment| <= MAX_FRAME_BYTES
      ensures ok ==> Valid() && Flatten(pending) == old(Flatten(pending)) + fragment
    {
      FlattenAppend(pending, fragment);
      assert Unbroken(Flatten(pending) + fragment);
      if fragment == [] {
        assert Flatten(pending) + fragment == Flatten(pending);
        return true;
      }
      pendingBytes := pendingBytes + |fragment|;
      if pendingBytes > MAX_FRAME_BYTES {
        return false;
      }
      pending := pending + [fragment];
      return true;
    }

    /** Between two frames of a chunk: the part from `start` on is still ahead. */
    ghost predicate Decoding(all: Bytes, done: seq<Bytes>, messages: seq<M>, chunk: Bytes, start: nat)
      reads this
    {
      && Valid()
      && start <= |chunk|
      && Progress(parse, all, done, messages, Flatten(pending), chunk[start..])
    }

    lemma StartDecoding(all: Bytes, chunk: Bytes)
      requires Valid() && all == Flatten(pending) + chunk
      ensures Decoding(all, [], [], chunk, 0)
    {
      hide Frames, Rest, Flatten;
      StartProgress(parse, Flatten(pending), chunk);
    }

    /** Delivers the frame that ends at the next newline. */
    method NextMessage(ghost all: Bytes, ghost done: seq<Bytes>, messages: seq<M>, chunk: Bytes, start: nat,
        newline: nat)
      returns (r: Option<seq<M>>, ghost more: seq<Bytes>)
      requires Decoding(all, done, messages, chunk, start)
      requires newline < |chunk| && newline == IndexOf(chunk, NEWLINE, start)
      modifies this
      ensures r.None? ==> Decode(parse, all) == Raised
      ensures r.Some? ==> Decoding(all, more, r.value, chunk, newline + 1)
    {
      var tail := chunk[start..newline];
      ghost var frame := Flatten(pending) + tail;
      TakeFrame(parse, all, done, messages, Flatten(pending), chunk, start, newline);
      more := done + [frame];
      hide Frames, Rest, Flatten, Progress, IndexOf, FrameOk, Message, Decode;
      var added := CompleteFrame(tail);
      if added.None? {
        return None, more;
      }
      r := Some(messages + added.value);
    }

    /** Delivers every frame that `chunk` completes and says where its last fragment starts. */
    method CompleteFrames(ghost all: Bytes, chunk: Bytes)
        returns (r: Option<seq<M>>, start: nat, ghost done: seq<Bytes>)
      requires Valid() && all == Flatten(pending) + chunk
      modifies this
      ensures r.None? ==> Decode(parse, all) == Raised
      ensures r.Some? ==> Decoding(all, done, r.value, chunk, start)
      ensures r.Some? ==> IndexOf(chunk, NEWLINE, start) == |chunk|
    {
      hide *;
      var messages: seq<M> := [];
      done, start := [], 0;
      var newline := IndexOf(chunk, NEWLINE, 0);
      StartDecoding(all, chunk);
      while newline < |chunk|
        invariant start <= newline <= |chunk| && newline == IndexOf(chunk, NEWLINE, start)
        invariant Decoding(all, done, messages, chunk, start)
        decreases |chunk| - newline
      {
        r, done := NextMessage(all, done, messages, chunk, start, newline);
        if r.None? {
          return;
        }
        messages := r.value;
        start := newline + 1;
        newline := IndexOf(chunk, NEWLINE, start);
      }
      r := Some(messages);
    }

    /** `None` is a PROTOCOL_ERROR. */
    method Push(chunk: Bytes) returns (r: Option<seq<M>>)
      requires Valid()
      modifies this
      ensures r.Some? ==> Valid()
      ensures Decode(parse, old(Flatten(pending)) + chunk)
           == match r case None => Raised case Some(messages) => Delivered(messages, Flatten(pending))
    {
      ghost var all := Flatten(pending) + chunk;
      var completed, start, done := CompleteFrames(all, chunk);
      hide *;
      if completed.None? {
        return None;
      }
      var fragment := chunk[start..];
      NoMoreNewlines(chunk, start);
      LastFragment(parse, all, done, completed.value, Flatten(pending), fragment);
      var ok := KeepFragment(fragment);
      return if ok then completed else None;
    }
  }
}
