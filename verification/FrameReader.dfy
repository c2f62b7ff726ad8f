/**
 The supervisor's reader thread: `read_bounded_frame` over a buffered reader that hands
 out the input in pieces of any size, and the loop around it that decodes requests. Both
 are proved equal to what split-on-newline says of the whole remaining input.
 */
module FrameReading {
  import opened Text
  import opened Wrappers
  import opened Framing

  const PROTOCOL_VERSION: int := 1

  /** What the next read of the underlying stream brings: some bytes, or an I/O error. */
  datatype Fill = Data(bytes: Bytes) | Broken

  /** The bytes that arrive before the first I/O error. */
  function Arriving(incoming: seq<Fill>): Bytes {
    if incoming == [] || incoming[0].Broken? then [] else incoming[0].bytes + Arriving(incoming[1..])
  }

  datatype Read = Frame(bytes: Bytes) | Eof | Oversized | IoFailed

  /** The first frame of the remaining input, if any; `broken`: an I/O error ends the input. */
  function FirstRead(s: Bytes, broken: bool): Read {
    var at := IndexOf(s, NEWLINE, 0);
    if at > MAX_FRAME_BYTES then Oversized
    else if at < |s| then Frame(s[..at])
    else if broken then IoFailed
    else if s == [] then Eof
    else Frame(s)
  }

  function AfterFirst(s: Bytes): Bytes {
    var at := IndexOf(s, NEWLINE, 0);
    if at < |s| then Behind(s, at) else []
  }

  /** Where the first newline of `kept + available + ahead` is, seen from `available`. */
  lemma NewlineAfter(kept: Bytes, available: Bytes, ahead: Bytes)
    requires Unbroken(kept)
    ensures var k, at := IndexOf(available, NEWLINE, 0), IndexOf(kept + (available + ahead), NEWLINE, 0);
            && Unbroken(kept + available[..k])
            && (if k < |available| then at == |kept| + k else at >= |kept| + |available|)
  {
    var s, k := kept + (available + ahead), IndexOf(available, NEWLINE, 0);
    Found(available, NEWLINE, 0);
    Found(s, NEWLINE, 0);
    assert forall i :: 0 <= i < |kept| ==> s[i] == kept[i];
    assert forall i :: 0 <= i < |available| ==> s[|kept| + i] == available[i];
  }

  lemma CutInside(kept: Bytes, available: Bytes, ahead: Bytes, k: nat)
    requires k < |available|
    ensures (kept + (available + ahead))[..|kept| + k] == kept + available[..k]
  {
  }

  lemma CutBehind(kept: Bytes, available: Bytes, ahead: Bytes, k: nat)
    requires k < |available|
    ensures Behind(kept + (available + ahead), |kept| + k) == Behind(available, k) + ahead
  {
  }

  lemma FirstReadAt(s: Bytes, broken: bool, at: nat)
    requires at == IndexOf(s, NEWLINE, 0)
    ensures at > MAX_FRAME_BYTES ==> FirstRead(s, broken) == Oversized
    ensures at < |s| && at <= MAX_FRAME_BYTES ==> FirstRead(s, broken) == Frame(s[..at])
  {
    hide IndexOf;
  }

  lemma AfterFirstAt(s: Bytes, at: nat)
    requires at == IndexOf(s, NEWLINE, 0) && at < |s|
    ensures AfterFirst(s) == Behind(s, at)
  {
    hide IndexOf;
  }

  /** A newline in sight ends the frame there. */
  lemma ReadTerminated(kept: Bytes, available: Bytes, ahead: Bytes, broken: bool)
    requires Unbroken(kept) && IndexOf(available, NEWLINE, 0) < |available|
    ensures var s, k := kept + (available + ahead), IndexOf(available, NEWLINE, 0);
            && (|kept| + k > MAX_FRAME_BYTES ==> FirstRead(s, broken) == Oversized)
            && (|kept| + k <= MAX_FRAME_BYTES ==> FirstRead(s, broken) == Frame(kept + available[..k]))
  {
    hide *;
    var s, k := kept + (available + ahead), IndexOf(available, NEWLINE, 0);
    NewlineAfter(kept, available, ahead);
    FirstReadAt(s, broken, |kept| + k);
    CutInside(kept, available, ahead, k);
  }

  lemma ReadLeaves(kept: Bytes, available: Bytes, ahead: Bytes)
    requires Unbroken(kept) && IndexOf(available, NEWLINE, 0) < |available|
    ensures AfterFirst(kept + (available + ahead)) == Behind(available, IndexOf(available, NEWLINE, 0)) + ahead
  {
    hide *;
    var s, k := kept + (available + ahead), IndexOf(available, NEWLINE, 0);
    NewlineAfter(kept, available, ahead);
    AfterFirstAt(s, |kept| + k);
    CutBehind(kept, available, ahead, k);
  }

  lemma ReadGrowing(kept: Bytes, available: Bytes, ahead: Bytes, broken: bool)
    requires Unbroken(kept) && IndexOf(available, NEWLINE, 0) == |available|
    ensures Unbroken(kept + available)
    ensures |kept| + |available| > MAX_FRAME_BYTES ==> FirstRead(kept + (available + ahead), broken) == Oversized
    ensures kept + (available + ahead) == (kept + available) + ahead
  {
    hide *;
    var s := kept + (available + ahead);
    NewlineAfter(kept, available, ahead);
    WholeSlice(available);
    FirstReadAt(s, broken, IndexOf(s, NEWLINE, 0));
    Associative(kept, available, ahead);
  }

  lemma Associative(a: Bytes, b: Bytes, c: Bytes)
    ensures a + (b + c) == (a + b) + c
  {
  }

  lemma WholeSlice(s: Bytes)
    ensures s[..|s|] == s
  {
  }

  lemma ReadAtEnd(kept: Bytes, broken: bool)
    requires Unbroken(kept) && |kept| <= MAX_FRAME_BYTES
    ensures FirstRead(kept, broken) == if broken then IoFailed else if kept == [] then Eof else Frame(kept)
    ensures AfterFirst(kept) == []
  {
    assert kept[..|kept|] == kept;
    IndexIs(kept, |kept|);
  }

  // --------------------------------------------------------------- requests

  /** A parsed request carries the protocol version its sender speaks. */
  datatype Envelope<+M> = Envelope(version: int, request: M)

  function DecodeRequest<M>(json: Parser<Envelope<M>>, frame: Bytes): Option<M> {
    if |frame| > MAX_FRAME_BYTES then None
    else
      match json(frame)
      case None => None
      case Some(envelope) => if envelope.version != PROTOCOL_VERSION then None else Some(envelope.request)
  }

  datatype Event<+M> = Received(request: M) | End | ProtocolError | InputFailed

  /** What the last, unterminated part of the input gives rise to. */
  function LastEvents<M>(json: Parser<Envelope<M>>, rest: Bytes, broken: bool): seq<Event<M>> {
    if |rest| > MAX_FRAME_BYTES then [ProtocolError]
    else if broken then [InputFailed]
    else if rest == [] then [End]
    else
      match DecodeRequest(json, rest)
      case None => [ProtocolError]
      case Some(request) => [Received(request), End]
  }

  /** One request per frame, up to the first error. */
  function FrameEvents<M>(json: Parser<Envelope<M>>, frames: seq<Bytes>, rest: Bytes, broken: bool): seq<Event<M>> {
    if frames == [] then LastEvents(json, rest, broken)
    else
      match DecodeRequest(json, frames[0])
      case None => [ProtocolError]
      case Some(request) => [Received(request)] + FrameEvents(json, frames[1..], rest, broken)
  }

  /** What the supervisor hears of an input. */
  function InputEvents<M>(json: Parser<Envelope<M>>, s: Bytes, broken: bool): seq<Event<M>> {
    FrameEvents(json, Frames(s), Rest(s), broken)
  }

  /** The event of one read. */
  function ReadEvent<M>(json: Parser<Envelope<M>>, read: Read): Event<M> {
    match read
    case Eof => End
    case Oversized => ProtocolError
    case IoFailed => InputFailed
    case Frame(bytes) =>
      match DecodeRequest(json, bytes)
      case None => ProtocolError
      case Some(request) => Received(request)
  }

  lemma FrameEventsHead<M>(json: Parser<Envelope<M>>, head: Bytes, frames: seq<Bytes>, rest: Bytes, broken: bool)
    ensures FrameEvents(json, [head] + frames, rest, broken)
         == match DecodeRequest(json, head)
            case None => [ProtocolError]
            case Some(request) => [Received(request)] + FrameEvents(json, frames, rest, broken)
  {
    assert ([head] + frames)[1..] == frames;
  }

  lemma NothingSplits()
    ensures Frames([]) == [] && Rest([]) == []
  {
    SplitHead([]);
  }

  /** Reading frame by frame hears the events of the whole input. */
  lemma EventsByReading<M>(json: Parser<Envelope<M>>, s: Bytes, broken: bool)
    ensures var event := ReadEvent(json, FirstRead(s, broken));
      InputEvents(json, s, broken) == (if event.Received? then [event] + InputEvents(json, AfterFirst(s), broken)
                                       else [event])
  {
    var at := IndexOf(s, NEWLINE, 0);
    SplitHead(s);
    NothingSplits();
    hide Frames, Rest, IndexOf, Unbroken, FrameEvents;
    if at < |s| {
      FrameEventsHead(json, s[..at], Frames(s[at + 1..]), Rest(s), broken);
    } else {
      NoFrameEvents(json, s, broken);
      NoFrameEvents(json, [], broken);
    }
  }

  lemma NoFrameEvents<M>(json: Parser<Envelope<M>>, rest: Bytes, broken: bool)
    ensures FrameEvents(json, [], rest, broken) == LastEvents(json, rest, broken)
  {
  }

  /** Only a terminated frame is returned while an I/O error is still ahead. */
  lemma ReadBeforeError(s: Bytes)
    ensures FirstRead(s, true).Frame? ==> IndexOf(s, NEWLINE, 0) < |s|
  {
  }

  lemma FirstReadConsumes(s: Bytes, broken: bool)
    ensures FirstRead(s, broken).Frame? ==> |AfterFirst(s)| < |s|
  {
  }

  class FrameReader {
    var buffer: Bytes
    var incoming: seq<Fill>

    /** A successful read of an open stream brings at least one byte; bringing none is its end. */
    ghost predicate Valid()
      reads this
    {
      forall i :: 0 <= i < |incoming| ==> incoming[i].Data? ==> incoming[i].bytes != []
    }

    ghost function Unread(): Bytes
      reads this
    {
      buffer + Arriving(incoming)
    }

    ghost predicate Breaks()
      reads this
    {
      exists i :: 0 <= i < |incoming| && incoming[i].Broken?
    }

    constructor (incoming: seq<Fill>)
      requires forall i :: 0 <= i < |incoming| ==> incoming[i].Data? ==> incoming[i].bytes != []
      ensures Valid() && Unread() == Arriving(incoming) && this.incoming == incoming
    {
      buffer := [];
      this.incoming := incoming;
    }

    /** The buffered bytes, reading more only when there are none; `None` is an I/O error. */
    method FillBuf() returns (available: Option<Bytes>)
      requires Valid()
      modifies this
      ensures Valid() && Unread() == old(Unread()) && Breaks() == old(Breaks())
      ensures available.None? ==> Unread() == [] && Breaks()
      ensures available.Some? ==> available.value == buffer
      ensures available == Some([]) ==> Unread() == [] && !Breaks()
    {
      if buffer == [] && incoming != [] {
        if incoming[0].Broken? {
          return None;
        }
        ghost var was := incoming;
        assert forall i :: 0 <= i < |was| ==> was[i].Broken? ==> i > 0 && was[1..][i - 1] == was[i];
        buffer, incoming := incoming[0].bytes, incoming[1..];
      }
      return Some(buffer);
    }

    method Consume(amount: nat)
      requires Valid() && amount <= |buffer|
      modifies this`buffer
      ensures Valid() && buffer == old(buffer)[amount..] && Breaks() == old(Breaks())
    {
      buffer := buffer[amount..];
    }

    method ReadBoundedFrame() returns (r: Read)
      requires Valid()
      modifies this
      ensures Valid()
      ensures r == FirstRead(old(Unread()), old(Breaks()))
      ensures r.Frame? ==> Unread() == AfterFirst(old(Unread())) && Breaks() == old(Breaks())
    {
      ghost var all, broken := Unread(), Breaks();
      var frame: Bytes := [];
      assert all == frame + Unread();
      while true
        invariant Valid() && Breaks() == broken
        invariant all == frame + Unread() && Unbroken(frame) && |frame| <= MAX_FRAME_BYTES
        decreases |Unread()|
      {
        var filled := FillBuf();
        if filled.None? {
          assert all == frame;
          ReadAtEnd(frame, broken);
          return IoFailed;
        }
        var available := filled.value;
        if available == [] {
          assert all == frame;
          ReadAtEnd(frame, broken);
          return if frame == [] then Eof else Frame(frame);
        }
        var newline := IndexOf(available, NEWLINE, 0);
        ghost var ahead := Arriving(incoming);
        if |frame| + newline > MAX_FRAME_BYTES {
          if newline < |available| {
            ReadTerminated(frame, available, ahead, broken);
          } else {
            ReadGrowing(frame, available, ahead, broken);
          }
          return Oversized;
        }
        if newline < |available| {
          ReadTerminated(frame, available, ahead, broken);
          ReadLeaves(frame, available, ahead);
          BehindIs(available, newline);
          frame := frame + available[..newline];
          Consume(newline + 1);
          return Frame(frame);
        }
        ReadGrowing(frame, available, ahead, broken);
        frame := frame + available;
        Consume(|available|);
      }
    }

    /**
     Decodes frame after frame until the input ends, something is wrong with it, or nobody
     listens any more: the supervisor's loop takes the first `listening` events.
     */
    method ReadRequests<M>(json: Parser<Envelope<M>>, listening: nat) returns (events: seq<Event<M>>)
      requires Valid()
      modifies this
      ensures events == FirstOf(InputEvents(json, old(Unread()), old(Breaks())), listening)
    {
      hide *;
      ghost var all, broken := Unread(), Breaks();
      events := [];
      while true
        invariant Valid() && (Breaks() == broken) && |events| <= listening
        invariant InputEvents(json, all, broken) == events + InputEvents(json, Unread(), broken)
        decreases |Unread()|
      {
        ghost var s := Unread();
        var read := ReadBoundedFrame();
        EventsByReading(json, s, broken);
        FirstReadConsumes(s, broken);
        if broken {
          ReadBeforeError(s);
        }
        var event := ReadEvent(json, read);
        if |events| == listening {
          CutOff(events, InputEvents(json, s, broken));
          return;
        }
        events := events + [event];
        if !event.Received? {
          NotCut(events, listening);
          return;
        }
        ReceivedIsFrame(json, read);
      }
    }
  }

  /** As much of a list of events as there is, up to a number. */
  function FirstOf<E>(events: seq<E>, n: nat): seq<E> {
    if n < |events| then events[..n] else events
  }

  lemma CutOff<E>(events: seq<E>, more: seq<E>)
    ensures FirstOf(events + more, |events|) == events
  {
  }

  lemma NotCut<E>(events: seq<E>, n: nat)
    requires |events| <= n
    ensures FirstOf(events, n) == events
  {
  }

  lemma ReceivedIsFrame<M>(json: Parser<Envelope<M>>, read: Read)
    requires ReadEvent(json, read).Received?
    ensures read.Frame?
  {
  }
}
