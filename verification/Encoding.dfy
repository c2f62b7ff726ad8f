/**
 The encoders of both sides and the end-to-end framing round trips: whatever prefix of
 the sent bytes has arrived, and however it was cut, the other side hears exactly the
 bodies whose newline has arrived, in order, and never runs into the frame bound.
 A body stands for a printed JSON text: not empty and, by section 7 of RFC 8259, without
 a raw newline.
 */
module Encoding {
  import opened Wrappers
  import opened Framing
  import opened FrameReading

  datatype EncodeError = PolicyViolation | TooLargeResponse

  predicate Printed(body: Bytes) {
    body != [] && Unbroken(body)
  }

  function Encode(body: Bytes, tooLarge: EncodeError): (r: Result<Bytes, EncodeError>)
    ensures r.Success? <==> |body| <= MAX_FRAME_BYTES
    ensures r.Success? ==> r.value == Join([body])
  {
    if |body| > MAX_FRAME_BYTES then Failure(tooLarge)
    else
      JoinHead(body, []);
      assert [body] + [] == [body];
      Success(body + [NEWLINE])
  }

  /** An oversized request is the caller's fault. */
  function EncodeFrame(body: Bytes): Result<Bytes, EncodeError> {
    Encode(body, PolicyViolation)
  }

  /** An oversized response is a protocol error of the supervisor. */
  function EncodeResponse(body: Bytes): Result<Bytes, EncodeError> {
    Encode(body, TooLargeResponse)
  }

  /** Bodies an encoder accepted. */
  predicate Encodable(bodies: seq<Bytes>) {
    forall i :: 0 <= i < |bodies| ==> Printed(bodies[i]) && |bodies[i]| <= MAX_FRAME_BYTES
  }

  // ---------------------------------------------------- a prefix of the wire

  /** The body whose bytes are still arriving, once `m` bodies are complete. */
  function NextBody(bodies: seq<Bytes>, m: nat): Bytes {
    if m < |bodies| then bodies[m] else []
  }

  ghost predicate SplitsAt(wire: Bytes, bodies: seq<Bytes>, m: nat) {
    && m <= |bodies|
    && Frames(wire) == bodies[..m]
    && Rest(wire) <= NextBody(bodies, m)
  }

  lemma UnbrokenPrefix(head: Bytes, body: Bytes)
    requires head <= body && Unbroken(body)
    ensures Frames(head) == [] && Rest(head) == head
  {
    assert Unbroken(head);
    assert Join([]) + head == head;
    JoinThenSplit([], head);
  }

  lemma PrefixOfConcat(wire: Bytes, first: Bytes, rest: Bytes)
    requires wire <= first + rest
    ensures if |wire| < |first| then wire <= first else wire == first + wire[|first|..] && wire[|first|..] <= rest
  {
    if |wire| < |first| {
      assert forall i :: 0 <= i < |wire| ==> wire[i] == (first + rest)[i] == first[i];
    } else {
      assert forall i :: 0 <= i < |first| ==> wire[i] == (first + rest)[i] == first[i];
      assert forall i :: |first| <= i < |wire| ==> wire[i] == (first + rest)[i] == rest[i - |first|];
    }
  }

  lemma BeforeNewline(wire: Bytes, body: Bytes)
    requires wire <= body + [NEWLINE] && |wire| < |body| + 1
    ensures wire <= body
  {
  }

  lemma SplitsMore(wire: Bytes, tail: Bytes, bodies: seq<Bytes>, m: nat)
    requires bodies != [] && SplitsAt(tail, bodies[1..], m)
    requires Frames(wire) == [bodies[0]] + Frames(tail) && Rest(wire) == Rest(tail)
    ensures SplitsAt(wire, bodies, m + 1)
  {
    hide Frames, Rest;
    assert [bodies[0]] + bodies[1..][..m] == bodies[..m + 1];
  }

  /** Cutting the wire anywhere leaves the first bodies whole and a piece of the next one. */
  lemma {:induction false} PrefixSplits(wire: Bytes, bodies: seq<Bytes>) returns (m: nat)
    requires AllUnbroken(bodies) && wire <= Join(bodies)
    ensures SplitsAt(wire, bodies, m)
    decreases |bodies|
  {
    if bodies == [] {
      m := 0;
      UnbrokenPrefix(wire, []);
    } else {
      var line := bodies[0] + [NEWLINE];
      PrefixOfConcat(wire, line, Join(bodies[1..]));
      if |wire| < |line| {
        m := 0;
        BeforeNewline(wire, bodies[0]);
        UnbrokenPrefix(wire, bodies[0]);
      } else {
        var tail := wire[|line|..];
        SplitFirst(bodies[0], tail);
        hide Frames, Rest, Join, Unbroken, SplitsAt;
        var more := PrefixSplits(tail, bodies[1..]);
        SplitsMore(wire, tail, bodies, more);
        m := more + 1;
      }
    }
  }

  lemma WholeWire(bodies: seq<Bytes>)
    requires AllUnbroken(bodies)
    ensures Frames(Join(bodies)) == bodies
  {
    assert Join(bodies) + [] == Join(bodies);
    JoinThenSplit(bodies, []);
  }

  lemma NoOversizedRest(wire: Bytes, bodies: seq<Bytes>, m: nat)
    requires SplitsAt(wire, bodies, m) && Encodable(bodies)
    ensures |Rest(wire)| <= MAX_FRAME_BYTES
  {
    hide Frames, Rest;
  }

  // -------------------------------------------------- requests, Node to Rust

  function AllReceived<M>(requests: seq<M>): seq<Event<M>> {
    seq(|requests|, i requires 0 <= i < |requests| => Received(requests[i]))
  }

  /** What the JSON library makes of the bodies. */
  ghost predicate RequestsOf<M>(json: Parser<Envelope<M>>, bodies: seq<Bytes>, requests: seq<M>) {
    && |bodies| == |requests|
    && forall i :: 0 <= i < |bodies| ==> json(bodies[i]) == Some(Envelope(PROTOCOL_VERSION, requests[i]))
  }

  lemma {:induction false} FramesAreHeard<M>(json: Parser<Envelope<M>>, frames: seq<Bytes>, requests: seq<M>,
      rest: Bytes, broken: bool)
    requires Encodable(frames) && RequestsOf(json, frames, requests)
    ensures FrameEvents(json, frames, rest, broken) == AllReceived(requests) + LastEvents(json, rest, broken)
    decreases |frames|
  {
    if frames == [] {
      assert AllReceived(requests) + LastEvents(json, rest, broken) == LastEvents(json, rest, broken);
    } else {
      FramesAreHeard(json, frames[1..], requests[1..], rest, broken);
      assert AllReceived(requests) == [Received(requests[0])] + AllReceived(requests[1..]);
      assert DecodeRequest(json, frames[0]) == Some(requests[0]);
    }
  }

  /** Of any prefix of the written bytes the supervisor hears the complete requests, in order. */
  lemma RequestsArrive<M>(json: Parser<Envelope<M>>, bodies: seq<Bytes>, requests: seq<M>, wire: Bytes, broken: bool)
      returns (m: nat)
    requires Encodable(bodies) && RequestsOf(json, bodies, requests)
    requires wire <= Join(bodies)
    ensures SplitsAt(wire, bodies, m) && |Rest(wire)| <= MAX_FRAME_BYTES
    ensures InputEvents(json, wire, broken) == AllReceived(requests[..m]) + LastEvents(json, Rest(wire), broken)
  {
    m := PrefixSplits(wire, bodies);
    hide Frames, Rest, Join, FrameEvents, LastEvents, AllReceived;
    NoOversizedRest(wire, bodies, m);
    FramesAreHeard(json, bodies[..m], requests[..m], Rest(wire), broken);
  }

  /** When everything arrived, every request is heard and then the end of the input. */
  lemma AllRequestsArrive<M>(json: Parser<Envelope<M>>, bodies: seq<Bytes>, requests: seq<M>)
    requires Encodable(bodies) && RequestsOf(json, bodies, requests)
    ensures InputEvents(json, Join(bodies), false) == AllReceived(requests) + [End]
  {
    assert Join(bodies) + [] == Join(bodies);
    JoinThenSplit(bodies, []);
    hide Frames, Rest, Join, AllReceived;
    FramesAreHeard(json, bodies, requests, [], false);
  }

  /** A request is heard only from a frame within the bound that holds this version's envelope. */
  ghost predicate Hearable<M>(json: Parser<Envelope<M>>, frame: Bytes, request: M) {
    |frame| <= MAX_FRAME_BYTES && json(frame) == Some(Envelope(PROTOCOL_VERSION, request))
  }

  lemma HeardIffHearable<M>(json: Parser<Envelope<M>>, frame: Bytes)
    ensures forall request :: DecodeRequest(json, frame) == Some(request) <==> Hearable(json, frame, request)
  {
  }

  /** The first frame that is none ends the input with a protocol error: all before it are heard, and nothing after. */
  lemma {:induction false} FirstBadFrameEnds<M>(json: Parser<Envelope<M>>, frames: seq<Bytes>, requests: seq<M>,
      rest: Bytes, broken: bool)
    requires |requests| < |frames|
    requires forall i :: 0 <= i < |requests| ==> Hearable(json, frames[i], requests[i])
    requires forall request :: !Hearable(json, frames[|requests|], request)
    ensures FrameEvents(json, frames, rest, broken) == AllReceived(requests) + [ProtocolError]
    decreases |frames|
  {
    if requests == [] {
      HeardIffHearable(json, frames[0]);
      assert AllReceived(requests) + [ProtocolError] == [ProtocolError];
    } else {
      assert Hearable(json, frames[0], requests[0]);
      forall i | 0 <= i < |requests[1..]|
        ensures Hearable(json, frames[1..][i], requests[1..][i])
      {
        assert Hearable(json, frames[i + 1], requests[i + 1]);
      }
      FirstBadFrameEnds(json, frames[1..], requests[1..], rest, broken);
      assert AllReceived(requests) == [Received(requests[0])] + AllReceived(requests[1..]);
    }
  }

  /** What arrives in pieces arrives as a whole. */
  lemma {:induction false} PiecesArrive(chunks: seq<Bytes>)
    ensures Arriving(AsFills(chunks)) == Flatten(chunks)
    decreases |chunks|
  {
    if chunks == [] {
      FlattenNothing();
    } else {
      assert AsFills(chunks)[0] == Data(chunks[0]) && AsFills(chunks)[1..] == AsFills(chunks[1..]);
      PiecesArrive(chunks[1..]);
      assert chunks == [chunks[0]] + chunks[1..];
      FlattenHead(chunks);
    }
  }

  function AsFills(chunks: seq<Bytes>): seq<Fill> {
    seq(|chunks|, i requires 0 <= i < |chunks| => Data(chunks[i]))
  }

  lemma FlattenNothing()
    ensures Flatten([]) == []
  {
  }

  // ------------------------------------------------- responses, Rust to Node

  ghost predicate MessagesOf<M>(parse: Parser<M>, bodies: seq<Bytes>, messages: seq<M>) {
    && |bodies| == |messages|
    && forall i :: 0 <= i < |bodies| ==> parse(bodies[i]) == Some(messages[i])
  }

  lemma {:induction false} MessagesAre<M>(parse: Parser<M>, bodies: seq<Bytes>, messages: seq<M>)
    requires Encodable(bodies) && MessagesOf(parse, bodies, messages)
    ensures Messages(parse, bodies) == messages && AllOk(parse, bodies)
    decreases |bodies|
  {
    if bodies != [] {
      var n := |bodies| - 1;
      MessagesAre(parse, bodies[..n], messages[..n]);
      assert messages == messages[..n] + [messages[n]];
    }
  }

  /** Of any prefix of the responses, in any chunks, the decoder delivers the complete ones. */
  lemma ResponsesArrive<M>(parse: Parser<M>, bodies: seq<Bytes>, messages: seq<M>, chunks: seq<Bytes>) returns (m: nat)
    requires Encodable(bodies) && MessagesOf(parse, bodies, messages)
    requires Flatten(chunks) <= Join(bodies)
    ensures SplitsAt(Flatten(chunks), bodies, m)
    ensures DecodeChunks(parse, [], chunks) == Delivered(messages[..m], Rest(Flatten(chunks)))
    ensures Flatten(chunks) == Join(bodies) ==> m == |bodies|
  {
    var wire := Flatten(chunks);
    WholeWire(bodies);
    m := PrefixSplits(wire, bodies);
    NoOversizedRest(wire, bodies, m);
    ChunkingDoesNotMatter(parse, [], chunks);
    assert [] + wire == wire;
    hide Frames, Rest, Join, Flatten, DecodeChunks, Messages, AllOk;
    MessagesAre(parse, bodies[..m], messages[..m]);
  }

  // ------------------------------------------------- the two readers compared

  /** The same JSON library on the Node side. */
  function ParserOf<M>(json: Parser<Envelope<M>>): Parser<M> {
    frame => DecodeRequest(json, frame)
  }

  lemma {:induction false} MessagesFromFront<M>(parse: Parser<M>, frames: seq<Bytes>)
    requires frames != []
    ensures Messages(parse, frames) == Message(parse, frames[0]) + Messages(parse, frames[1..])
  {
    assert frames == [frames[0]] + frames[1..];
    MessagesConcat(parse, [frames[0]], frames[1..]);
    var none: seq<Bytes> := [frames[0]][..0];
    assert Messages(parse, none) == [];
    assert [] + Message(parse, frames[0]) == Message(parse, frames[0]);
  }

  predicate AllDecode<M>(json: Parser<Envelope<M>>, frames: seq<Bytes>) {
    forall i :: 0 <= i < |frames| ==> DecodeRequest(json, frames[i]).Some?
  }

  /** The supervisor hears the end of a stream exactly when every frame decodes, empty ones included. */
  lemma {:induction false} HeardToTheEnd<M>(json: Parser<Envelope<M>>, frames: seq<Bytes>)
    ensures var events := FrameEvents(json, frames, [], false);
            && events != []
            && (AllDecode(json, frames) ==> !(events[|events| - 1].ProtocolError?))
            && (!AllDecode(json, frames) ==> events[|events| - 1].ProtocolError?)
    decreases |frames|
  {
    if frames != [] {
      HeardToTheEnd(json, frames[1..]);
      assert AllDecode(json, frames) <==> DecodeRequest(json, frames[0]).Some? && AllDecode(json, frames[1..]) by {
        assert frames == [frames[0]] + frames[1..];
      }
      hide DecodeRequest, AllDecode;
    }
  }

  lemma {:induction false} HeardMessages<M>(json: Parser<Envelope<M>>, frames: seq<Bytes>)
    requires AllDecode(json, frames) && [] !in frames
    ensures FrameEvents(json, frames, [], false) == AllReceived(Messages(ParserOf(json), frames)) + [End]
    decreases |frames|
  {
    var parse := ParserOf(json);
    if frames == [] {
      assert AllReceived<M>([]) + [End] == [End];
    } else {
      assert frames[0] in frames;
      var request := DecodeRequest(json, frames[0]).value;
      assert parse(frames[0]) == Some(request);
      HeardMessages(json, frames[1..]);
      MessagesFromFront(parse, frames);
      var later := Messages(parse, frames[1..]);
      assert AllReceived([request] + later) == [Received(request)] + AllReceived(later);
    }
  }

  /** A frame that the decoder skips or parses is one that the supervisor parses, unless it is empty. */
  lemma SameFrames<M>(json: Parser<Envelope<M>>, frames: seq<Bytes>)
    requires json([]) == None
    ensures AllDecode(json, frames) <==> AllOk(ParserOf(json), frames) && [] !in frames
  {
    forall i | 0 <= i < |frames|
      ensures DecodeRequest(json, frames[i]).Some? <==> FrameOk(ParserOf(json), frames[i]) && frames[i] != []
    {
    }
    if AllOk(ParserOf(json), frames) && [] !in frames {
      assert forall i :: 0 <= i < |frames| ==> frames[i] in frames;
    }
  }

  /**
   On a stream that ends with a newline the supervisor hears all messages the Node decoder
   delivers, and then the end, exactly when the decoder delivers and no frame is empty.
   */
  lemma ReadersAgreeIffNoEmptyFrame<M>(json: Parser<Envelope<M>>, s: Bytes)
    requires json([]) == None && Rest(s) == []
    ensures InputEvents(json, s, false) == AllReceived(Messages(ParserOf(json), Frames(s))) + [End]
       <==> Decode(ParserOf(json), s) == Delivered(Messages(ParserOf(json), Frames(s)), []) && [] !in Frames(s)
  {
    var frames := Frames(s);
    hide Frames, Rest, FrameEvents, Messages, AllOk, AllDecode;
    SameFrames(json, frames);
    HeardToTheEnd(json, frames);
    if AllDecode(json, frames) && [] !in frames {
      HeardMessages(json, frames);
    }
  }

  /** An empty line: skipped by the decoder, a protocol error for the supervisor. */
  lemma EmptyLineDivides<M>(json: Parser<Envelope<M>>)
    requires json([]) == None
    ensures Decode(ParserOf(json), [NEWLINE]) == Delivered([], [])
    ensures InputEvents(json, [NEWLINE], false) == [ProtocolError]
  {
    var none: Bytes := [];
    var line: seq<Bytes> := [none];
    assert line[1..] == [];
    assert Join(line) + [] == [NEWLINE];
    JoinThenSplit(line, []);
    assert Frames([NEWLINE]) == line && Rest([NEWLINE]) == [];
    assert line[..0] == [];
    assert Messages(ParserOf(json), line[..0]) == [];
    hide Frames, Rest, Join;
  }

  /** A result too large for a frame is answered by its error instead. */
  function JobSuccessFrame(success: Bytes, failure: Bytes): (r: Result<Bytes, EncodeError>)
    ensures |failure| <= MAX_FRAME_BYTES ==> r.Success?
    ensures |success| <= MAX_FRAME_BYTES ==> r == Success(Join([success]))
    ensures |success| > MAX_FRAME_BYTES && r.Success? ==> r == Success(Join([failure]))
  {
    var encoded := EncodeResponse(success);
    if encoded.Success? then encoded else EncodeResponse(failure)
  }
}
