/**
 The supervisor's pipe as the Node side sees it: `ChildProcessTransport` queues frames
 behind back-pressure, writes them in order, bounds the bytes it holds, and stops at the
 first failure. What the pipe, the child process and the timers do are the methods an
 event loop may call at any moment.
 */
module Transporting {
  import opened Wrappers
  import opened Framing
  import opened FrameReading
  import opened Encoding

  datatype SendResult = Sent | Unavailable | PolicyViolation | CapacityExceeded

  function Total(frames: seq<Bytes>): nat {
    if frames == [] then 0 else |frames[0]| + Total(frames[1..])
  }

  /** Bodies as frames. */
  function Lines(bodies: seq<Bytes>): seq<Bytes> {
    seq(|bodies|, i requires 0 <= i < |bodies| => bodies[i] + [NEWLINE])
  }

  lemma {:induction false} TotalConcat(a: seq<Bytes>, b: seq<Bytes>)
    ensures Total(a + b) == Total(a) + Total(b)
    decreases |a|
  {
    if a == [] {
      assert a + b == b;
    } else {
      assert (a + b)[1..] == a[1..] + b;
      TotalConcat(a[1..], b);
    }
  }

  lemma TotalOne(frame: Bytes)
    ensures Total([frame]) == |frame|
  {
    assert [frame][1..] == [];
  }

  lemma TotalWithout(frames: seq<Bytes>, i: nat)
    requires i < |frames|
    ensures Total(frames) == Total(RemoveAt(frames, i)) + |frames[i]|
  {
    assert frames == frames[..i] + ([frames[i]] + frames[i + 1..]);
    TotalConcat(frames[..i], [frames[i]] + frames[i + 1..]);
    TotalConcat([frames[i]], frames[i + 1..]);
    TotalConcat(frames[..i], frames[i + 1..]);
    TotalOne(frames[i]);
  }

  lemma TotalAppend(frames: seq<Bytes>, frame: Bytes)
    ensures Total(frames + [frame]) == Total(frames) + |frame|
  {
    TotalConcat(frames, [frame]);
    TotalOne(frame);
  }

  lemma TotalHead(frames: seq<Bytes>)
    requires frames != []
    ensures Total(frames) == |frames[0]| + Total(frames[1..])
  {
  }

  lemma LinesAppend(bodies: seq<Bytes>, body: Bytes)
    ensures Lines(bodies + [body]) == Lines(bodies) + [body + [NEWLINE]]
  {
  }

  /** The frames not yet written, and the first of them taken off. */
  lemma LinesTail(bodies: seq<Bytes>, from: nat)
    requires from < |bodies|
    ensures Lines(bodies[from..]) == [bodies[from] + [NEWLINE]] + Lines(bodies[from + 1..])
  {
  }

  lemma LinesFrom(bodies: seq<Bytes>, from: nat, body: Bytes)
    requires from <= |bodies|
    ensures Lines((bodies + [body])[from..]) == Lines(bodies[from..]) + [body + [NEWLINE]]
  {
    assert (bodies + [body])[from..] == bodies[from..] + [body];
    LinesAppend(bodies[from..], body);
  }

  lemma EncodableMore(bodies: seq<Bytes>, body: Bytes)
    requires Encodable(bodies) && Printed(body) && |body| <= MAX_FRAME_BYTES
    ensures Encodable(bodies + [body])
  {
  }

  /** Everything `send`, the write callbacks, `drain`, `close` and the end of the process touch. */
  class ChildProcessTransport {
    const maxQueuedBytes: nat
    var outbound: seq<Bytes>
    var queuedBytes: nat
    var backpressured: bool
    var stdinFailed: bool
    var writable: bool
    var closed: bool
    var processExited: bool
    var finished: bool
    var closeNotices: nat

    /**
     Every body `Send` accepted, how many of them went into the pipe, and the frames whose write
     callback is still to come.
     */
    ghost var bodies: seq<Bytes>
    ghost var written: nat
    ghost var inFlight: seq<Bytes>

    ghost predicate Accounted()
      reads this
    {
      && (!stdinFailed ==> queuedBytes == Total(inFlight) + Total(outbound))
      && (stdinFailed ==> outbound == [] && queuedBytes >= Total(inFlight))
      && queuedBytes <= maxQueuedBytes
    }

    ghost predicate InOrder()
      reads this
    {
      && Encodable(bodies)
      && written <= |bodies|
      && (!stdinFailed ==> outbound == Lines(bodies[written..]))
    }

    /** The close listeners run once, and only when the transport is closed. */
    ghost predicate ClosedOnce()
      reads this
    {
      closeNotices == (if closed then 1 else 0)
    }

    ghost predicate Valid()
      reads this
    {
      && Accounted()
      && InOrder()
      && ClosedOnce()
      && (finished ==> closed)
    }

    /** A frame is only held back by the pipe or by the end of the transport. */
    ghost predicate Settled()
      reads this
    {
      outbound == [] || backpressured || closed
    }

    /** The bytes written to the pipe. */
    ghost function Wire(): Bytes
      reads this
      requires written <= |bodies|
    {
      Join(bodies[..written])
    }

    constructor (maxQueuedBytes: nat)
      ensures Valid() && Settled() && bodies == [] && written == 0
      ensures this.maxQueuedBytes == maxQueuedBytes && writable && !stdinFailed && !closed
    {
      this.maxQueuedBytes := maxQueuedBytes;
      outbound, queuedBytes, inFlight := [], 0, [];
      backpressured, stdinFailed, writable := false, false, true;
      closed, processExited, finished, closeNotices := false, false, false, 0;
      bodies, written := [], 0;
    }

    /** Hands one frame to the pipe, which says whether it takes more. */
    method WriteNext()
      requires Valid() && outbound != [] && !backpressured && !closed
      modifies this`outbound, this`backpressured, this`written, this`inFlight
      ensures Valid() && written == old(written) + 1
      ensures inFlight == old(inFlight) + [old(outbound)[0]] && outbound == old(outbound)[1..]
    {
      var frame := outbound[0];
      LinesTailOf();
      TotalHead(outbound);
      TotalAppend(inFlight, frame);
      hide *;
      outbound := outbound[1..];
      inFlight := inFlight + [frame];
      written := written + 1;
      backpressured := *;
    }

    lemma LinesTailOf()
      requires InOrder() && !stdinFailed && outbound != []
      ensures written < |bodies| && outbound[1..] == Lines(bodies[written + 1..])
    {
      LinesTail(bodies, written);
    }

    method FlushOutbound()
      requires Valid()
      modifies this`outbound, this`backpressured, this`written, this`inFlight
      ensures Valid() && Settled() && written >= old(written)
      ensures old(backpressured || outbound == [] || closed) ==> unchanged(this)
      ensures old(!backpressured && outbound != [] && !closed) ==> written > old(written)
    {
      while !backpressured && outbound != [] && !closed
        invariant Valid() && written >= old(written)
        invariant written == old(written) ==> unchanged(this)
        invariant old(backpressured || outbound == [] || closed) ==> written == old(written)
        decreases |outbound|
      {
        WriteNext();
      }
    }

    /** `body` is the printed request. */
    method Send(body: Bytes) returns (r: SendResult)
      requires Valid() && Printed(body)
      modifies this
      ensures Valid() && written >= old(written) && closed == old(closed) && stdinFailed == old(stdinFailed)
      ensures r == if old(closed || stdinFailed || !writable) then Unavailable
                   else if |body| > MAX_FRAME_BYTES then SendResult.PolicyViolation
                   else if old(queuedBytes) + |body| + 1 > maxQueuedBytes then CapacityExceeded
                   else Sent
      ensures r == Sent ==> bodies == old(bodies) + [body] && queuedBytes == old(queuedBytes) + |body| + 1 && Settled()
      ensures r != Sent ==> unchanged(this)
    {
      if closed || stdinFailed || !writable {
        return Unavailable;
      }
      var encoded := EncodeFrame(body);
      if encoded.Failure? {
        return SendResult.PolicyViolation;
      }
      var frame := encoded.value;
      if queuedBytes + |frame| > maxQueuedBytes {
        return CapacityExceeded;
      }
      Enqueue(body, frame);
      FlushOutbound();
      return Sent;
    }

    method Enqueue(body: Bytes, frame: Bytes)
      requires Valid() && !stdinFailed && Printed(body) && |body| <= MAX_FRAME_BYTES
      requires frame == body + [NEWLINE] && queuedBytes + |frame| <= maxQueuedBytes
      modifies this`queuedBytes, this`outbound, this`bodies
      ensures Valid() && bodies == old(bodies) + [body] && queuedBytes == old(queuedBytes) + |frame|
    {
      LinesFrom(bodies, written, body);
      TotalAppend(outbound, frame);
      EncodableMore(bodies, body);
      hide Lines, Total, Encodable;
      queuedBytes := queuedBytes + |frame|;
      outbound := outbound + [frame];
      bodies := bodies + [body];
    }

    /** The callback of the write of `frame`, one of those under way. */
    method WriteDone(frame: Bytes, ghost i: nat, failed: bool)
      requires Valid() && i < |inFlight| && inFlight[i] == frame
      modifies this
      ensures Valid() && (old(Settled()) ==> Settled()) && bodies == old(bodies) && written == old(written)
      ensures stdinFailed == (old(stdinFailed) || failed)
      ensures queuedBytes == old(queuedBytes) - |frame| && inFlight == old(RemoveAt(inFlight, i))
    {
      TotalWithout(inFlight, i);
      hide Lines, Total, Encodable;
      queuedBytes := queuedBytes - |frame|;
      inFlight := RemoveAt(inFlight, i);
      if failed {
        HandleStdinFailure();
      }
    }

    /** The first stdin error: nothing is written or accepted any more, but responses still arrive. */
    method HandleStdinFailure()
      requires Valid()
      modifies this`stdinFailed, this`outbound, this`backpressured, this`writable
      ensures Valid() && Settled() && stdinFailed && outbound == [] && backpressured
      ensures !finished && !processExited ==> !writable
    {
      hide Lines, Total, Encodable;
      stdinFailed := true;
      outbound := [];
      backpressured := true;
      Close();
    }

    /** The part of `close` before it waits: ends stdin. */
    method Close()
      requires Valid()
      modifies this`writable
      ensures Valid() && writable == (old(writable) && (finished || processExited))
    {
      if finished { return; }
      if !processExited && writable {
        writable := false;
      }
    }

    method Drained()
      requires Valid()
      modifies this`outbound, this`backpressured, this`written, this`inFlight
      ensures Valid() && Settled() && written >= old(written)
      ensures old(outbound) != [] && !closed ==> written > old(written)
      ensures old(outbound) == [] || closed ==> !backpressured && written == old(written)
    {
      backpressured := false;
      FlushOutbound();
    }

    method HandleClose()
      requires Accounted() && InOrder() && ClosedOnce()
      modifies this`closed, this`closeNotices
      ensures Valid() && closed
    {
      if closed { return; }
      closed := true;
      closeNotices := closeNotices + 1;
    }

    method ProcessExit()
      requires Valid()
      modifies this`processExited
      ensures Valid() && processExited
    {
      processExited := true;
    }

    /** The process closed its pipes, or the drain grace after its exit is over. */
    method Finish()
      requires Valid()
      modifies this`finished, this`closed, this`closeNotices
      ensures Valid() && finished && closed
    {
      if finished { return; }
      finished := true;
      HandleClose();
    }

    /**
     Whatever has happened so far: of any part of the written bytes that arrived, in any
     pieces, the supervisor hears the first accepted requests, in order and never oversized.
     */
    lemma AcceptedRequestsArrive<M>(json: Parser<Envelope<M>>, requests: seq<M>, wire: Bytes, broken: bool)
        returns (m: nat)
      requires Valid() && RequestsOf(json, bodies, requests) && wire <= Wire()
      ensures m <= written <= |requests| && |Rest(wire)| <= MAX_FRAME_BYTES
      ensures InputEvents(json, wire, broken) == AllReceived(requests[..m]) + LastEvents(json, Rest(wire), broken)
      ensures wire == Wire() ==> m == written && Rest(wire) == []
    {
      hide Frames, Rest, Join, FrameEvents, LastEvents, AllReceived, Lines, Total;
      var sent := bodies[..written];
      m := RequestsArrive(json, sent, requests[..written], wire, broken);
      assert requests[..written][..m] == requests[..m];
      WholeWire(sent);
      WholeRest(sent);
    }
  }

  lemma WholeRest(bodies: seq<Bytes>)
    requires AllUnbroken(bodies)
    ensures Rest(Join(bodies)) == []
  {
    assert Join(bodies) + [] == Join(bodies);
    JoinThenSplit(bodies, []);
  }
}
