/**
 The `SupervisorClient` object of src/supervisor/client.ts. Its methods are the
 synchronous sections that run between two turns of the event loop; each updates the
 fields in place and is proved to take exactly the step of `ClientProtocol`.
 `sendable` is false where `transport.send` throws.
 */
module NodeClient {
  import opened Wrappers
  import opened UInt64
  import opened SupervisorProtocol
  import opened ClientProtocol

  class SupervisorClient {
    var pending: map<u64, Pending>
    var nextId: u64
    var closed: bool
    var closing: bool
    /** What the transport accepted, in order. */
    var sent: seq<Request>
    /** How the returned promises settled. */
    var settled: map<u64, Outcome>
    /** The requests whose abort listener has run. */
    ghost var aborted: set<u64>

    ghost function Abstract(): Client
      reads this
    {
      Client(pending, nextId, closed, closing, sent, settled, aborted)
    }

    /** Ids are apart, and no promise is both pending and settled. */
    ghost predicate Valid()
      reads this
    {
      ClientInvariant(Abstract())
    }

    constructor ()
      ensures Abstract() == Fresh() && Valid()
    {
      pending, nextId, closed, closing, sent, settled := map[], 1, false, false, [], map[];
      aborted := {};
    }

    /** The id of the new promise, or why it was rejected without one. */
    method Request(kind: Kind, signal: bool, preAborted: bool, sendable: bool) returns (r: Result<u64, Code>)
      modifies this
      ensures r.Success? <==> !old(closed) && !(signal && preAborted)
      ensures r.Success? ==> r.value == old(nextId)
      ensures Abstract() == if r.Success? then AskStep(old(Abstract()), kind, signal, sendable) else old(Abstract())
      ensures old(Valid()) && old(nextId) < MAX_ID && (kind.Health? || kind.Run?) ==> Valid()
    {
      if ClientInvariant(Abstract()) && nextId < MAX_ID && (kind.Health? || kind.Run?) {
        AskKeepsInvariant(Abstract(), kind, signal, sendable);
      }
      hide ClientInvariant;
      if closed {
        return Failure(InternalError);
      }
      if signal && preAborted {
        return Failure(Cancelled);
      }
      var id := nextId;
      nextId := NextId(nextId);
      pending := pending[id := Pending(signal, false)];
      if sendable {
        sent := sent + [SupervisorProtocol.Request(id, kind)];
      } else {
        pending := pending - {id};
        settled := settled[id := SendFailed];
      }
      return Success(id);
    }

    /** The abort listener of a pending request, removed after its first call. */
    method OnAbort(id: u64, sendable: bool)
      requires id in pending && pending[id].listening
      modifies this
      ensures Abstract() == AbortStep(old(Abstract()), id, sendable)
      ensures old(Valid()) && old(nextId) < MAX_ID ==> Valid()
    {
      if ClientInvariant(Abstract()) && nextId < MAX_ID {
        AbortKeepsInvariant(Abstract(), id, sendable);
      }
      hide ClientInvariant;
      aborted := aborted + {id};
      var cancelId := nextId;
      nextId := NextId(nextId);
      pending := pending[id := Pending(false, false)];
      if !sendable {
        CloseTransport();
        return;
      }
      sent := sent + [SupervisorProtocol.Request(cancelId, Cancel(Some(id)))];
      pending := pending[id := Pending(false, true)];
    }

    method OnGraceExpired(id: u64)
      modifies this`closed, this`closing
      ensures Abstract() == GraceStep(old(Abstract()), id)
      ensures old(Valid()) ==> Valid()
    {
      if ClientInvariant(Abstract()) {
        RejectKeepsInvariant(Abstract());
      }
      hide ClientInvariant;
      if id in pending && pending[id].grace {
        CloseTransport();
      }
    }

    method CloseTransport()
      modifies this`closed, this`closing
      ensures Abstract() == Close(old(Abstract()))
      ensures old(Valid()) ==> Valid()
    {
      if ClientInvariant(Abstract()) {
        RejectKeepsInvariant(Abstract());
      }
      hide ClientInvariant;
      if closing {
        return;
      }
      closed := true;
      closing := true;
    }

    method HandleMessage(reply: Reply)
      modifies this`pending, this`settled
      ensures Abstract() == ReceiveStep(old(Abstract()), reply)
      ensures old(Valid()) ==> Valid()
    {
      if ClientInvariant(Abstract()) {
        ReceiveKeepsInvariant(Abstract(), reply);
      }
      hide ClientInvariant;
      if closed {
        return;
      }
      if reply.id !in pending {
        return;
      }
      pending := pending - {reply.id};
      settled := settled[reply.id := Replied(reply.body)];
    }

    method HandleClose()
      modifies this`closed, this`pending, this`settled
      ensures Abstract() == LoseStep(old(Abstract()))
      ensures old(Valid()) ==> Valid()
    {
      if ClientInvariant(Abstract()) {
        RejectKeepsInvariant(Abstract());
      }
      hide ClientInvariant;
      if closed {
        return;
      }
      closed := true;
      RejectEveryPending();
    }

    /** The `finally` of `close()`, once the transport has closed. */
    method OnCloseSettled()
      requires closing
      modifies this`pending, this`settled
      ensures Abstract() == CloseSettledStep(old(Abstract()))
      ensures old(Valid()) ==> Valid()
    {
      if ClientInvariant(Abstract()) {
        RejectKeepsInvariant(Abstract());
      }
      hide ClientInvariant;
      RejectEveryPending();
    }

    method RejectEveryPending()
      modifies this`pending, this`settled
      ensures Abstract() == RejectPending(old(Abstract()))
    {
      var todo := pending.Keys;
      while todo != {}
        invariant pending == old(pending) && todo <= pending.Keys
        invariant settled.Keys == old(settled).Keys + (pending.Keys - todo)
        invariant forall id :: id in settled ==>
                    settled[id] == if id in pending && id !in todo then Unavailable else old(settled)[id]
        decreases |todo|
      {
        var id :| id in todo;
        settled := settled[id := Unavailable];
        todo := todo - {id};
      }
      assert settled == old(settled) + RejectAll(pending);
      pending := map[];
    }

    /** What the event loop calls for one event; a listener that was removed is not called. */
    method Dispatch(e: ClientEvent)
      modifies this
      ensures Abstract() == ClientStep(old(Abstract()), e)
      ensures old(Valid() && IdLeft(Abstract(), e)) && Proper(e) ==> Valid()
    {
      if ClientInvariant(Abstract()) && IdLeft(Abstract(), e) && Proper(e) {
        ClientStepKeepsInvariant(Abstract(), e);
      }
      hide ClientInvariant;
      match e
      case Ask(kind, signal, sendable) => var _ := Request(kind, signal, false, sendable);
      case Abort(id, sendable) =>
        if id in pending && pending[id].listening {
          OnAbort(id, sendable);
        }
      case GraceExpired(id) => OnGraceExpired(id);
      case Receive(reply) => HandleMessage(reply);
      case CloseCalled => CloseTransport();
      case TransportClosed => HandleClose();
      case CloseSettled =>
        if closing {
          OnCloseSettled();
        }
    }

    /** Over a whole run the object is the state machine, whose theorems are therefore about it. */
    method Drive(events: seq<ClientEvent>)
      modifies this
      ensures Abstract() == ClientRun(old(Abstract()), events)
    {
      hide ClientStep, ClientInvariant;
      for i := 0 to |events|
        invariant ClientRun(Abstract(), events[i..]) == ClientRun(old(Abstract()), events)
      {
        assert events[i..][0] == events[i] && events[i..][1..] == events[i + 1..];
        Dispatch(events[i]);
      }
    }
  }
}
