/**
 The Node client of src/supervisor/client.ts as a state machine over its events. A
 request promise is an id that is pending until it settles; `sent` is everything the
 transport accepted, in order.
 */
module ClientProtocol {
  import opened Wrappers
  import opened UInt64
  import opened SupervisorProtocol

  /** 2 to the 53rd: adding one to this JavaScript number gives it back. */
  const MAX_ID := 0x20_0000_0000_0000

  /** `nextId++`. */
  function NextId(id: u64): u64 {
    if id < MAX_ID then id + 1 else id
  }

  /** How a promise settled: by a reply, by a send that threw, or by the end of the transport. */
  datatype Outcome = Replied(body: Body) | SendFailed | Unavailable

  /** `listening` is true while the abort listener is attached; `grace` while its timer runs. */
  datatype Pending = Pending(listening: bool, grace: bool)

  datatype Client = Client(
    pending: map<u64, Pending>,
    nextId: u64,
    closed: bool,
    closing: bool,
    sent: seq<Request>,
    settled: map<u64, Outcome>,
    aborted: set<u64>)

  datatype ClientEvent =
    | Ask(kind: Kind, signal: bool, sendable: bool)
    | Abort(id: u64, sendable: bool)
    | GraceExpired(id: u64)
    | Receive(reply: Reply)
    | CloseCalled
    | TransportClosed
    | CloseSettled

  function Fresh(): Client {
    Client(map[], 1, false, false, [], map[], {})
  }

  function SettlePromise(c: Client, id: u64, outcome: Outcome): Client {
    c.(pending := c.pending - {id}, settled := c.settled[id := outcome])
  }

  function RejectAll(pending: map<u64, Pending>): map<u64, Outcome> {
    map id | id in pending :: Unavailable
  }

  function RejectPending(c: Client): Client {
    c.(pending := map[], settled := c.settled + RejectAll(c.pending))
  }

  /** `close()`: the pending requests stay until the transport has closed. */
  function Close(c: Client): Client {
    if c.closing then c else c.(closed := true, closing := true)
  }

  /**
   Requests that a closed client or an already aborted signal refuses get no id and are
   not events here. A send that throws settles its request at once.
   */
  function AskStep(c: Client, kind: Kind, signal: bool, sendable: bool): Client {
    if c.closed then c
    else
      var id := c.nextId;
      var registered := c.(nextId := NextId(id), pending := c.pending[id := Pending(signal, false)]);
      if sendable then registered.(sent := c.sent + [Request(id, kind)])
      else SettlePromise(registered, id, SendFailed)
  }

  /** The abort listener runs once; it consumes an id for the cancel even if the send throws. */
  function AbortStep(c: Client, id: u64, sendable: bool): Client {
    if id !in c.pending || !c.pending[id].listening then c
    else
      var marked := c.(nextId := NextId(c.nextId), aborted := c.aborted + {id});
      if sendable then
        marked.(sent := c.sent + [Request(c.nextId, Cancel(Some(id)))],
                pending := c.pending[id := Pending(false, true)])
      else Close(marked.(pending := c.pending[id := Pending(false, false)]))
  }

  function ReceiveStep(c: Client, reply: Reply): Client {
    if c.closed || reply.id !in c.pending then c else SettlePromise(c, reply.id, Replied(reply.body))
  }

  /** The grace timer of an aborted request: a supervisor that does not acknowledge the cancel is retired. */
  function GraceStep(c: Client, id: u64): Client {
    if id in c.pending && c.pending[id].grace then Close(c) else c
  }

  /** The transport closed on its own. */
  function LoseStep(c: Client): Client {
    if c.closed then c else RejectPending(c.(closed := true))
  }

  /** The transport has closed after `close()`. */
  function CloseSettledStep(c: Client): Client {
    if c.closing then RejectPending(c) else c
  }

  function ClientStep(c: Client, e: ClientEvent): Client {
    match e
    case Ask(kind, signal, sendable) => AskStep(c, kind, signal, sendable)
    case Abort(id, sendable) => AbortStep(c, id, sendable)
    case GraceExpired(id) => GraceStep(c, id)
    case Receive(reply) => ReceiveStep(c, reply)
    case CloseCalled => Close(c)
    case TransportClosed => LoseStep(c)
    case CloseSettled => CloseSettledStep(c)
  }

  /** The package only ever asks for health and run. */
  predicate Proper(e: ClientEvent) {
    e.Ask? ==> e.kind.Health? || e.kind.Run?
  }

  /** Only requests and aborts take an id. */
  predicate IdLeft(c: Client, e: ClientEvent) {
    e.Ask? || e.Abort? ==> c.nextId < MAX_ID
  }

  // -------------------------------------------------------------- invariant

  predicate IsAsk(r: Request) {
    r.kind.Health? || r.kind.Run?
  }

  /** Ids strictly increase, so none is ever reused, not even by a cancel. */
  ghost predicate Increasing(sent: seq<Request>, bound: u64) {
    && (forall i, j :: 0 <= i < j < |sent| ==> sent[i].id < sent[j].id)
    && (forall i :: 0 <= i < |sent| ==> sent[i].id < bound)
  }

  /** Every message is a request or a cancel for a request whose own signal aborted. */
  ghost predicate Attributed(sent: seq<Request>, aborted: set<u64>) {
    forall i :: 0 <= i < |sent| ==>
      IsAsk(sent[i]) || (sent[i].kind.Cancel? && sent[i].kind.target.Some? && sent[i].kind.target.value in aborted)
  }

  ghost predicate ClientInvariant(c: Client) {
    && Increasing(c.sent, c.nextId)
    && Attributed(c.sent, c.aborted)
    && c.pending.Keys !! c.settled.Keys
    && (forall id :: id in c.pending || id in c.settled || id in c.aborted ==> id < c.nextId)
    && (forall i :: 0 <= i < |c.sent| && IsAsk(c.sent[i]) ==> c.sent[i].id in c.pending || c.sent[i].id in c.settled)
    && (c.closing ==> c.closed)
  }

  lemma ClientStepKeepsInvariant(c: Client, e: ClientEvent)
    requires ClientInvariant(c) && IdLeft(c, e) && Proper(e)
    ensures ClientInvariant(ClientStep(c, e))
  {
    match e {
      case Ask(kind, signal, sendable) => AskKeepsInvariant(c, kind, signal, sendable);
      case Abort(id, sendable) => AbortKeepsInvariant(c, id, sendable);
      case Receive(reply) => ReceiveKeepsInvariant(c, reply);
      case _ => RejectKeepsInvariant(c);
    }
  }

  lemma AskKeepsInvariant(c: Client, kind: Kind, signal: bool, sendable: bool)
    requires ClientInvariant(c) && c.nextId < MAX_ID && (kind.Health? || kind.Run?)
    ensures ClientInvariant(AskStep(c, kind, signal, sendable))
  {
  }

  lemma AbortKeepsInvariant(c: Client, id: u64, sendable: bool)
    requires ClientInvariant(c) && c.nextId < MAX_ID
    ensures ClientInvariant(AbortStep(c, id, sendable))
  {
  }

  lemma ReceiveKeepsInvariant(c: Client, reply: Reply)
    requires ClientInvariant(c)
    ensures ClientInvariant(ReceiveStep(c, reply))
  {
  }

  lemma RejectKeepsInvariant(c: Client)
    requires ClientInvariant(c)
    ensures ClientInvariant(RejectPending(c.(closed := true))) && ClientInvariant(RejectPending(c))
    ensures ClientInvariant(Close(c))
  {
  }

  /** Exactly while the next id is below 2 to the 53rd do requests keep ids apart. */
  lemma IdsStayApartIff(c: Client, kind: Kind, signal: bool, sendable: bool)
    requires ClientInvariant(c) && !c.closed && (kind.Health? || kind.Run?)
    ensures ClientInvariant(AskStep(c, kind, signal, sendable)) <==> c.nextId < MAX_ID
  {
    if c.nextId < MAX_ID {
      AskKeepsInvariant(c, kind, signal, sendable);
    } else {
      var d := AskStep(c, kind, signal, sendable);
      if sendable {
        assert d.sent[|c.sent|].id == d.nextId;
      } else {
        assert d.nextId in d.settled;
      }
    }
  }

  /** From there on two requests share an id. */
  lemma IdsRepeat(c: Client, first: Kind, second: Kind)
    requires !c.closed && c.nextId == MAX_ID
    ensures AskStep(AskStep(c, first, false, true), second, false, true).sent
         == c.sent + [Request(MAX_ID, first), Request(MAX_ID, second)]
  {
    var sent := c.sent + [Request(MAX_ID, first)] + [Request(MAX_ID, second)];
    assert sent == c.sent + [Request(MAX_ID, first), Request(MAX_ID, second)];
  }

  function ClientRun(c: Client, events: seq<ClientEvent>): Client
    decreases |events|
  {
    if events == [] then c else ClientRun(ClientStep(c, events[0]), events[1..])
  }

  lemma {:induction false} NextIdGrows(c: Client, events: seq<ClientEvent>)
    ensures c.nextId <= ClientRun(c, events).nextId
    decreases |events|
  {
    if events != [] {
      NextIdGrows(ClientStep(c, events[0]), events[1..]);
    }
  }

  lemma StepKeepsSettled(c: Client, e: ClientEvent, id: u64)
    requires ClientInvariant(c) && IdLeft(c, e) && id in c.settled
    ensures var d := ClientStep(c, e); id in d.settled && d.settled[id] == c.settled[id]
  {
  }

  /**
   A promise settles at most once: over any run within the range of exact ids its outcome,
   once there, never changes.
   */
  lemma {:induction false} SettledOnce(c: Client, events: seq<ClientEvent>, id: u64)
    requires ClientInvariant(c) && id in c.settled
    requires forall i :: 0 <= i < |events| ==> Proper(events[i])
    requires ClientRun(c, events).nextId < MAX_ID
    ensures var d := ClientRun(c, events); id in d.settled && d.settled[id] == c.settled[id] && id !in d.pending
    decreases |events|
  {
    if events != [] {
      NextIdGrows(c, events);
      StepKeepsSettled(c, events[0], id);
      ClientStepKeepsInvariant(c, events[0]);
      hide ClientStep, ClientInvariant;
      SettledOnce(ClientStep(c, events[0]), events[1..], id);
    }
  }

  // ------------------------------------------------ what requests and aborts bring

  /** A request to an open client is sent once under a new id and waits for its reply, or fails at once. */
  lemma AskSendsItsRequest(c: Client, kind: Kind, signal: bool, sendable: bool)
    requires ClientInvariant(c) && !c.closed && c.nextId < MAX_ID
    ensures var d, id := AskStep(c, kind, signal, sendable), c.nextId;
      && id !in c.pending && id !in c.settled && d.nextId == id + 1 && d.aborted == c.aborted && !d.closed
      && (sendable ==>
            && d.sent == c.sent + [Request(id, kind)] && d.settled == c.settled
            && d.pending == c.pending[id := Pending(signal, false)])
      && (!sendable ==> d.sent == c.sent && d.pending == c.pending && d.settled == c.settled[id := SendFailed])
  {
    assert c.pending[c.nextId := Pending(signal, false)] - {c.nextId} == c.pending;
  }

  ghost predicate CancelSent(sent: seq<Request>, id: u64) {
    exists i :: 0 <= i < |sent| && sent[i].kind == Cancel(Some(id))
  }

  /**
   While the client is open every aborted request has its cancel on the way and, until it
   settles, its grace timer running; no request has two cancels, and each comes after it.
   */
  ghost predicate AbortsTold(c: Client) {
    && (!c.closed ==> forall id :: id in c.aborted ==> CancelSent(c.sent, id))
    && (!c.closed ==> forall id :: id in c.aborted && id in c.pending ==> c.pending[id].grace)
    && (forall id :: id in c.aborted && id in c.pending ==> !c.pending[id].listening)
    && (forall i, t: u64 :: 0 <= i < |c.sent| && c.sent[i].kind == Cancel(Some(t)) ==> t < c.sent[i].id)
    && (forall i, j, t: u64 :: 0 <= i < j < |c.sent| && c.sent[i].kind == Cancel(Some(t)) ==>
          c.sent[j].kind != Cancel(Some(t)))
  }

  /**
   Aborting a request that still listens sends exactly one more message, a cancel that
   names it under an id above all before, and starts its timer. If the transport refuses
   it, the client closes.
   */
  lemma AbortSendsItsCancel(c: Client, id: u64, sendable: bool)
    requires ClientInvariant(c) && c.nextId < MAX_ID && id in c.pending && c.pending[id].listening
    ensures var d := AbortStep(c, id, sendable);
      && id in d.aborted && !d.pending[id].listening
      && (sendable ==>
            && |d.sent| == |c.sent| + 1 && d.sent[..|c.sent|] == c.sent
            && d.sent[|c.sent|].kind == Cancel(Some(id))
            && (forall i :: 0 <= i < |c.sent| ==> c.sent[i].id < d.sent[|c.sent|].id)
            && d.pending[id].grace && d.closed == c.closed)
      && (!sendable ==> !d.pending[id].grace && d.sent == c.sent && (c.closed || d.closing) && d.closed)
  {
  }

  lemma CancelStays(sent: seq<Request>, more: seq<Request>, id: u64)
    requires CancelSent(sent, id) && sent <= more
    ensures CancelSent(more, id)
  {
    var i :| 0 <= i < |sent| && sent[i].kind == Cancel(Some(id));
    assert more[i].kind == Cancel(Some(id));
  }

  lemma AskKeepsAborts(c: Client, kind: Kind, signal: bool, sendable: bool)
    requires ClientInvariant(c) && AbortsTold(c) && c.nextId < MAX_ID && (kind.Health? || kind.Run?)
    ensures AbortsTold(AskStep(c, kind, signal, sendable))
  {
    var d := AskStep(c, kind, signal, sendable);
    hide CancelSent;
    forall id | !c.closed && id in c.aborted
      ensures CancelSent(d.sent, id)
    {
      CancelStays(c.sent, d.sent, id);
    }
  }

  lemma NotCancelledBefore(c: Client, id: u64)
    requires ClientInvariant(c) && AbortsTold(c) && id in c.pending && c.pending[id].listening
    ensures id !in c.aborted && forall i :: 0 <= i < |c.sent| ==> c.sent[i].kind != Cancel(Some(id))
  {
  }

  lemma AbortKeepsAborts(c: Client, id: u64, sendable: bool)
    requires ClientInvariant(c) && AbortsTold(c) && c.nextId < MAX_ID
    ensures AbortsTold(AbortStep(c, id, sendable))
  {
    if id in c.pending && c.pending[id].listening {
      var d := AbortStep(c, id, sendable);
      NotCancelledBefore(c, id);
      if sendable {
        assert d.sent[|c.sent|].kind == Cancel(Some(id));
        assert CancelSent(d.sent, id);
        forall other | !c.closed && other in c.aborted
          ensures CancelSent(d.sent, other)
        {
          CancelStays(c.sent, d.sent, other);
        }
      }
      hide CancelSent;
    }
  }

  lemma ClientStepKeepsAborts(c: Client, e: ClientEvent)
    requires ClientInvariant(c) && AbortsTold(c) && IdLeft(c, e) && Proper(e)
    ensures AbortsTold(ClientStep(c, e))
  {
    match e {
      case Ask(kind, signal, sendable) => AskKeepsAborts(c, kind, signal, sendable);
      case Abort(id, sendable) => AbortKeepsAborts(c, id, sendable);
      case _ => hide CancelSent, AskStep, AbortStep;
    }
  }

  /** So an expired grace timer of an aborted request that has not settled closes an open client. */
  lemma GraceExpiryCloses(c: Client, id: u64)
    requires ClientInvariant(c) && AbortsTold(c)
    ensures var d := ClientStep(c, GraceExpired(id));
      && (id in c.aborted && id in c.pending && !c.closed ==> d.closed && d.closing)
      && (id !in c.pending ==> d == c)
      && d.pending == c.pending && d.settled == c.settled
  {
  }

  /** An abort settles nothing, whether or not the cancel could be sent. */
  lemma AbortSettlesNothing(c: Client, id: u64, sendable: bool)
    ensures var d := AbortStep(c, id, sendable); d.settled == c.settled && d.pending.Keys == c.pending.Keys
  {
  }

  /**
   A pending promise settles only through a reply with its id while the client is open,
   or through the end of the transport.
   */
  lemma WhatSettles(c: Client, e: ClientEvent, id: u64)
    requires ClientInvariant(c) && IdLeft(c, e) && id in c.pending
    ensures id !in ClientStep(c, e).pending <==>
            || (e.Receive? && e.reply.id == id && !c.closed)
            || (e.TransportClosed? && !c.closed)
            || (e.CloseSettled? && c.closing)
  {
  }
}
