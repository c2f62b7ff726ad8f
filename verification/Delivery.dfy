/**
 The Node client and the native supervisor joined by two FIFO channels: the unread tail
 of what the client sent and the unread tail of what the supervisor wrote. Client calls,
 aborts, timers, transport closes, launcher completions and deliveries interleave freely.
 */
module Delivery {
  import opened Wrappers
  import opened UInt64
  import opened Scheduling
  import opened SupervisorProtocol
  import opened ClientProtocol

  datatype System = System(client: Client, consumed: nat, supervisor: State, delivered: nat)

  datatype Move =
    | ClientMoves(event: ClientEvent)
    | RequestArrives(launch: Launch, io: Io)
    | LauncherFinishes(id: u64, output: Output, io: Io)
    | InputEnds(io: Io)
    | ReplyArrives

  predicate InBounds(y: System) {
    y.consumed <= |y.client.sent| && y.delivered <= |y.supervisor.replies|
  }

  function Start(limit: Capacity): System {
    System(Fresh(), 0, Initial(limit), 0)
  }

  /** A launcher only ever reports a result for the specification it was given. */
  predicate OwnResult(job: Job, output: Output) {
    output.Exited? && output.result.Success? ==> output.result.value.spec == job.spec
  }

  /** Nothing that can go wrong while a job is started is reported as a cancellation. */
  predicate StartErrorsAreOwn(launch: Launch) {
    && launch.limits != Failure(Cancelled)
    && launch.headroom != Failure(Cancelled)
    && launch.available != Failure(Cancelled)
    && launch.spawn != Failure(Cancelled)
  }

  predicate Possible(y: System, m: Move)
    requires InBounds(y)
  {
    match m
    case ClientMoves(e) => !e.Receive? && Proper(e) && IdLeft(y.client, e)
    case RequestArrives(launch, _) =>
      && y.consumed < |y.client.sent| && y.supervisor.status == Running && !y.supervisor.eof
      && StartErrorsAreOwn(launch)
    case LauncherFinishes(id, output, _) =>
      y.supervisor.status == Running && id in y.supervisor.active && OwnResult(y.supervisor.active[id], output)
    case InputEnds(_) => y.supervisor.status == Running && !y.supervisor.eof
    case ReplyArrives => y.delivered < |y.supervisor.replies|
  }

  function Advance(y: System, m: Move): System
    requires InBounds(y) && Possible(y, m)
  {
    match m
    case ClientMoves(e) => y.(client := ClientStep(y.client, e))
    case RequestArrives(launch, io) =>
      y.(supervisor := Step(y.supervisor, Incoming(y.client.sent[y.consumed], launch, io)), consumed := y.consumed + 1)
    case LauncherFinishes(id, output, io) => y.(supervisor := Step(y.supervisor, Finished(id, output, io)))
    case InputEnds(io) => y.(supervisor := Step(y.supervisor, InputEnd(io)))
    case ReplyArrives =>
      y.(client := ClientStep(y.client, Receive(y.supervisor.replies[y.delivered])), delivered := y.delivered + 1)
  }

  // ------------------------------------------------- the two channels by id

  /** The ids of the health and run requests in a stretch of messages. */
  function AskIds(sent: seq<Request>): multiset<u64> {
    if sent == [] then multiset{}
    else (if IsAsk(sent[0]) then multiset{sent[0].id} else multiset{}) + AskIds(sent[1..])
  }

  lemma {:induction false} AskIdsAppend(sent: seq<Request>, r: Request)
    ensures AskIds(sent + [r]) == AskIds(sent) + (if IsAsk(r) then multiset{r.id} else multiset{})
  {
    if sent == [] {
      assert [r][1..] == [] && sent + [r] == [r];
    } else {
      assert (sent + [r])[1..] == sent[1..] + [r];
      AskIdsAppend(sent[1..], r);
    }
  }

  lemma {:induction false} IdsConcat(replies: seq<Reply>, more: seq<Reply>)
    ensures Ids(replies + more) == Ids(replies) + Ids(more)
    decreases |more|
  {
    if more == [] {
      assert replies + more == replies;
    } else {
      var n := |more| - 1;
      assert more == more[..n] + [more[n]] && replies + more == replies + more[..n] + [more[n]];
      IdsConcat(replies, more[..n]);
      IdsAppend(replies + more[..n], more[n]);
      IdsAppend(more[..n], more[n]);
      hide Ids;
    }
  }

  lemma IdsOne(reply: Reply)
    ensures Ids([reply]) == multiset{reply.id}
  {
    assert [reply][..0] == [];
    assert Ids([reply][..0]) == multiset{};
  }

  lemma IdsHead(replies: seq<Reply>, at: nat)
    requires at < |replies|
    ensures Ids(replies[at..]) == multiset{replies[at].id} + Ids(replies[at + 1..])
  {
    hide *;
    IdsOne(replies[at]);
    IdsConcat([replies[at]], replies[at + 1..]);
    assert [replies[at]] + replies[at + 1..] == replies[at..];
  }

  function Requests(y: System): seq<Request>
    requires InBounds(y)
  {
    y.client.sent[y.consumed..]
  }

  function Responses(y: System): seq<Reply>
    requires InBounds(y)
  {
    y.supervisor.replies[y.delivered..]
  }

  /** Where the ids are: under way to the supervisor, running there, or under way back. */
  ghost function InFlight(y: System): multiset<u64>
    requires InBounds(y)
  {
    AskIds(Requests(y)) + multiset(y.supervisor.active.Keys) + Ids(Responses(y))
  }

  /** Every running job was asked for under its id and with its specification. */
  ghost predicate JobsAsked(active: map<u64, Job>, sent: seq<Request>) {
    forall id :: id in active ==> Request(id, Run(active[id].spec)) in sent
  }

  /** Every result written is for the specification asked for under its id. */
  ghost predicate ResultsAsked(replies: seq<Reply>, sent: seq<Request>) {
    forall i :: 0 <= i < |replies| && replies[i].body.Done? ==>
      Request(replies[i].id, Run(replies[i].body.result.spec)) in sent
  }

  /** Every promise settled by a reply was settled by a delivered reply with its id. */
  ghost predicate SettledByReplies(settled: map<u64, Outcome>, delivered: seq<Reply>) {
    forall id :: id in settled && settled[id].Replied? ==> Reply(id, settled[id].body) in delivered
  }

  /** While input lasts, only jobs whose own signal aborted are marked as cancelled. */
  ghost predicate MarksAborted(s: State, aborted: set<u64>) {
    !s.eof ==> forall id :: IsCancelled(s, id) ==> id in aborted
  }

  /** Each pending id is in exactly one place, and no other id is in any. */
  ghost predicate EachInOnePlace(y: System)
    requires InBounds(y)
  {
    !y.client.closed && y.supervisor.status != Broken ==> InFlight(y) == multiset(y.client.pending.Keys)
  }

  ghost predicate Safe(y: System) {
    && InBounds(y)
    && ClientInvariant(y.client)
    && y.supervisor.shutdownId.None?
    && Invariant(y.supervisor)
    && JobsAsked(y.supervisor.active, y.client.sent)
    && ResultsAsked(y.supervisor.replies, y.client.sent)
    && SettledByReplies(y.client.settled, y.supervisor.replies[..y.delivered])
    && MarksAborted(y.supervisor, y.client.aborted)
    && EachInOnePlace(y)
  }

  // ------------------------------------------------------- supervisor moves

  lemma ApplyExtendsReplies(s: State, e: Event)
    ensures s.replies <= Apply(s, e).replies
  {
    hide StartJob;
  }

  lemma StepExtendsReplies(s: State, e: Event)
    requires s.status == Running
    ensures s.replies <= Step(s, e).replies
  {
    ApplyExtendsReplies(s, e);
    hide Apply;
  }

  lemma IdsSplit(replies: seq<Reply>, at: nat)
    requires at <= |replies|
    ensures Ids(replies) == Ids(replies[..at]) + Ids(replies[at..])
  {
    hide Ids;
    IdsConcat(replies[..at], replies[at..]);
    assert replies == replies[..at] + replies[at..];
  }

  lemma CancelPrefix(p: multiset<u64>, r: multiset<u64>, k: multiset<u64>, r': multiset<u64>, k': multiset<u64>,
      o: multiset<u64>)
    requires (p + r') + k' == (p + r) + k + o
    ensures k' + r' == k + r + o
  {
    forall x: u64
      ensures (k' + r')[x] == (k + r + o)[x]
    {
      assert ((p + r') + k')[x] == ((p + r) + k + o)[x];
    }
  }

  lemma AccountedWithoutShutdown(s: State)
    requires s.shutdownId.None?
    ensures Accounted(s) == Ids(s.replies) + multiset(s.active.Keys)
  {
  }

  /** A supervisor step moves ids from a request into `active` or from `active` into a reply. */
  lemma StepMovesIds(s: State, e: Event, delivered: nat)
    requires Invariant(s) && s.status == Running && s.shutdownId.None? && Enabled(s, e)
    requires delivered <= |s.replies|
    requires Step(s, e).status != Broken && Step(s, e).shutdownId.None?
    ensures delivered <= |Step(s, e).replies|
    ensures multiset(Step(s, e).active.Keys) + Ids(Step(s, e).replies[delivered..])
         == multiset(s.active.Keys) + Ids(s.replies[delivered..]) + OwedBy(s, e)
  {
    hide *;
    StepAccounts(s, e);
    StepExtendsReplies(s, e);
    var t := Step(s, e);
    AccountedWithoutShutdown(s);
    AccountedWithoutShutdown(t);
    IdsSplit(s.replies, delivered);
    IdsSplit(t.replies, delivered);
    assert t.replies[..delivered] == s.replies[..delivered];
    CancelPrefix(Ids(s.replies[..delivered]), Ids(s.replies[delivered..]), multiset(s.active.Keys),
                 Ids(t.replies[delivered..]), multiset(t.active.Keys), OwedBy(s, e));
  }

  lemma NoShutdown(s: State, e: Event)
    requires s.status == Running && s.shutdownId.None?
    requires e.Incoming? ==> !e.request.kind.Shutdown?
    ensures Step(s, e).shutdownId.None?
  {
    hide StartJob;
  }

  /** Where a job in the state after a step comes from. */
  lemma StepTracesJobs(s: State, e: Event)
    requires s.status == Running && s.shutdownId.None?
    ensures forall id :: id in Step(s, e).active ==>
              || (id in s.active && Step(s, e).active[id].spec == s.active[id].spec)
              || (e.Incoming? && e.request == Request(id, Run(Step(s, e).active[id].spec)))
  {
    if e.Incoming? {
      HandleTraces(s, e.request, e.launch, e.io.reply);
    }
    hide Handle;
  }

  /** Where a result written by a step comes from. */
  lemma StepTracesResults(s: State, e: Event)
    requires s.status == Running && s.shutdownId.None?
    ensures forall i :: |s.replies| <= i < |Step(s, e).replies| && Step(s, e).replies[i].body.Done? ==>
              && e.Finished? && e.id in s.active && e.output.Exited?
              && e.output.result == Success(Step(s, e).replies[i].body.result) && Step(s, e).replies[i].id == e.id
  {
    if e.Incoming? {
      HandleTraces(s, e.request, e.launch, e.io.reply);
    }
    hide Handle;
  }

  lemma HandleTraces(s: State, r: Request, launch: Launch, ok: bool)
    requires s.shutdownId.None?
    ensures var t := Handle(s, r, launch, ok);
            && s.replies <= t.replies
            && (forall i :: |s.replies| <= i < |t.replies| ==> !t.replies[i].body.Done?)
            && forall id :: id in t.active ==>
                 || (id in s.active && t.active[id].spec == s.active[id].spec)
                 || r == Request(id, Run(t.active[id].spec))
  {
    if r.kind.Run? {
      StartedUncancelled(s, r.kind.spec, launch);
    }
    hide StartJob;
  }

  lemma StepKeepsJobsAsked(s: State, e: Event, sent: seq<Request>)
    requires s.status == Running && s.shutdownId.None? && JobsAsked(s.active, sent)
    requires e.Incoming? ==> e.request in sent
    ensures JobsAsked(Step(s, e).active, sent)
  {
    StepTracesJobs(s, e);
    hide Step;
  }

  lemma StepKeepsResultsAsked(s: State, e: Event, sent: seq<Request>)
    requires s.status == Running && s.shutdownId.None? && JobsAsked(s.active, sent) && ResultsAsked(s.replies, sent)
    requires e.Finished? && e.id in s.active ==> OwnResult(s.active[e.id], e.output)
    ensures ResultsAsked(Step(s, e).replies, sent)
  {
    StepTracesResults(s, e);
    StepExtendsReplies(s, e);
    hide Step;
    var t := Step(s, e);
    forall i | 0 <= i < |t.replies| && t.replies[i].body.Done?
      ensures Request(t.replies[i].id, Run(t.replies[i].body.result.spec)) in sent
    {
      if i < |s.replies| {
        assert t.replies[i] == s.replies[i];
      }
    }
  }

  predicate FromTheClient(r: Request, aborted: set<u64>) {
    IsAsk(r) || (r.kind.Cancel? && r.kind.target.Some? && r.kind.target.value in aborted)
  }

  lemma StepKeepsMarksAborted(s: State, e: Event, aborted: set<u64>)
    requires s.status == Running && MarksAborted(s, aborted)
    requires e.Incoming? ==> FromTheClient(e.request, aborted)
    ensures MarksAborted(Step(s, e), aborted)
  {
    var t := Step(s, e);
    EofStays(s, e);
    forall id | !t.eof && IsCancelled(t, id)
      ensures id in aborted
    {
      if !IsCancelled(s, id) {
        StepMarks(s, e, id);
      }
    }
  }

  lemma EofStays(s: State, e: Event)
    requires s.status == Running
    ensures s.eof || e.InputEnd? ==> Step(s, e).eof
  {
    hide StartJob;
  }

  lemma OwedIsAsk(s: State, r: Request, launch: Launch, io: Io)
    requires s.shutdownId.None?
    requires IsAsk(r) || (r.kind.Cancel? && r.kind.target.Some?)
    ensures OwedBy(s, Incoming(r, launch, io)) == if IsAsk(r) then multiset{r.id} else multiset{}
  {
  }

  lemma AskIdsHead(sent: seq<Request>, at: nat)
    requires at < |sent|
    ensures AskIds(sent[at..])
         == (if IsAsk(sent[at]) then multiset{sent[at].id} else multiset{}) + AskIds(sent[at + 1..])
  {
    assert sent[at..][1..] == sent[at + 1..];
  }

  lemma PlacesOf(y: System)
    requires InBounds(y)
    ensures EachInOnePlace(y) <==>
            (!y.client.closed && y.supervisor.status != Broken ==>
               AskIds(y.client.sent[y.consumed..]) + multiset(y.supervisor.active.Keys)
               + Ids(y.supervisor.replies[y.delivered..])
               == multiset(y.client.pending.Keys))
  {
    hide AskIds, Ids;
  }

  lemma Rebalance(asks: multiset<u64>, keys: multiset<u64>, replies: multiset<u64>, owed: multiset<u64>,
                  asks': multiset<u64>, keys': multiset<u64>, replies': multiset<u64>)
    requires asks == owed + asks'
    requires keys' + replies' == keys + replies + owed
    ensures asks' + keys' + replies' == asks + keys + replies
  {
    forall x: u64
      ensures (asks' + keys' + replies')[x] == (asks + keys + replies)[x]
    {
      assert (keys' + replies')[x] == (keys + replies + owed)[x];
      assert asks[x] == (owed + asks')[x];
    }
  }

  /** Only a request that arrives is owed a reply, and it leaves the channel. */
  lemma OwedLeavesTheChannel(y: System, e: Event, consumed: nat)
    requires Safe(y)
    requires e.Incoming? ==> y.consumed < |y.client.sent| && e.request == y.client.sent[y.consumed]
    requires consumed == if e.Incoming? then y.consumed + 1 else y.consumed
    ensures AskIds(y.client.sent[y.consumed..]) == OwedBy(y.supervisor, e) + AskIds(y.client.sent[consumed..])
  {
    if e.Incoming? {
      assert IsAsk(e.request) || (e.request.kind.Cancel? && e.request.kind.target.Some?);
      hide Invariant, JobsAsked, ResultsAsked, SettledByReplies, MarksAborted, EachInOnePlace, ClientInvariant;
      OwedIsAsk(y.supervisor, e.request, e.launch, e.io);
      AskIdsHead(y.client.sent, y.consumed);
    } else {
      hide Safe, AskIds;
    }
  }

  lemma PartsOfSafe(y: System)
    requires Safe(y)
    ensures InBounds(y) && y.consumed <= |y.client.sent| && y.delivered <= |y.supervisor.replies|
    ensures Invariant(y.supervisor) && y.supervisor.shutdownId.None? && EachInOnePlace(y) && ClientInvariant(y.client)
    ensures JobsAsked(y.supervisor.active, y.client.sent) && ResultsAsked(y.supervisor.replies, y.client.sent)
    ensures SettledByReplies(y.client.settled, y.supervisor.replies[..y.delivered])
    ensures MarksAborted(y.supervisor, y.client.aborted)
  {
    hide Invariant, ClientInvariant, JobsAsked, ResultsAsked, SettledByReplies, MarksAborted, EachInOnePlace;
  }

  lemma MakeSafe(y: System)
    requires y.consumed <= |y.client.sent| && y.delivered <= |y.supervisor.replies|
    requires InBounds(y) && EachInOnePlace(y) && y.supervisor.shutdownId.None? && Invariant(y.supervisor)
    requires ClientInvariant(y.client)
    requires JobsAsked(y.supervisor.active, y.client.sent) && ResultsAsked(y.supervisor.replies, y.client.sent)
    requires SettledByReplies(y.client.settled, y.supervisor.replies[..y.delivered])
    requires MarksAborted(y.supervisor, y.client.aborted)
    ensures Safe(y)
  {
    hide Invariant, ClientInvariant, JobsAsked, ResultsAsked, SettledByReplies, MarksAborted, EachInOnePlace;
  }

  /** What the client sends is a request, or a cancel of a request that was aborted. */
  lemma SentIsAttributed(c: Client, i: nat)
    requires ClientInvariant(c) && i < |c.sent|
    ensures c.sent[i] in c.sent && FromTheClient(c.sent[i], c.aborted)
  {
  }

  lemma NoShutdownSent(r: Request, aborted: set<u64>)
    requires FromTheClient(r, aborted)
    ensures !r.kind.Shutdown?
  {
  }

  lemma SupervisorKeepsPlaces(y: System, e: Event, consumed: nat)
    requires Safe(y) && y.supervisor.status == Running && Enabled(y.supervisor, e)
    requires e.Incoming? ==> y.consumed < |y.client.sent| && e.request == y.client.sent[y.consumed]
    requires consumed == if e.Incoming? then y.consumed + 1 else y.consumed
    requires y.consumed <= consumed <= |y.client.sent|
    requires y.delivered <= |Step(y.supervisor, e).replies| && Step(y.supervisor, e).shutdownId.None?
    ensures EachInOnePlace(y.(supervisor := Step(y.supervisor, e), consumed := consumed))
  {
    hide *;
    var s, t := y.supervisor, Step(y.supervisor, e);
    var z := y.(supervisor := t, consumed := consumed);
    PartsOfSafe(y);
    OwedLeavesTheChannel(y, e, consumed);
    StillInBounds(z);
    PlacesOf(y);
    PlacesOf(z);
    if !y.client.closed && t.status != Broken {
      StepMovesIds(s, e, y.delivered);
      Rebalance(AskIds(y.client.sent[y.consumed..]), multiset(s.active.Keys), Ids(s.replies[y.delivered..]),
                OwedBy(s, e), AskIds(y.client.sent[consumed..]), multiset(t.active.Keys),
                Ids(t.replies[y.delivered..]));
    }
  }

  lemma StillInBounds(y: System)
    requires y.consumed <= |y.client.sent| && y.delivered <= |y.supervisor.replies|
    ensures InBounds(y)
  {
  }

  lemma SupervisorMoveIsSafe(y: System, e: Event, consumed: nat)
    requires Safe(y) && y.supervisor.status == Running && Enabled(y.supervisor, e)
    requires e.Incoming? ==> y.consumed < |y.client.sent| && e.request == y.client.sent[y.consumed]
    requires e.Finished? && e.id in y.supervisor.active ==> OwnResult(y.supervisor.active[e.id], e.output)
    requires consumed == if e.Incoming? then y.consumed + 1 else y.consumed
    ensures Safe(y.(supervisor := Step(y.supervisor, e), consumed := consumed))
  {
    hide *;
    var s, t := y.supervisor, Step(y.supervisor, e);
    var z := y.(supervisor := t, consumed := consumed);
    PartsOfSafe(y);
    if e.Incoming? {
      SentIsAttributed(y.client, y.consumed);
      NoShutdownSent(e.request, y.client.aborted);
    }
    NoShutdown(s, e);
    StepExtendsReplies(s, e);
    StepKeepsInvariant(s, e);
    StepKeepsJobsAsked(s, e, y.client.sent);
    StepKeepsResultsAsked(s, e, y.client.sent);
    StepKeepsMarksAborted(s, e, y.client.aborted);
    SamePrefix(s.replies, t.replies, y.delivered);
    StillInBounds(z);
    SupervisorKeepsPlaces(y, e, consumed);
    MakeSafe(z);
  }

  lemma SamePrefix(replies: seq<Reply>, more: seq<Reply>, n: nat)
    requires replies <= more && n <= |replies|
    ensures more[..n] == replies[..n]
  {
  }

  // ----------------------------------------------------------- client moves

  /** Sending more keeps every trace: the log of sent messages only grows. */
  lemma SentGrows(active: map<u64, Job>, replies: seq<Reply>, sent: seq<Request>, more: seq<Request>)
    requires JobsAsked(active, sent) && ResultsAsked(replies, sent) && sent <= more
    ensures JobsAsked(active, more) && ResultsAsked(replies, more)
  {
    assert forall r :: r in sent ==> r in more;
  }

  lemma AskIsSafe(y: System, kind: Kind, signal: bool, sendable: bool)
    requires Safe(y) && y.client.nextId < MAX_ID && (kind.Health? || kind.Run?)
    ensures Safe(y.(client := AskStep(y.client, kind, signal, sendable)))
  {
    var c, d := y.client, AskStep(y.client, kind, signal, sendable);
    AskKeepsInvariant(c, kind, signal, sendable);
    SentGrows(y.supervisor.active, y.supervisor.replies, c.sent, d.sent);
    AskKeepsPlaces(y, kind, signal, sendable);
    hide Invariant, ClientInvariant, JobsAsked, ResultsAsked, EachInOnePlace;
  }

  lemma AskKeepsPlaces(y: System, kind: Kind, signal: bool, sendable: bool)
    requires Safe(y) && y.client.nextId < MAX_ID && (kind.Health? || kind.Run?)
    ensures EachInOnePlace(y.(client := AskStep(y.client, kind, signal, sendable)))
  {
    var c, d := y.client, AskStep(y.client, kind, signal, sendable);
    var r := Request(c.nextId, kind);
    var z := y.(client := d);
    assert c.nextId !in c.pending;
    assert InBounds(z) && EachInOnePlace(y);
    assert d.closed == c.closed;
    assert !c.closed && sendable ==> d.sent == c.sent + [r] && d.pending.Keys == c.pending.Keys + {r.id};
    assert c.closed || !sendable ==> d.sent == c.sent && d.pending.Keys == c.pending.Keys;
    assert IsAsk(r);
    hide *;
    PlacesOf(y);
    PlacesOf(z);
    if !c.closed && sendable {
      SendKeepsPlaces(c.sent, y.consumed, r);
      MultisetOfInsert(c.pending.Keys, r.id);
      AddOne(AskIds(c.sent[y.consumed..]), multiset(y.supervisor.active.Keys),
             Ids(y.supervisor.replies[y.delivered..]), r.id);
    }
  }

  lemma AddOne(asks: multiset<u64>, keys: multiset<u64>, replies: multiset<u64>, id: u64)
    ensures asks + multiset{id} + keys + replies == asks + keys + replies + multiset{id}
  {
  }

  lemma SendKeepsPlaces(sent: seq<Request>, consumed: nat, r: Request)
    requires consumed <= |sent|
    ensures AskIds((sent + [r])[consumed..])
        == AskIds(sent[consumed..]) + (if IsAsk(r) then multiset{r.id} else multiset{})
  {
    hide AskIds;
    AskIdsAppend(sent[consumed..], r);
    assert (sent + [r])[consumed..] == sent[consumed..] + [r];
  }

  lemma AbortIsSafe(y: System, id: u64, sendable: bool)
    requires Safe(y) && y.client.nextId < MAX_ID
    ensures Safe(y.(client := AbortStep(y.client, id, sendable)))
  {
    var c, d := y.client, AbortStep(y.client, id, sendable);
    AbortKeepsInvariant(c, id, sendable);
    SentGrows(y.supervisor.active, y.supervisor.replies, c.sent, d.sent);
    AbortKeepsPlaces(y, id, sendable);
    assert c.aborted <= d.aborted && d.settled == c.settled;
    assert MarksAborted(y.supervisor, d.aborted);
    hide Invariant, ClientInvariant, JobsAsked, ResultsAsked, EachInOnePlace, MarksAborted;
  }

  lemma AbortKeepsPlaces(y: System, id: u64, sendable: bool)
    requires Safe(y) && y.client.nextId < MAX_ID
    ensures EachInOnePlace(y.(client := AbortStep(y.client, id, sendable)))
  {
    var c, d := y.client, AbortStep(y.client, id, sendable);
    var r := Request(c.nextId, Cancel(Some(id)));
    var z := y.(client := d);
    assert InBounds(z) && EachInOnePlace(y);
    assert d.pending.Keys == c.pending.Keys && (c.closed ==> d.closed);
    assert d.sent == c.sent || d.sent == c.sent + [r];
    assert !IsAsk(r);
    hide *;
    PlacesOf(y);
    PlacesOf(z);
    SendKeepsPlaces(c.sent, y.consumed, r);
  }

  lemma ReplyIsSafe(y: System)
    requires Safe(y) && y.delivered < |y.supervisor.replies|
    ensures Safe(y.(client := ReceiveStep(y.client, y.supervisor.replies[y.delivered]), delivered := y.delivered + 1))
  {
    var reply := y.supervisor.replies[y.delivered];
    var c, d := y.client, ReceiveStep(y.client, reply);
    ReceiveKeepsInvariant(c, reply);
    ReplyKeepsPlaces(y);
    var before, after := y.supervisor.replies[..y.delivered], y.supervisor.replies[..y.delivered + 1];
    ReceiveKeepsSettlements(c, reply, before, after);
    hide Invariant, ClientInvariant, JobsAsked, ResultsAsked, EachInOnePlace, MarksAborted, SettledByReplies;
  }

  lemma ReceiveKeepsSettlements(c: Client, reply: Reply, before: seq<Reply>, after: seq<Reply>)
    requires SettledByReplies(c.settled, before)
    requires |after| == |before| + 1 && after[..|before|] == before && after[|before|] == reply
    ensures SettledByReplies(ReceiveStep(c, reply).settled, after)
  {
    assert after == before + [reply];
    assert forall r :: r in before ==> r in after;
  }

  lemma ReplyKeepsPlaces(y: System)
    requires Safe(y) && y.delivered < |y.supervisor.replies|
    ensures EachInOnePlace(y.(client := ReceiveStep(y.client, y.supervisor.replies[y.delivered]),
        delivered := y.delivered + 1))
  {
    hide *;
    var reply := y.supervisor.replies[y.delivered];
    var c, d := y.client, ReceiveStep(y.client, reply);
    var z := y.(client := d, delivered := y.delivered + 1);
    PartsOfSafe(y);
    ReceiveShape(c, reply);
    IdsHead(y.supervisor.replies, y.delivered);
    StillInBounds(z);
    PlacesOf(y);
    PlacesOf(z);
    if !c.closed && y.supervisor.status != Broken {
      TakeOne(c.pending.Keys, reply.id, AskIds(c.sent[y.consumed..]) + multiset(y.supervisor.active.Keys),
              Ids(y.supervisor.replies[y.delivered + 1..]));
    }
  }

  lemma ReceiveShape(c: Client, reply: Reply)
    ensures var d := ReceiveStep(c, reply);
            && d.closed == c.closed && d.sent == c.sent
            && d.pending.Keys == if c.closed then c.pending.Keys else c.pending.Keys - {reply.id}
  {
  }

  lemma TakeOne(keys: set<u64>, id: u64, elsewhere: multiset<u64>, rest: multiset<u64>)
    requires elsewhere + (multiset{id} + rest) == multiset(keys)
    ensures id in keys && elsewhere + rest == multiset(keys - {id})
  {
    assert multiset(keys)[id] == (elsewhere + (multiset{id} + rest))[id];
    assert id in keys;
    MultisetOfInsert(keys - {id}, id);
    assert keys - {id} + {id} == keys;
    forall x: u64
      ensures (elsewhere + rest)[x] == multiset(keys - {id})[x]
    {
      assert (elsewhere + (multiset{id} + rest))[x] == multiset(keys)[x];
    }
  }

  lemma CloseIsSafe(y: System, e: ClientEvent)
    requires Safe(y)
    requires e.GraceExpired? || e.CloseCalled? || e.TransportClosed? || e.CloseSettled?
    ensures Safe(y.(client := ClientStep(y.client, e)))
  {
    var c, d := y.client, ClientStep(y.client, e);
    RejectKeepsInvariant(c);
    assert ClientInvariant(d);
    assert d.sent == c.sent && d.aborted == c.aborted;
    assert d.closed || d == c;
    RejectionsAreNoReplies(c, y.supervisor.replies[..y.delivered]);
    assert SettledByReplies(d.settled, y.supervisor.replies[..y.delivered]);
    assert EachInOnePlace(y.(client := d));
    hide Invariant, ClientInvariant, JobsAsked, ResultsAsked, MarksAborted, EachInOnePlace, SettledByReplies,
        ClientStep;
  }

  lemma RejectionsAreNoReplies(c: Client, delivered: seq<Reply>)
    requires SettledByReplies(c.settled, delivered)
    ensures SettledByReplies(RejectPending(c).settled, delivered)
    ensures SettledByReplies(RejectPending(c.(closed := true)).settled, delivered)
  {
  }

  /** Every move, by whichever side and whatever its outcome, keeps the joint invariant. */
  lemma AdvanceIsSafe(y: System, m: Move)
    requires Safe(y) && Possible(y, m)
    ensures Safe(Advance(y, m))
  {
    hide Safe, ClientInvariant, Invariant, Step, AskStep, AbortStep, ReceiveStep;
    match m {
      case ClientMoves(Ask(kind, signal, sendable)) => AskIsSafe(y, kind, signal, sendable);
      case ClientMoves(Abort(id, sendable)) => AbortIsSafe(y, id, sendable);
      case ClientMoves(e) => CloseIsSafe(y, e);
      case RequestArrives(launch, io) =>
        SupervisorMoveIsSafe(y, Incoming(y.client.sent[y.consumed], launch, io), y.consumed + 1);
      case LauncherFinishes(id, output, io) => SupervisorMoveIsSafe(y, Finished(id, output, io), y.consumed);
      case InputEnds(io) => SupervisorMoveIsSafe(y, InputEnd(io), y.consumed);
      case ReplyArrives => ReplyIsSafe(y);
    }
  }

  // ------------------------------------------------------------ all runs

  /** A run takes its moves in order and stops at one that cannot happen. */
  function Play(y: System, moves: seq<Move>): System
    decreases |moves|
  {
    if moves == [] || !InBounds(y) || !Possible(y, moves[0]) then y
    else Play(Advance(y, moves[0]), moves[1..])
  }

  lemma {:induction false} PlayIsSafe(y: System, moves: seq<Move>)
    requires Safe(y)
    ensures Safe(Play(y, moves))
    decreases |moves|
  {
    if moves != [] && Possible(y, moves[0]) {
      AdvanceIsSafe(y, moves[0]);
      hide Safe, Advance;
      PlayIsSafe(Advance(y, moves[0]), moves[1..]);
    }
  }

  lemma StartIsSafe(limit: Capacity)
    ensures Safe(Start(limit))
  {
    InitialInvariant(limit);
    assert (Start(limit)).client.sent[0..] == [];
  }

  lemma EveryRunIsSafe(limit: Capacity, moves: seq<Move>)
    ensures Safe(Play(Start(limit), moves))
  {
    StartIsSafe(limit);
    hide Safe, Start;
    PlayIsSafe(Start(limit), moves);
  }

  /**
   Exactly-once delivery: while both sides run, a pending id is in exactly one of the
   request channel, the job table and the response channel, and any other id is in none.
   */
  lemma ExactlyOncePlace(limit: Capacity, moves: seq<Move>, id: u64)
    ensures var y := Play(Start(limit), moves);
            InBounds(y) &&
            (!y.client.closed && y.supervisor.status != Broken ==>
               AskIds(Requests(y))[id] + AsNumber(id in y.supervisor.active) + Ids(Responses(y))[id]
               == AsNumber(id in y.client.pending))
  {
    EveryRunIsSafe(limit, moves);
    hide Play, Start, Invariant, ClientInvariant;
    var y := Play(Start(limit), moves);
    if !y.client.closed && y.supervisor.status != Broken {
      assert InFlight(y)[id] == multiset(y.client.pending.Keys)[id];
    }
  }

  /** Once nothing is under way, every request ever sent has settled. */
  lemma QuietMeansSettled(limit: Capacity, moves: seq<Move>, i: nat)
    requires var y := Play(Start(limit), moves);
             && i < |y.client.sent| && IsAsk(y.client.sent[i]) && !y.client.closed && y.supervisor.status != Broken
             && y.consumed == |y.client.sent| && y.delivered == |y.supervisor.replies| && y.supervisor.active == map[]
    ensures Play(Start(limit), moves).client.sent[i].id in Play(Start(limit), moves).client.settled
  {
    EveryRunIsSafe(limit, moves);
    ExactlyOncePlace(limit, moves, Play(Start(limit), moves).client.sent[i].id);
    hide Play, Start, Invariant;
  }

  lemma NeverReused(sent: seq<Request>, bound: u64, i: nat, j: nat)
    requires Increasing(sent, bound) && i < |sent| && j < |sent| && sent[i].id == sent[j].id
    ensures i == j
  {
  }

  /**
   A promise settles only with its own job's result: the result is for the specification
   of the one request that carried this id.
   */
  lemma SettledWithOwnResult(limit: Capacity, moves: seq<Move>, id: u64)
    requires var c := Play(Start(limit), moves).client;
             id in c.settled && c.settled[id].Replied? && c.settled[id].body.Done?
    ensures var c := Play(Start(limit), moves).client;
            forall i :: 0 <= i < |c.sent| && c.sent[i].id == id ==>
                c.sent[i].kind == Run(c.settled[id].body.result.spec)
    ensures exists r :: r in Play(Start(limit), moves).client.sent && r.id == id
  {
    EveryRunIsSafe(limit, moves);
    hide Play, Start, Invariant, EachInOnePlace, MarksAborted;
    var y := Play(Start(limit), moves);
    var c := y.client;
    var reply := Reply(id, c.settled[id].body);
    assert reply in y.supervisor.replies[..y.delivered];
    var k :| 0 <= k < y.delivered && y.supervisor.replies[k] == reply;
    var asked := Request(id, Run(c.settled[id].body.result.spec));
    assert asked in c.sent;
    var j :| 0 <= j < |c.sent| && c.sent[j] == asked;
    forall i | 0 <= i < |c.sent| && c.sent[i].id == id
      ensures c.sent[i] == asked
    {
      NeverReused(c.sent, c.nextId, i, j);
    }
  }

  /**
   Cancel precision: while input lasts, only jobs whose own signal aborted are marked,
   whatever cancels were sent and however late they arrived.
   */
  lemma OnlyAbortedJobsAreCancelled(limit: Capacity, moves: seq<Move>, id: u64)
    requires var s := Play(Start(limit), moves).supervisor; !s.eof && IsCancelled(s, id)
    ensures id in Play(Start(limit), moves).client.aborted
  {
    EveryRunIsSafe(limit, moves);
    hide Play, Start, Invariant;
  }

  // ------------------------------------------------------ who gets CANCELLED

  predicate ReportsCancelled(output: Output) {
    || (output.Exited? && output.result == Failure(Cancelled))
    || output == LauncherFailed(Cancelled)
  }

  lemma StartNeverCancels(s: State, spec: Payload, launch: Launch)
    requires StartErrorsAreOwn(launch)
    ensures StartJob(s, spec, launch) != Failure(Cancelled)
  {
    hide Scheduling.Reserve, ReserveWorkspace;
  }

  lemma HandleNeverCancels(s: State, r: Request, launch: Launch, ok: bool)
    requires s.shutdownId.None? && StartErrorsAreOwn(launch)
    ensures var t := Handle(s, r, launch, ok);
            && s.replies <= t.replies
            && forall i :: |s.replies| <= i < |t.replies| ==> t.replies[i].body != Failed(Cancelled)
  {
    if r.kind.Run? {
      StartNeverCancels(s, r.kind.spec, launch);
    }
    hide StartJob;
  }

  lemma FinishCancels(s: State, id: u64, output: Output, ok: bool)
    ensures var t := Finish(s, id, output, ok);
            && s.replies <= t.replies
            && forall i :: |s.replies| <= i < |t.replies| && t.replies[i].body == Failed(Cancelled) ==>
                 id in s.active && t.replies[i].id == id && (s.active[id].cancelled || ReportsCancelled(output))
  {
  }

  /** A step answers CANCELLED only for a marked job, or one whose launcher reported that. */
  lemma StepTracesCancels(s: State, e: Event)
    requires s.status == Running && s.shutdownId.None? && Step(s, e).shutdownId.None?
    requires e.Incoming? ==> StartErrorsAreOwn(e.launch)
    ensures s.replies <= Step(s, e).replies
    ensures forall i :: |s.replies| <= i < |Step(s, e).replies| && Step(s, e).replies[i].body == Failed(Cancelled) ==>
              e.Finished? && Step(s, e).replies[i].id == e.id && (IsCancelled(s, e.id) || ReportsCancelled(e.output))
  {
    if e.Incoming? {
      HandleNeverCancels(s, e.request, e.launch, e.io.reply);
    } else if e.Finished? {
      FinishCancels(s, e.id, e.output, e.io.reply);
    }
    SettleWithoutShutdown(Apply(s, e), ClosingWritten(e));
    hide Handle, Finish, Settle;
  }

  lemma SettleWithoutShutdown(s: State, ok: bool)
    ensures Settle(s, ok).shutdownId == s.shutdownId
    ensures s.shutdownId.None? ==> Settle(s, ok).replies == s.replies
  {
  }

  /** In one of the moves that happened the launcher of job `id` reported a cancellation. */
  ghost predicate Reported(y: System, moves: seq<Move>, id: u64)
    decreases |moves|
  {
    && moves != [] && InBounds(y) && Possible(y, moves[0])
    && ((moves[0].LauncherFinishes? && moves[0].id == id && ReportsCancelled(moves[0].output))
        || Reported(Advance(y, moves[0]), moves[1..], id))
  }

  /** What a move adds to and never takes back. */
  ghost predicate Grows(y: System, z: System) {
    && y.supervisor.replies <= z.supervisor.replies
    && y.client.aborted <= z.client.aborted
    && (y.supervisor.eof ==> z.supervisor.eof)
  }

  lemma ClientGrows(c: Client, e: ClientEvent)
    ensures c.aborted <= ClientStep(c, e).aborted
  {
  }

  lemma AdvanceGrows(y: System, m: Move)
    requires Safe(y) && Possible(y, m)
    ensures Grows(y, Advance(y, m))
  {
    hide Safe, Step, ClientStep, ClientInvariant, Invariant, JobsAsked, ResultsAsked, SettledByReplies, MarksAborted;
    hide EachInOnePlace, OwnResult, StartErrorsAreOwn;
    match m
    case ClientMoves(e) => ClientGrows(y.client, e);
    case ReplyArrives => ClientGrows(y.client, Receive(y.supervisor.replies[y.delivered]));
    case RequestArrives(launch, io) => SupervisorGrows(y, Incoming(y.client.sent[y.consumed], launch, io));
    case LauncherFinishes(id, output, io) => SupervisorGrows(y, Finished(id, output, io));
    case InputEnds(io) => SupervisorGrows(y, InputEnd(io));
  }

  lemma SupervisorGrows(y: System, e: Event)
    requires y.supervisor.status == Running
    ensures y.supervisor.replies <= Step(y.supervisor, e).replies
    ensures y.supervisor.eof ==> Step(y.supervisor, e).eof
  {
    hide Step;
    StepExtendsReplies(y.supervisor, e);
    EofStays(y.supervisor, e);
  }

  lemma {:induction false} PlayGrows(y: System, moves: seq<Move>)
    requires Safe(y)
    ensures Grows(y, Play(y, moves))
    decreases |moves|
  {
    if moves != [] && Possible(y, moves[0]) {
      AdvanceGrows(y, moves[0]);
      AdvanceIsSafe(y, moves[0]);
      hide Safe, Advance;
      PlayGrows(Advance(y, moves[0]), moves[1..]);
    }
  }

  /** The cancellations among some replies are of aborted requests, or were reported by launchers. */
  ghost predicate Explained(replies: seq<Reply>, from: nat, aborted: set<u64>, y: System, moves: seq<Move>) {
    forall i :: from <= i < |replies| && replies[i].body == Failed(Cancelled) ==>
      replies[i].id in aborted || Reported(y, moves, replies[i].id)
  }

  /** The replies that the first move of a run adds. */
  lemma FirstMoveExplained(y: System, moves: seq<Move>)
    requires Safe(y) && moves != [] && Possible(y, moves[0]) && !y.supervisor.eof
    ensures Explained(Advance(y, moves[0]).supervisor.replies, |y.supervisor.replies|, y.client.aborted, y, moves)
  {
    var m, z := moves[0], Advance(y, moves[0]);
    PartsOfSafe(y);
    AdvanceIsSafe(y, m);
    PartsOfSafe(z);
    MovesOf(y, m);
    hide Safe, Step, ClientStep, Invariant, ClientInvariant, OwnResult, IsCancelled, EachInOnePlace;
    if m.RequestArrives? || m.LauncherFinishes? || m.InputEnds? {
      var e := EventOf(y, m);
      StepTracesCancels(y.supervisor, e);
      forall i | |y.supervisor.replies| <= i < |z.supervisor.replies|
          && z.supervisor.replies[i].body == Failed(Cancelled)
        ensures z.supervisor.replies[i].id in y.client.aborted || Reported(y, moves, z.supervisor.replies[i].id)
      {
        assert e.Finished? && z.supervisor.replies[i].id == e.id;
        if IsCancelled(y.supervisor, e.id) {
          MarkedIsAborted(y, e.id);
        }
      }
    }
  }

  lemma MarkedIsAborted(y: System, id: u64)
    requires MarksAborted(y.supervisor, y.client.aborted) && !y.supervisor.eof && IsCancelled(y.supervisor, id)
    ensures id in y.client.aborted
  {
  }

  /** The supervisor's event behind a move. */
  function EventOf(y: System, m: Move): Event
    requires InBounds(y) && Possible(y, m) && (m.RequestArrives? || m.LauncherFinishes? || m.InputEnds?)
  {
    match m
    case RequestArrives(launch, io) => Incoming(y.client.sent[y.consumed], launch, io)
    case LauncherFinishes(id, output, io) => Finished(id, output, io)
    case InputEnds(io) => InputEnd(io)
  }

  lemma MovesOf(y: System, m: Move)
    requires InBounds(y) && Possible(y, m)
    ensures m.RequestArrives? || m.LauncherFinishes? || m.InputEnds? ==>
        y.supervisor.status == Running && Advance(y, m).supervisor == Step(y.supervisor, EventOf(y, m))
    ensures m.ClientMoves? || m.ReplyArrives? ==> Advance(y, m).supervisor == y.supervisor
  {
    hide Step, ClientStep;
  }

  lemma {:induction false} RunIsExplained(y: System, moves: seq<Move>)
    requires Safe(y) && !Play(y, moves).supervisor.eof
    ensures var z := Play(y, moves); Explained(z.supervisor.replies, |y.supervisor.replies|, z.client.aborted, y, moves)
    decreases |moves|
  {
    PlayGrows(y, moves);
    if moves != [] && Possible(y, moves[0]) {
      var x := Advance(y, moves[0]);
      var z := Play(x, moves[1..]);
      FirstMoveExplained(y, moves);
      AdvanceGrows(y, moves[0]);
      AdvanceIsSafe(y, moves[0]);
      PlayGrows(x, moves[1..]);
      RunIsExplained(x, moves[1..]);
      PartsOfSafe(y);
      hide Safe, Advance, Possible;
      JoinExplained(y, moves, x, z);
    }
  }

  lemma JoinExplained(y: System, moves: seq<Move>, x: System, z: System)
    requires moves != [] && InBounds(y) && Possible(y, moves[0]) && x == Advance(y, moves[0])
    requires Explained(x.supervisor.replies, |y.supervisor.replies|, y.client.aborted, y, moves)
    requires Explained(z.supervisor.replies, |x.supervisor.replies|, z.client.aborted, x, moves[1..])
    requires Grows(y, x) && Grows(x, z)
    ensures Explained(z.supervisor.replies, |y.supervisor.replies|, z.client.aborted, y, moves)
  {
    hide Possible, Advance;
    forall i | |y.supervisor.replies| <= i < |z.supervisor.replies| && z.supervisor.replies[i].body == Failed(Cancelled)
      ensures z.supervisor.replies[i].id in z.client.aborted || Reported(y, moves, z.supervisor.replies[i].id)
    {
      if i < |x.supervisor.replies| {
        assert z.supervisor.replies[i] == x.supervisor.replies[i];
      }
    }
  }

  /**
   Cancel precision, end to end: while input lasts, a request that nobody aborted settles
   as CANCELLED only if its own launcher reported that.
   */
  lemma CancelledOnlyIfAbortedOrReported(limit: Capacity, moves: seq<Move>, id: u64)
    requires var y := Play(Start(limit), moves);
             && !y.supervisor.eof && id !in y.client.aborted
             && id in y.client.settled && y.client.settled[id] == Replied(Failed(Cancelled))
    ensures Reported(Start(limit), moves, id)
  {
    var y := Play(Start(limit), moves);
    EveryRunIsSafe(limit, moves);
    StartIsSafe(limit);
    PartsOfSafe(y);
    RunIsExplained(Start(limit), moves);
    assert (Start(limit)).supervisor.replies == [];
    hide Play, Start, Safe, Reported;
    var reply := Reply(id, Failed(Cancelled));
    assert reply in y.supervisor.replies[..y.delivered];
    var k :| 0 <= k < y.delivered && y.supervisor.replies[k] == reply;
  }

  // ------------------------------------------------- what a job is answered

  /** In one of the moves that happened the launcher of job `id` left `output`, with the job marked or not. */
  ghost predicate LauncherLeft(y: System, moves: seq<Move>, id: u64, output: Output, marked: bool)
    decreases |moves|
  {
    && moves != [] && InBounds(y) && Possible(y, moves[0])
    && ((moves[0].LauncherFinishes? && moves[0].id == id && moves[0].output == output
         && IsCancelled(y.supervisor, id) == marked)
        || LauncherLeft(Advance(y, moves[0]), moves[1..], id, output, marked))
  }

  /** One of the replies written is for this job, and says what it should. */
  ghost predicate AnsweredIn(replies: seq<Reply>, id: u64, output: Output, marked: bool) {
    exists k :: 0 <= k < |replies| && replies[k].id == id
             && if marked then replies[k].body == Failed(Cancelled) else Answers(output, replies[k].body)
  }

  lemma AnswerStays(replies: seq<Reply>, more: seq<Reply>, id: u64, output: Output, marked: bool)
    requires AnsweredIn(replies, id, output, marked) && replies <= more
    ensures AnsweredIn(more, id, output, marked)
  {
    var k :| 0 <= k < |replies| && replies[k].id == id
          && if marked then replies[k].body == Failed(Cancelled) else Answers(output, replies[k].body);
    assert more[k] == replies[k];
  }

  predicate Ended(y: System) {
    y.client.closed || y.supervisor.status == Broken
  }

  lemma EndedStays(y: System, m: Move)
    requires InBounds(y) && Possible(y, m) && Ended(y)
    ensures Ended(Advance(y, m))
  {
    if y.client.closed {
      match m {
        case ClientMoves(e) => ClosedStays(y.client, e);
        case ReplyArrives => ClosedStays(y.client, Receive(y.supervisor.replies[y.delivered]));
        case _ =>
      }
    }
    hide Step, ClientStep, OwnResult, StartErrorsAreOwn, Proper, IdLeft;
  }

  lemma ClosedStays(c: Client, e: ClientEvent)
    requires c.closed
    ensures ClientStep(c, e).closed
  {
  }

  lemma {:induction false} EndedForGood(y: System, moves: seq<Move>)
    requires Ended(y)
    ensures Ended(Play(y, moves))
    decreases |moves|
  {
    if moves != [] && InBounds(y) && Possible(y, moves[0]) {
      EndedStays(y, moves[0]);
      hide Ended, Possible, Advance;
      EndedForGood(Advance(y, moves[0]), moves[1..]);
    }
  }

  lemma FinishIsAnswered(s: State, id: u64, output: Output, io: Io)
    requires s.status == Running && s.shutdownId.None? && id in s.active
    requires Step(s, Finished(id, output, io)).status != Broken
    ensures AnsweredIn(Step(s, Finished(id, output, io)).replies, id, output, IsCancelled(s, id))
  {
    var t := Step(s, Finished(id, output, io));
    assert io.reply;
    FinishedJobIsAnswered(s, id, output, io);
    hide Step, Answers;
    assert t.replies[|s.replies|].id == id;
  }

  lemma {:induction false} LauncherIsAnswered(y: System, moves: seq<Move>, id: u64, output: Output, marked: bool)
    requires Safe(y) && LauncherLeft(y, moves, id, output, marked) && !Ended(Play(y, moves))
    ensures AnsweredIn(Play(y, moves).supervisor.replies, id, output, marked)
    decreases |moves|
  {
    var m := moves[0];
    var x := Advance(y, m);
    AdvanceIsSafe(y, m);
    PartsOfSafe(y);
    if Ended(x) { EndedForGood(x, moves[1..]); }
    if m.LauncherFinishes? && m.id == id && m.output == output && IsCancelled(y.supervisor, id) == marked {
      FinishIsAnswered(y.supervisor, id, output, m.io);
      PlayGrows(x, moves[1..]);
      hide Safe, Step, AnsweredIn;
      AnswerStays(x.supervisor.replies, Play(x, moves[1..]).supervisor.replies, id, output, marked);
    } else {
      hide Safe, Possible, Advance, AnsweredIn, Ended, IsCancelled;
      LauncherIsAnswered(x, moves[1..], id, output, marked);
    }
  }

  /** As long as both sides run, every reply delivered has settled the promise it names. */
  ghost predicate DeliveredSettle(y: System) {
    !Ended(y) ==> forall k :: 0 <= k < y.delivered && k < |y.supervisor.replies| ==>
      SettledBy(y.client, y.supervisor.replies[k])
  }

  predicate SettledBy(c: Client, reply: Reply) {
    reply.id in c.settled && c.settled[reply.id] == Replied(reply.body)
  }

  lemma SettledByStays(c: Client, e: ClientEvent, reply: Reply)
    requires ClientInvariant(c) && IdLeft(c, e) && SettledBy(c, reply)
    ensures SettledBy(ClientStep(c, e), reply)
  {
    StepKeepsSettled(c, e, reply.id);
    hide ClientStep, ClientInvariant;
  }

  /** The next reply names a promise that is still pending. */
  lemma NextReplyIsAwaited(y: System)
    requires Safe(y) && !Ended(y) && y.delivered < |y.supervisor.replies|
    ensures y.supervisor.replies[y.delivered].id in y.client.pending
  {
    hide *;
    var reply := y.supervisor.replies[y.delivered];
    PartsOfSafe(y);
    PlacesOf(y);
    IdsHead(y.supervisor.replies, y.delivered);
    OpenOnBothSides(y);
    TakeOne(y.client.pending.Keys, reply.id,
        AskIds(y.client.sent[y.consumed..]) + multiset(y.supervisor.active.Keys),
        Ids(y.supervisor.replies[y.delivered + 1..]));
  }

  lemma OpenOnBothSides(y: System)
    ensures !Ended(y) <==> !y.client.closed && y.supervisor.status != Broken
  {
  }

  lemma ReplySettles(c: Client, reply: Reply)
    requires !c.closed && reply.id in c.pending
    ensures SettledBy(ReceiveStep(c, reply), reply)
  {
  }

  lemma DeliveryKeepsSettled(y: System)
    requires Safe(y) && DeliveredSettle(y) && !Ended(y) && y.delivered < |y.supervisor.replies|
    ensures DeliveredSettle(y.(client := ClientStep(y.client, Receive(y.supervisor.replies[y.delivered])),
                               delivered := y.delivered + 1))
  {
    hide Safe, SettledBy, ReceiveStep, ClientInvariant, Ended;
    var reply := y.supervisor.replies[y.delivered];
    PartsOfSafe(y);
    NextReplyIsAwaited(y);
    OpenOnBothSides(y);
    ReplySettles(y.client, reply);
    forall k | 0 <= k < y.delivered
      ensures SettledBy(ClientStep(y.client, Receive(reply)), y.supervisor.replies[k])
    {
      SettledByStays(y.client, Receive(reply), y.supervisor.replies[k]);
    }
  }

  lemma MoveKeepsSettled(y: System, m: Move)
    requires Safe(y) && Possible(y, m) && DeliveredSettle(y)
    ensures DeliveredSettle(Advance(y, m))
  {
    PartsOfSafe(y);
    hide Safe, ClientInvariant, Invariant, SettledBy, Step, ClientStep;
    if Ended(y) {
      EndedStays(y, m);
    } else if m.ReplyArrives? {
      DeliveryKeepsSettled(y);
    } else if m.ClientMoves? {
      forall k | 0 <= k < y.delivered
        ensures SettledBy(ClientStep(y.client, m.event), y.supervisor.replies[k])
      {
        SettledByStays(y.client, m.event, y.supervisor.replies[k]);
      }
    } else {
      AdvanceGrows(y, m);
    }
  }

  lemma {:induction false} RunKeepsSettled(y: System, moves: seq<Move>)
    requires Safe(y) && DeliveredSettle(y)
    ensures DeliveredSettle(Play(y, moves))
    decreases |moves|
  {
    if moves != [] && InBounds(y) && Possible(y, moves[0]) {
      MoveKeepsSettled(y, moves[0]);
      AdvanceIsSafe(y, moves[0]);
      hide Safe, DeliveredSettle, Advance, Possible;
      RunKeepsSettled(Advance(y, moves[0]), moves[1..]);
    }
  }

  /** Once every reply is delivered, what a launcher left has settled its promise. */
  lemma LauncherSettles(limit: Capacity, moves: seq<Move>, id: u64, output: Output, marked: bool)
    requires LauncherLeft(Start(limit), moves, id, output, marked)
    requires var y := Play(Start(limit), moves); !Ended(y) && y.delivered == |y.supervisor.replies|
    ensures var c := Play(Start(limit), moves).client;
      id in c.settled && c.settled[id].Replied?
      && if marked then c.settled[id].body == Failed(Cancelled) else Answers(output, c.settled[id].body)
  {
    var y := Play(Start(limit), moves);
    StartIsSafe(limit);
    assert DeliveredSettle(Start(limit));
    hide Safe, Start, Play, LauncherLeft, Answers, Ended;
    RunKeepsSettled(Start(limit), moves);
    LauncherIsAnswered(Start(limit), moves, id, output, marked);
    var k :| 0 <= k < |y.supervisor.replies| && y.supervisor.replies[k].id == id
          && if marked then y.supervisor.replies[k].body == Failed(Cancelled)
             else Answers(output, y.supervisor.replies[k].body);
    assert SettledBy(y.client, y.supervisor.replies[k]);
  }

  /** A job that was never aborted is not marked when its launcher leaves, while input lasts. */
  lemma {:induction false} UnabortedIsUnmarked(y: System, moves: seq<Move>, id: u64, output: Output, marked: bool)
    requires Safe(y) && LauncherLeft(y, moves, id, output, marked)
    requires !Play(y, moves).supervisor.eof && id !in Play(y, moves).client.aborted
    ensures LauncherLeft(y, moves, id, output, false)
    decreases |moves|
  {
    var m := moves[0];
    var x := Advance(y, m);
    PartsOfSafe(y);
    PlayGrows(y, moves);
    AdvanceIsSafe(y, m);
    hide Safe, Possible, Advance;
    if m.LauncherFinishes? && m.id == id && m.output == output && IsCancelled(y.supervisor, id) == marked {
      assert !IsCancelled(y.supervisor, id);
    } else {
      UnabortedIsUnmarked(x, moves[1..], id, output, marked);
    }
  }

  /**
   End to end: once every reply has been delivered, a request that nobody aborted and whose
   launcher exited with a result that fits has settled with that very result, and with the
   error its launcher left otherwise.
   */
  lemma SettledAsLaunched(limit: Capacity, moves: seq<Move>, id: u64, output: Output, marked: bool)
    requires LauncherLeft(Start(limit), moves, id, output, marked)
    requires var y := Play(Start(limit), moves);
      && !y.client.closed && y.supervisor.status != Broken && !y.supervisor.eof
      && y.delivered == |y.supervisor.replies| && id !in y.client.aborted
    ensures var c := Play(Start(limit), moves).client;
      && id in c.settled && c.settled[id].Replied? && Answers(output, c.settled[id].body)
      && (output.Exited? && output.result.Success? && output.envelopeFits ==>
            c.settled[id] == Replied(Done(output.result.value)))
  {
    StartIsSafe(limit);
    hide Safe, Start, Play, LauncherLeft;
    UnabortedIsUnmarked(Start(limit), moves, id, output, marked);
    LauncherSettles(limit, moves, id, output, false);
  }

  /** And a request whose job had been marked when its launcher left has settled as cancelled, whatever that left. */
  lemma SettledCancelled(limit: Capacity, moves: seq<Move>, id: u64, output: Output)
    requires LauncherLeft(Start(limit), moves, id, output, true)
    requires var y := Play(Start(limit), moves);
      !y.client.closed && y.supervisor.status != Broken && y.delivered == |y.supervisor.replies|
    ensures var c := Play(Start(limit), moves).client;
      id in c.settled && c.settled[id] == Replied(Failed(Cancelled))
  {
    hide Start, Play, LauncherLeft, Answers;
    LauncherSettles(limit, moves, id, output, true);
  }

  // ------------------------------------------------------ an abort reaches its job

  predicate CancelAt(sent: seq<Request>, i: nat, id: u64) {
    i < |sent| && sent[i].kind == Cancel(Some(id))
  }

  /** A job whose cancel has arrived is marked. */
  ghost predicate CancelsTaken(y: System) {
    forall i, id :: 0 <= i < y.consumed && CancelAt(y.client.sent, i, id) ==>
      (id in y.supervisor.active ==> IsCancelled(y.supervisor, id))
  }

  ghost predicate Told(y: System) {
    AbortsTold(y.client) && CancelsTaken(y)
  }

  /** A step unmarks no job, and marks the one that a cancel names. */
  lemma StepTakesCancel(s: State, e: Event, id: u64)
    requires Invariant(s) && s.status == Running && s.shutdownId.None? && Enabled(s, e) && id in Step(s, e).active
    requires e.Incoming? && IsAsk(e.request) ==> e.request.id != id
    requires e.Incoming? ==> IsAsk(e.request) || (e.request.kind.Cancel? && e.request.kind.target.Some?)
    ensures IsCancelled(s, id) || (e.Incoming? && e.request.kind == Cancel(Some(id))) ==> IsCancelled(Step(s, e), id)
    ensures id in s.active
  {
    if IsCancelled(s, id) && !(e.Finished? && e.id == id) {
      StepKeepsMark(s, e, id);
    }
    StepTracesJobs(s, e);
    hide Conserved, StartJob;
  }

  lemma CancelComesLater(c: Client, i: nat, at: nat, id: u64)
    requires ClientInvariant(c) && AbortsTold(c)
    requires i < at < |c.sent| && c.sent[i].kind == Cancel(Some(id))
    ensures c.sent[at].id != id
  {
  }

  lemma SupervisorTakesCancels(y: System, e: Event, consumed: nat)
    requires Safe(y) && Told(y) && y.supervisor.status == Running && Enabled(y.supervisor, e)
    requires e.Incoming? ==> y.consumed < |y.client.sent| && e.request == y.client.sent[y.consumed]
    requires consumed == if e.Incoming? then y.consumed + 1 else y.consumed
    ensures CancelsTaken(y.(supervisor := Step(y.supervisor, e), consumed := consumed))
  {
    hide *;
    forall i, id | 0 <= i < consumed && CancelAt(y.client.sent, i, id) && id in Step(y.supervisor, e).active
      ensures IsCancelled(Step(y.supervisor, e), id)
    {
      OneCancelTaken(y, e, i, id);
    }
    TakenMeans(y.(supervisor := Step(y.supervisor, e), consumed := consumed));
  }

  lemma TakenMeans(y: System)
    ensures CancelsTaken(y)
       <==> forall i, id :: 0 <= i < y.consumed && CancelAt(y.client.sent, i, id) ==>
              (id in y.supervisor.active ==> IsCancelled(y.supervisor, id))
  {
    hide CancelAt, IsCancelled;
  }

  lemma OneCancelTaken(y: System, e: Event, i: nat, id: u64)
    requires Safe(y) && Told(y) && y.supervisor.status == Running && Enabled(y.supervisor, e)
    requires e.Incoming? ==> y.consumed < |y.client.sent| && e.request == y.client.sent[y.consumed]
    requires i < y.consumed || (e.Incoming? && i == y.consumed)
    requires CancelAt(y.client.sent, i, id) && id in Step(y.supervisor, e).active
    ensures IsCancelled(Step(y.supervisor, e), id)
  {
    PartsOfSafe(y);
    TakenMeans(y);
    if e.Incoming? {
      SentIsAttributed(y.client, y.consumed);
      if i < y.consumed {
        CancelComesLater(y.client, i, y.consumed, id);
      }
    }
    hide Safe, Step, Invariant, ClientInvariant, AbortsTold, IsCancelled, Enabled, CancelsTaken;
    StepTakesCancel(y.supervisor, e, id);
  }

  lemma ClientKeepsTold(y: System, e: ClientEvent, delivered: nat)
    requires InBounds(y) && ClientInvariant(y.client) && Told(y) && Proper(e) && IdLeft(y.client, e)
    ensures Told(y.(client := ClientStep(y.client, e), delivered := delivered))
  {
    ClientStepKeepsAborts(y.client, e);
    SentStays(y.client, e);
    hide ClientStep, AbortsTold, ClientInvariant, IsCancelled;
    TakenMeans(y);
    var z := y.(client := ClientStep(y.client, e), delivered := delivered);
    assert forall i, id :: 0 <= i < y.consumed && CancelAt(z.client.sent, i, id) ==> CancelAt(y.client.sent, i, id);
    TakenMeans(z);
  }

  lemma SentStays(c: Client, e: ClientEvent)
    ensures c.sent <= ClientStep(c, e).sent
  {
  }

  lemma AdvanceKeepsTold(y: System, m: Move)
    requires Safe(y) && Told(y) && Possible(y, m)
    ensures Told(Advance(y, m))
  {
    PartsOfSafe(y);
    hide Safe, Step, ClientStep, ClientInvariant, Invariant, AbortsTold, CancelsTaken, EachInOnePlace;
    match m {
      case ClientMoves(e) => ClientKeepsTold(y, e, y.delivered);
      case ReplyArrives => ClientKeepsTold(y, Receive(y.supervisor.replies[y.delivered]), y.delivered + 1);
      case RequestArrives(launch, io) =>
        SupervisorTakesCancels(y, Incoming(y.client.sent[y.consumed], launch, io), y.consumed + 1);
      case LauncherFinishes(id, output, io) => SupervisorTakesCancels(y, Finished(id, output, io), y.consumed);
      case InputEnds(io) => SupervisorTakesCancels(y, InputEnd(io), y.consumed);
    }
  }

  lemma {:induction false} RunKeepsTold(y: System, moves: seq<Move>)
    requires Safe(y) && Told(y)
    ensures Told(Play(y, moves))
    decreases |moves|
  {
    if moves != [] && InBounds(y) && Possible(y, moves[0]) {
      AdvanceKeepsTold(y, moves[0]);
      AdvanceIsSafe(y, moves[0]);
      hide Safe, Told, Advance, Possible;
      RunKeepsTold(Advance(y, moves[0]), moves[1..]);
    }
  }

  /**
   In every reachable state: while the client has not closed, an aborted request has one
   cancel among the messages sent, behind the request itself; and once that has arrived,
   the job is marked if it is still running.
   */
  lemma AbortReachesItsJob(limit: Capacity, moves: seq<Move>, id: u64)
    requires var y := Play(Start(limit), moves); !y.client.closed && id in y.client.aborted
    ensures var y := Play(Start(limit), moves);
      exists i :: 0 <= i < |y.client.sent|
        && y.client.sent[i].kind == Cancel(Some(id)) && id < y.client.sent[i].id
        && (forall j :: 0 <= j < |y.client.sent| && j != i ==> y.client.sent[j].kind != Cancel(Some(id)))
        && (i < y.consumed && id in y.supervisor.active ==> IsCancelled(y.supervisor, id))
  {
    var y := Play(Start(limit), moves);
    StartIsSafe(limit);
    assert Told(Start(limit));
    hide Safe, Start, Play, IsCancelled;
    RunKeepsTold(Start(limit), moves);
    var i :| 0 <= i < |y.client.sent| && y.client.sent[i].kind == Cancel(Some(id));
    TakenMeans(y);
    assert CancelAt(y.client.sent, i, id);
  }

  // ------------------------------------------------------- a request is served

  predicate BothOpen(y: System) {
    && !y.client.closed && y.client.nextId < MAX_ID
    && y.supervisor.status == Running && !y.supervisor.eof && y.supervisor.shutdownId.None?
    && y.consumed == |y.client.sent| && y.delivered == |y.supervisor.replies|
  }

  lemma AskGoesOut(y: System, kind: Kind, signal: bool)
    requires Safe(y) && BothOpen(y) && (kind.Health? || kind.Run?)
    ensures var m, id := ClientMoves(Ask(kind, signal, true)), y.client.nextId;
      && Possible(y, m) && Advance(y, m).supervisor == y.supervisor
      && Advance(y, m).consumed == y.consumed && Advance(y, m).delivered == y.delivered
      && Advance(y, m).client.sent == y.client.sent + [Request(id, kind)]
      && !Advance(y, m).client.closed && id in Advance(y, m).client.pending
  {
    PartsOfSafe(y);
    AskSendsItsRequest(y.client, kind, signal, true);
    hide Safe, ClientInvariant, AskStep;
  }

  /** The job of an id that is pending nowhere is not running. */
  lemma NewIdIsFree(y: System)
    requires Safe(y)
    ensures y.client.nextId !in y.supervisor.active
  {
    if y.client.nextId in y.supervisor.active {
      JobIdIsOld(y, y.client.nextId);
    }
  }

  lemma JobIdIsOld(y: System, id: u64)
    requires Safe(y) && id in y.supervisor.active
    ensures id < y.client.nextId
  {
    PartsOfSafe(y);
    hide Safe, Invariant;
    assert Request(id, Run(y.supervisor.active[id].spec)) in y.client.sent;
  }

  lemma JobStarts(s: State, id: u64, spec: Payload, launch: Launch, io: Io)
    requires Invariant(s) && s.status == Running && s.shutdownId.None? && !s.eof && io.reply
    requires id !in s.active && |s.active| < MAX_ACTIVE_JOBS && StartJob(s, spec, launch).Success?
    ensures var t := Step(s, Incoming(Request(id, Run(spec)), launch, io));
      && t.status == Running && t.shutdownId.None? && t.replies == s.replies && id in t.active
      && t.active[id].spec == spec && !t.active[id].cancelled
  {
    RunRequestOutcome(s, id, spec, launch, io);
    StartedUncancelled(s, spec, launch);
    RunningAfterRun(s, id, spec, launch, io);
    hide Step, StartJob, Conserved;
  }

  lemma RunningAfterRun(s: State, id: u64, spec: Payload, launch: Launch, io: Io)
    requires s.status == Running && s.shutdownId.None? && !s.eof && io.reply
    ensures Step(s, Incoming(Request(id, Run(spec)), launch, io)).status == Running
    ensures Step(s, Incoming(Request(id, Run(spec)), launch, io)).shutdownId.None?
  {
    hide StartJob;
  }

  /**
   From every reachable state in which both sides run and nothing is under way: a request
   that can start and whose launcher reports a result settles with it, four moves later.
   */
  lemma RequestIsServed(y: System, spec: Payload, launch: Launch, text: Payload) returns (moves: seq<Move>)
    requires Safe(y) && BothOpen(y) && StartErrorsAreOwn(launch)
    requires |y.supervisor.active| < MAX_ACTIVE_JOBS && StartJob(y.supervisor, spec, launch).Success?
    ensures |moves| == 4
    ensures var c := Play(y, moves).client;
      y.client.nextId in c.settled && c.settled[y.client.nextId] == Replied(Done(JobResult(spec, text)))
  {
    var id, io := y.client.nextId, Io(true, true);
    var output := Exited(Success(JobResult(spec, text)), true);
    var ask, arrive := ClientMoves(Ask(Run(spec), false, true)), RequestArrives(launch, io);
    var finish := LauncherFinishes(id, output, io);
    moves := [ask, arrive, finish, ReplyArrives];
    PartsOfSafe(y);
    AskGoesOut(y, Run(spec), false);
    NewIdIsFree(y);
    JobStarts(y.supervisor, id, spec, launch, io);
    hide Safe, Step, ClientStep, StartJob, Invariant, ClientInvariant, IsCancelled, StartErrorsAreOwn, Play;
    var a := Advance(y, ask);
    var b := Advance(a, arrive);
    FinishedJobIsAnswered(b.supervisor, id, output, io);
    var c := Advance(b, finish);
    var reply := Reply(id, Done(JobResult(spec, text)));
    assert c.supervisor.replies[c.delivered] == reply;
    ReplySettles(c.client, reply);
    FourMoves(y, moves);
  }

  lemma FourMoves(y: System, moves: seq<Move>)
    requires |moves| == 4
    requires InBounds(y) && Possible(y, moves[0])
    requires var a := Advance(y, moves[0]); InBounds(a) && Possible(a, moves[1])
    requires var b := Advance(Advance(y, moves[0]), moves[1]); InBounds(b) && Possible(b, moves[2])
    requires var c := Advance(Advance(Advance(y, moves[0]), moves[1]), moves[2]); InBounds(c) && Possible(c, moves[3])
    ensures Play(y, moves) == Advance(Advance(Advance(Advance(y, moves[0]), moves[1]), moves[2]), moves[3])
  {
    hide Possible, Advance, InBounds, Play;
    var a := Advance(y, moves[0]);
    var b := Advance(a, moves[1]);
    var c := Advance(b, moves[2]);
    assert moves == [moves[0]] + ([moves[1]] + ([moves[2]] + ([moves[3]] + [])));
    PlayOne(y, moves[0], [moves[1]] + ([moves[2]] + ([moves[3]] + [])));
    PlayOne(a, moves[1], [moves[2]] + ([moves[3]] + []));
    PlayOne(b, moves[2], [moves[3]] + []);
    PlayOne(c, moves[3], []);
    PlayNone(Advance(c, moves[3]));
  }

  lemma PlayOne(y: System, m: Move, more: seq<Move>)
    requires InBounds(y) && Possible(y, m)
    ensures Play(y, [m] + more) == Play(Advance(y, m), more)
  {
    assert ([m] + more)[0] == m && ([m] + more)[1..] == more;
    hide Possible, Advance, InBounds;
  }

  lemma PlayNone(y: System)
    ensures Play(y, []) == y
  {
  }
}
