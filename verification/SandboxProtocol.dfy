/**
 `Sandbox` of src/api/sandbox.ts as a state machine: bounded first-come-first-served
 admission, aborts of queued jobs, close after drain, and generations of supervisors that
 are replaced when they fail. Every promise settlement, abort and timer is an event that
 may happen at any moment at which it can happen at all.
 */
module SandboxProtocol {
  import opened Wrappers

  datatype Overload = Wait | Reject

  datatype Capacity = Capacity(maxInFlight: nat, maxQueue: nat, overload: Overload)

  /** What the constructor accepts. */
  predicate ValidCapacity(c: Capacity) {
    0 < c.maxInFlight <= 64 && c.maxQueue <= 10_000
  }

  /** A supervisor process: its startup promise, and whether its `close` was called and has settled. */
  datatype Status = Starting | Failed | Up
  datatype Generation = Generation(status: Status, asked: bool, closed: bool)

  /** Why a job is over. `Lost` names the supervisor that failed underneath it. */
  datatype Outcome = Ordinary | Lost(gen: nat)

  /** Where `execute` is for a started job. */
  datatype Phase =
    | Preparing
    | Waiting(gen: nat)
    | Requesting(gen: nat)
    | Retiring(gen: nat)
    | Closing(gen: nat)
    | Done(outcome: Outcome)

  /** `close`: not called; called; waiting for the supervisor to be up; for its close; settled. */
  datatype Closer = Open | Requested | Awaiting(requester: Option<nat>) | Stopping(gen: nat) | Closed

  /** Jobs are numbered in the order of admission. */
  datatype Line = Line(queue: seq<nat>, started: seq<nat>, withdrawn: set<nat>, admitted: nat, settled: multiset<nat>)

  datatype Fleet = Fleet(gens: seq<Generation>, current: Option<nat>, lost: set<nat>)

  datatype State = State(line: Line, jobs: map<nat, Phase>, fleet: Fleet, closer: Closer, closeActions: nat)

  const INITIAL: State := State(Line([], [], {}, 0, multiset{}), map[], Fleet([], None, {}), Open, 0)

  // ------------------------------------------------------------------ queue

  function StartNext(s: State): State
    requires s.line.queue != []
  {
    var id := s.line.queue[0];
    s.(line := s.line.(queue := s.line.queue[1..], started := s.line.started + [id]), jobs := s.jobs[id := Preparing])
  }

  function Pump(c: Capacity, s: State): State
    decreases |s.line.queue|
  {
    if |s.jobs| < c.maxInFlight && s.line.queue != [] then Pump(c, StartNext(s)) else s
  }

  function FinishCloseIfIdle(s: State): State {
    if s.closer != Requested || s.jobs != map[] || s.line.queue != [] then s
    else s.(closer := Awaiting(s.fleet.current), closeActions := s.closeActions + 1)
  }

  datatype RunResult = Admitted(id: nat) | Unavailable | Cancelled | CapacityExceeded

  function Judge(c: Capacity, s: State, aborted: bool): RunResult {
    if s.closer != Open then Unavailable
    else if aborted then Cancelled
    else if |s.jobs| >= c.maxInFlight && (c.overload == Reject || |s.line.queue| >= c.maxQueue) then CapacityExceeded
    else Admitted(s.line.admitted)
  }

  function Enqueue(s: State): State {
    s.(line := s.line.(queue := s.line.queue + [s.line.admitted], admitted := s.line.admitted + 1))
  }

  function Run(c: Capacity, s: State, aborted: bool): State {
    if Judge(c, s, aborted).Admitted? then Pump(c, Enqueue(s)) else s
  }

  function IndexOf(queue: seq<nat>, id: nat): (i: nat)
    ensures i <= |queue| && (i < |queue| ==> queue[i] == id)
    ensures i == |queue| <==> id !in queue
  {
    if queue == [] || queue[0] == id then 0 else 1 + IndexOf(queue[1..], id)
  }

  function Withdraw(line: Line, i: nat): Line
    requires i < |line.queue|
  {
    line.(queue := RemoveAt(line.queue, i),
          withdrawn := line.withdrawn + {line.queue[i]},
          settled := line.settled + multiset{line.queue[i]})
  }

  function Abort(s: State, id: nat): State {
    var i := IndexOf(s.line.queue, id);
    if i == |s.line.queue| then s else FinishCloseIfIdle(s.(line := Withdraw(s.line, i)))
  }

  function Close(s: State): State {
    if s.closer != Open then s else FinishCloseIfIdle(s.(closer := Requested))
  }

  function Leave(s: State, id: nat): State {
    s.(jobs := s.jobs - {id}, line := s.line.(settled := s.line.settled + multiset{id}))
  }

  /** The `finally` of `execute`, and the settlement right after it. */
  function Finish(c: Capacity, s: State, id: nat): State {
    FinishCloseIfIdle(Pump(c, Leave(s, id)))
  }

  // ------------------------------------------------------------ generations

  function GetRequester(f: Fleet): (Fleet, nat) {
    match f.current
    case Some(gen) => (f, gen)
    case None => (f.(gens := f.gens + [Generation(Starting, false, false)], current := Some(|f.gens|)), |f.gens|)
  }

  function Forget(f: Fleet, gen: nat): Fleet {
    if f.current == Some(gen) then f.(current := None) else f
  }

  function SettleStartup(f: Fleet, gen: nat, ok: bool): Fleet
    requires gen < |f.gens|
  {
    if ok then f.(gens := f.gens[gen := f.gens[gen].(status := Up)])
    else Forget(f.(gens := f.gens[gen := f.gens[gen].(status := Failed)]), gen)
  }

  function Retire(f: Fleet, gen: nat): Fleet {
    Forget(f.(lost := f.lost + {gen}), gen)
  }

  function AskToClose(f: Fleet, gen: nat): Fleet
    requires gen < |f.gens|
  {
    f.(gens := f.gens[gen := f.gens[gen].(asked := true)])
  }

  function SettleClose(f: Fleet, gen: nat): Fleet
    requires gen < |f.gens|
  {
    f.(gens := f.gens[gen := f.gens[gen].(closed := true)])
  }

  function Become(s: State, id: nat, phase: Phase): State {
    s.(jobs := s.jobs[id := phase])
  }

  // ----------------------------------------------------------------- events

  datatype Event =
    | RunCalled(aborted: bool)
    | AbortSignalled(id: nat)
    | CloseCalled
    | WorkspaceReady(id: nat)
    | WorkspaceFailed(id: nat)
    | StartupSettled(gen: nat, ok: bool)
    | StartupSeen(id: nat)
    | StoppedWaiting(id: nat)
    | Answered(id: nat)
    | SupervisorLost(id: nat)
    | RetirementGoesOn(id: nat)
    | CloseSettled(gen: nat)
    | CloseSeen(id: nat)
    | Finished(id: nat)
    | CloserGoesOn

  predicate InPhase(s: State, id: nat, phase: Phase) {
    id in s.jobs && s.jobs[id] == phase
  }

  predicate Known(f: Fleet, gen: nat) {
    gen < |f.gens|
  }

  /** A started job's own progress. */
  function Progress(s: State, id: nat, e: Event): State
    requires id in s.jobs
  {
    var phase, f := s.jobs[id], s.fleet;
    match e
    case WorkspaceReady(_) =>
      if phase != Preparing then s
      else var (fleet, gen) := GetRequester(f); Become(s.(fleet := fleet), id, Waiting(gen))
    case WorkspaceFailed(_) => if phase != Preparing then s else Become(s, id, Done(Ordinary))
    case StartupSeen(_) =>
      if !phase.Waiting? || !Known(f, phase.gen) then s
      else if f.gens[phase.gen].status == Up then Become(s, id, Requesting(phase.gen))
      else if f.gens[phase.gen].status == Failed then Become(s, id, Done(Ordinary))
      else s
    case StoppedWaiting(_) => if !phase.Waiting? then s else Become(s, id, Done(Ordinary))
    case Answered(_) => if !phase.Requesting? then s else Become(s, id, Done(Ordinary))
    case SupervisorLost(_) =>
      if !phase.Requesting? then s else Become(s.(fleet := Retire(f, phase.gen)), id, Retiring(phase.gen))
    case RetirementGoesOn(_) =>
      if !phase.Retiring? || !Known(f, phase.gen) then s
      else Become(s.(fleet := AskToClose(f, phase.gen)), id, Closing(phase.gen))
    case CloseSeen(_) =>
      if !phase.Closing? || !Known(f, phase.gen) || !f.gens[phase.gen].closed then s
      else Become(s, id, Done(Lost(phase.gen)))
    case _ => s
  }

  /** The asynchronous part of `finishCloseIfIdle`. */
  function StopSupervisor(s: State): State {
    var f := s.fleet;
    match s.closer
    case Awaiting(None) => s.(closer := Closed)
    case Awaiting(Some(gen)) =>
      if !Known(f, gen) || f.gens[gen].status == Starting then s
      else if f.gens[gen].status == Failed then s.(closer := Closed)
      else s.(fleet := AskToClose(f, gen), closer := Stopping(gen))
    case Stopping(gen) => if Known(f, gen) && f.gens[gen].closed then s.(closer := Closed) else s
    case _ => s
  }

  predicate OfJob(e: Event) {
    || e.WorkspaceReady? || e.WorkspaceFailed? || e.StartupSeen? || e.StoppedWaiting? || e.Answered?
    || e.SupervisorLost? || e.RetirementGoesOn? || e.CloseSeen?
  }

  /** An event that cannot happen changes nothing. */
  function Step(c: Capacity, s: State, e: Event): State {
    if OfJob(e) then
      if e.id in s.jobs then Progress(s, e.id, e) else s
    else
      match e
      case RunCalled(aborted) => Run(c, s, aborted)
      case AbortSignalled(id) => Abort(s, id)
      case CloseCalled => Close(s)
      case StartupSettled(gen, ok) =>
        if Known(s.fleet, gen) && s.fleet.gens[gen].status == Starting
        then s.(fleet := SettleStartup(s.fleet, gen, ok)) else s
      case CloseSettled(gen) =>
        if Known(s.fleet, gen) && s.fleet.gens[gen].asked then s.(fleet := SettleClose(s.fleet, gen)) else s
      case Finished(id) => if id in s.jobs && s.jobs[id].Done? then Finish(c, s, id) else s
      case CloserGoesOn => StopSupervisor(s)
      case _ => s
  }

  function Play(c: Capacity, s: State, events: seq<Event>): State
    decreases |events|
  {
    if events == [] then s else Play(c, Step(c, s, events[0]), events[1..])
  }
}
