/**
 The protocol loop of native/src/supervisor.rs as a state machine over its events, and
 what every run of it keeps: reply accounting, reservation conservation, cancellation
 that hits only its target, and the drain after a shutdown.
 */
module SupervisorProtocol {
  import opened Wrappers
  import opened UInt64
  import opened Scheduling
  import opened Resources

  const MAX_ACTIVE_JOBS := 64
  const JOB_OVERHEAD := Capacity(16 * 1024 * 1024, 25, 3)

  /** JSON text that the supervisor passes through. */
  type Payload = string

  datatype Code =
    | ProtocolError | CgroupError | CapacityExceeded | Cancelled | PolicyViolation
    | CgroupDelegationRequired | IsolationUnavailable | InternalError

  /** `Cancel(None)` is a cancel whose payload does not parse. */
  datatype Kind = Health | Run(spec: Payload) | Cancel(target: Option<u64>) | Shutdown | Unsupported

  datatype Request = Request(id: u64, kind: Kind)

  /** A launcher's result names the specification it was launched with. */
  datatype JobResult = JobResult(spec: Payload, text: Payload)

  datatype Body = Ready | Done(result: JobResult) | Closed | Failed(code: Code)

  datatype Reply = Reply(id: u64, body: Body)

  /** What the launcher left: its parsed stdout, its structured error, or no output at all. */
  datatype Output =
    | Exited(result: Result<JobResult, Code>, envelopeFits: bool)
    | LauncherFailed(code: Code)
    | NotAwaited

  /** The parsed and bounds-checked part of a run payload that admission looks at. */
  datatype JobLimits = JobLimits(resources: Capacity, workspaceBytes: Option<u64>)

  /** Everything `start_job` learns from outside: the payload, cgroups, disk and spawn. */
  datatype Launch = Launch(
    limits: Result<JobLimits, Code>,
    headroom: Result<Capacity, Code>,
    ownUsage: Capacity,
    available: Result<u64, Code>,
    spawn: Result<(), Code>)

  /** Whether the reply, and the closing reply if one is due, can be encoded and written. */
  datatype Io = Io(reply: bool, close: bool)

  datatype Event =
    | Incoming(request: Request, launch: Launch, io: Io)
    | InputEnd(io: Io)
    | BadFrame
    | Finished(id: u64, output: Output, io: Io)

  datatype Job = Job(spec: Payload, cancelled: bool, reserved: Capacity, workspace: Option<u64>)

  /** `Broken` is any loop exit through an error: a failed write or an undecodable frame. */
  datatype Status = Running | ShutDown | EndOfInput | Broken

  datatype State = State(
    limit: Capacity,
    reserved: Capacity,
    workspaceReserved: u64,
    active: map<u64, Job>,
    shutdownId: Option<u64>,
    eof: bool,
    replies: seq<Reply>,
    status: Status)

  function Initial(limit: Capacity): State {
    State(limit, ZERO, 0, map[], None, false, [], Running)
  }

  // ------------------------------------------------------------------- steps

  function Write(s: State, reply: Reply, ok: bool): State {
    if ok then s.(replies := s.replies + [reply]) else s.(status := Broken)
  }

  function CancelAll(active: map<u64, Job>): map<u64, Job> {
    map id | id in active :: active[id].(cancelled := true)
  }

  /** The new total of reserved disk bytes, `None` when 80% of the free space is exceeded. */
  function ReserveWorkspace(reserved: u64, available: u64, bytes: u64): (total: Option<u64>)
    ensures total.Some? ==> total.value == reserved + bytes && 100 * total.value <= 80 * available
    ensures total.None? <==> reserved + bytes > SaturatingMul(available, 80) / 100
  {
    match CheckedAdd(reserved, bytes)
    case None => None
    case Some(next) => if next > SaturatingMul(available, 80) / 100 then None else Some(next)
  }

  /** `fetch_sub` wraps below zero. */
  function WrappingSub(a: u64, b: u64): u64 {
    if a >= b then a - b else a - b + U64_MAX + 1
  }

  /** A started job with the two totals after its reservations. */
  datatype Started = Started(job: Job, reserved: Capacity, workspaceReserved: u64)

  function StartJob(s: State, spec: Payload, launch: Launch): Result<Started, Code> {
    match launch.limits
    case Failure(code) => Failure(code)
    case Success(limits) =>
      match limits.resources.CheckedAdd(JOB_OVERHEAD)
      case None => Failure(CapacityExceeded)
      case Some(request) =>
        match launch.headroom
        case Failure(code) => Failure(code)
        case Success(headroom) =>
          match Reserve(s.reserved, request, s.limit, headroom, launch.ownUsage)
          case None => Failure(CapacityExceeded)
          case Some(reserved) =>
            match StartWorkspace(s.workspaceReserved, limits.workspaceBytes, launch.available)
            case Failure(code) => Failure(code)
            case Success(workspaceReserved) =>
              match launch.spawn
              case Failure(code) => Failure(code)
              case Success(_) =>
                Success(Started(Job(spec, false, request, limits.workspaceBytes), reserved, workspaceReserved))
  }

  function StartWorkspace(reserved: u64, bytes: Option<u64>, available: Result<u64, Code>): Result<u64, Code> {
    match bytes
    case None => Success(reserved)
    case Some(requested) =>
      match available
      case Failure(code) => Failure(code)
      case Success(free) =>
        match ReserveWorkspace(reserved, free, requested)
        case None => Failure(CapacityExceeded)
        case Some(total) => Success(total)
  }

  function Insert(s: State, id: u64, started: Started): State {
    s.(active := s.active[id := started.job],
       reserved := started.reserved,
       workspaceReserved := started.workspaceReserved)
  }

  function HandleRun(s: State, id: u64, spec: Payload, launch: Launch, ok: bool): State {
    if id in s.active then Write(s, Reply(id, Failed(ProtocolError)), ok)
    else if |s.active| >= MAX_ACTIVE_JOBS then Write(s, Reply(id, Failed(CapacityExceeded)), ok)
    else
      match StartJob(s, spec, launch)
      case Failure(code) => Write(s, Reply(id, Failed(code)), ok)
      case Success(started) => Insert(s, id, started)
  }

  function HandleCancel(s: State, id: u64, target: Option<u64>, ok: bool): State {
    match target
    case Some(job) =>
      if job in s.active then s.(active := s.active[job := s.active[job].(cancelled := true)]) else s
    case None =>
      if id in s.active then s else Write(s, Reply(id, Failed(ProtocolError)), ok)
  }

  function Handle(s: State, r: Request, launch: Launch, ok: bool): State {
    if s.shutdownId.Some? then Write(s, Reply(r.id, Failed(Cancelled)), ok)
    else
      match r.kind
      case Health => Write(s, Reply(r.id, Ready), ok)
      case Run(spec) => HandleRun(s, r.id, spec, launch, ok)
      case Cancel(target) => HandleCancel(s, r.id, target, ok)
      case Shutdown => s.(shutdownId := Some(r.id), active := CancelAll(s.active))
      case Unsupported => Write(s, Reply(r.id, Failed(ProtocolError)), ok)
  }

  function ReplyBody(job: Job, output: Output): Body {
    if job.cancelled then Failed(Cancelled)
    else
      match output
      case Exited(Success(result), fits) => if fits then Done(result) else Failed(ProtocolError)
      case Exited(Failure(code), _) => Failed(code)
      case LauncherFailed(code) => Failed(code)
      case NotAwaited => Failed(InternalError)
  }

  /** Removing the job drops both of its reservations. */
  function Drop(s: State, id: u64): State
    requires id in s.active
  {
    var job := s.active[id];
    s.(active := s.active - {id},
       reserved := s.reserved.SaturatingSub(job.reserved),
       workspaceReserved := match job.workspace
                            case None => s.workspaceReserved
                            case Some(bytes) => WrappingSub(s.workspaceReserved, bytes))
  }

  function Finish(s: State, id: u64, output: Output, ok: bool): State {
    if id !in s.active then s
    else Write(Drop(s, id), Reply(id, ReplyBody(s.active[id], output)), ok)
  }

  /** The checks at the top of the loop. */
  function Settle(s: State, ok: bool): State {
    if s.status != Running then s
    else if s.shutdownId.Some? && s.active == map[] then
      (if ok then s.(replies := s.replies + [Reply(s.shutdownId.value, Closed)], status := ShutDown)
       else s.(status := Broken))
    else if s.eof && s.active == map[] then s.(status := EndOfInput)
    else s
  }

  /** What handling one event does before the loop checks again. */
  function Apply(s: State, e: Event): State {
    match e
    case Incoming(r, launch, io) => Handle(s, r, launch, io.reply)
    case InputEnd(io) => s.(eof := true, active := CancelAll(s.active))
    case BadFrame => s.(status := Broken)
    case Finished(id, output, io) => Finish(s, id, output, io.reply)
  }

  predicate ClosingWritten(e: Event) {
    e.BadFrame? || e.io.close
  }

  function Step(s: State, e: Event): State
    requires s.status == Running
  {
    Settle(Apply(s, e), ClosingWritten(e))
  }

  /** The reader thread stops after reporting the end of input. */
  predicate Enabled(s: State, e: Event) {
    s.eof ==> e.Finished?
  }

  /** A run handles events until the loop exits. */
  function Execute(s: State, events: seq<Event>): State
    decreases |events|
  {
    if s.status != Running || events == [] then s else Execute(Step(s, events[0]), events[1..])
  }

  predicate Feasible(s: State, events: seq<Event>)
    decreases |events|
  {
    s.status != Running || events == []
    || (Enabled(s, events[0]) && Feasible(Step(s, events[0]), events[1..]))
  }

  // -------------------------------------------------- reservation conservation

  /** Totals over the unbounded integers: memory, CPU, pids, workspace bytes. */
  datatype Load = Load(memory: int, cpu: int, pids: int, workspace: int) {
    function Plus(other: Load): Load {
      Load(memory + other.memory, cpu + other.cpu, pids + other.pids, workspace + other.workspace)
    }
  }

  function JobLoad(job: Job): Load {
    Load(job.reserved.memoryBytes, job.reserved.cpuMillis, job.reserved.pids, UnwrapOr(job.workspace, 0))
  }

  ghost function Pick(active: map<u64, Job>): u64
    requires active != map[]
    ensures Pick(active) in active
  {
    var id :| id in active; id
  }

  ghost function TotalLoad(active: map<u64, Job>): Load
    decreases |active|
  {
    if active == map[] then Load(0, 0, 0, 0)
    else JobLoad(active[Pick(active)]).Plus(TotalLoad(active - {Pick(active)}))
  }

  /** The sum does not depend on the order in which jobs are taken. */
  lemma {:induction false} TotalLoadWithout(active: map<u64, Job>, id: u64)
    requires id in active
    ensures TotalLoad(active) == JobLoad(active[id]).Plus(TotalLoad(active - {id}))
    decreases |active|
  {
    var k := Pick(active);
    if k != id {
      TotalLoadWithout(active - {k}, id);
      TotalLoadWithout(active - {id}, k);
      assert active - {k} - {id} == active - {id} - {k};
    }
  }

  lemma {:induction false} TotalLoadSame(a: map<u64, Job>, b: map<u64, Job>)
    requires a.Keys == b.Keys
    requires forall id :: id in a ==> JobLoad(a[id]) == JobLoad(b[id])
    ensures TotalLoad(a) == TotalLoad(b)
    decreases |a|
  {
    if a == map[] {
      assert b == map[];
    } else {
      var k := Pick(a);
      TotalLoadWithout(b, k);
      assert (a - {k}).Keys == a.Keys - {k} == (b - {k}).Keys;
      TotalLoadSame(a - {k}, b - {k});
    }
  }

  lemma TotalLoadInsert(active: map<u64, Job>, id: u64, job: Job)
    requires id !in active
    ensures TotalLoad(active[id := job]) == JobLoad(job).Plus(TotalLoad(active))
  {
    TotalLoadWithout(active[id := job], id);
    assert active[id := job] - {id} == active;
  }

  lemma {:induction false} TotalLoadNonNegative(active: map<u64, Job>)
    ensures var l := TotalLoad(active); l.memory >= 0 && l.cpu >= 0 && l.pids >= 0 && l.workspace >= 0
    decreases |active|
  {
    if active != map[] {
      TotalLoadNonNegative(active - {Pick(active)});
    }
  }

  /** Every reservation is owned by exactly one active job. */
  ghost predicate Conserved(s: State) {
    && TotalLoad(s.active) ==
       Load(s.reserved.memoryBytes, s.reserved.cpuMillis, s.reserved.pids, s.workspaceReserved)
    && s.reserved.FitsWithin(s.limit)
    && |s.active| <= MAX_ACTIVE_JOBS
  }

  predicate Stopping(s: State) {
    s.shutdownId.Some? || s.eof
  }

  /** Once input has ended or a shutdown is accepted, every remaining job is cancelled. */
  predicate Quiet(s: State) {
    Stopping(s) ==> forall id :: id in s.active ==> s.active[id].cancelled
  }

  /** What the checks at the top of the loop leave behind. */
  predicate LoopChecked(s: State) {
    && (s.status == Running && Stopping(s) ==> s.active != map[])
    && (s.status == ShutDown ==> s.shutdownId.Some? && s.active == map[])
    && (s.status == EndOfInput ==> s.shutdownId.None? && s.active == map[])
  }

  ghost predicate Invariant(s: State) {
    Conserved(s) && Quiet(s) && LoopChecked(s)
  }

  /** Dropping an active job gives back exactly what it holds: nothing saturates or wraps. */
  lemma DropIsExact(s: State, id: u64)
    requires Conserved(s) && id in s.active
    ensures Conserved(Drop(s, id))
    ensures IsSum(s.reserved, Drop(s, id).reserved, s.active[id].reserved)
    ensures s.workspaceReserved == Drop(s, id).workspaceReserved + UnwrapOr(s.active[id].workspace, 0)
  {
    TotalLoadWithout(s.active, id);
    TotalLoadNonNegative(s.active - {id});
    assert |s.active - {id}| <= |s.active| by {
      assert (s.active - {id}).Keys == s.active.Keys - {id};
    }
  }

  lemma StartIsConserved(s: State, id: u64, spec: Payload, launch: Launch)
    requires Conserved(s) && id !in s.active && |s.active| < MAX_ACTIVE_JOBS
    requires StartJob(s, spec, launch).Success?
    ensures Conserved(Insert(s, id, StartJob(s, spec, launch).value))
  {
    var started := StartJob(s, spec, launch).value;
    TotalLoadInsert(s.active, id, started.job);
    assert s.active[id := started.job].Keys == s.active.Keys + {id};
  }

  lemma CancelAllIsConserved(s: State)
    requires Conserved(s)
    ensures Conserved(s.(active := CancelAll(s.active)))
  {
    assert CancelAll(s.active).Keys == s.active.Keys;
    TotalLoadSame(s.active, CancelAll(s.active));
  }

  lemma HandleIsConserved(s: State, r: Request, launch: Launch, ok: bool)
    requires Conserved(s)
    ensures Conserved(Handle(s, r, launch, ok))
  {
    if s.shutdownId.None? {
      match r.kind {
        case Run(spec) =>
          if r.id !in s.active && |s.active| < MAX_ACTIVE_JOBS && StartJob(s, spec, launch).Success? {
            StartIsConserved(s, r.id, spec, launch);
          }
        case Cancel(Some(target)) =>
          if target in s.active {
            var after := s.active[target := s.active[target].(cancelled := true)];
            assert after.Keys == s.active.Keys;
            TotalLoadSame(s.active, after);
          }
        case Shutdown => CancelAllIsConserved(s);
        case _ =>
      }
    }
  }

  lemma HandleIsQuiet(s: State, r: Request, launch: Launch, ok: bool)
    requires s.status == Running && Quiet(s) && !s.eof
    ensures Quiet(Handle(s, r, launch, ok))
    ensures Handle(s, r, launch, ok).status in {Running, Broken}
  {
    hide StartJob;
  }

  lemma SettleIsChecked(s: State, ok: bool)
    requires s.status in {Running, Broken} && Quiet(s)
    ensures Quiet(Settle(s, ok)) && LoopChecked(Settle(s, ok))
  {
  }

  lemma ApplyIsConserved(s: State, e: Event)
    requires Conserved(s)
    ensures Conserved(Apply(s, e))
  {
    hide Conserved, Handle, Drop;
    match e {
      case Incoming(r, launch, io) => HandleIsConserved(s, r, launch, io.reply);
      case InputEnd(io) =>
        CancelAllIsConserved(s);
        ConservedIgnoresStatus(s.(active := CancelAll(s.active)), Apply(s, e));
      case BadFrame => ConservedIgnoresStatus(s, Apply(s, e));
      case Finished(id, output, io) =>
        if id in s.active {
          DropIsExact(s, id);
          ConservedIgnoresStatus(Drop(s, id), Apply(s, e));
        }
    }
  }

  lemma ApplyIsQuiet(s: State, e: Event)
    requires s.status == Running && Quiet(s) && Enabled(s, e)
    ensures Quiet(Apply(s, e)) && Apply(s, e).status in {Running, Broken}
  {
    if e.Incoming? {
      HandleIsQuiet(s, e.request, e.launch, e.io.reply);
    }
  }

  /** Whatever the event and its outcome, including every failing path of `start_job`. */
  lemma StepKeepsInvariant(s: State, e: Event)
    requires Invariant(s) && s.status == Running && Enabled(s, e)
    ensures Invariant(Step(s, e))
  {
    ApplyIsConserved(s, e);
    ApplyIsQuiet(s, e);
    hide Conserved, Apply, Quiet, LoopChecked, Settle;
    SettleIsChecked(Apply(s, e), ClosingWritten(e));
    SettleIsConserved(Apply(s, e), ClosingWritten(e));
  }

  lemma ConservedIgnoresStatus(s: State, t: State)
    requires Conserved(s)
    requires t.active == s.active && t.reserved == s.reserved && t.limit == s.limit
    requires t.workspaceReserved == s.workspaceReserved
    ensures Conserved(t)
  {
  }

  lemma SettleIsConserved(s: State, ok: bool)
    requires Conserved(s)
    ensures Conserved(Settle(s, ok))
  {
  }

  /** The invariant holds after every run from the start, so at every loop boundary. */
  lemma {:induction false} RunKeepsInvariant(s: State, events: seq<Event>)
    requires Invariant(s) && Feasible(s, events)
    ensures Invariant(Execute(s, events))
    decreases |events|
  {
    if s.status == Running && events != [] {
      StepKeepsInvariant(s, events[0]);
      RunKeepsInvariant(Step(s, events[0]), events[1..]);
    }
  }

  // -------------------------------------------------------- reply accounting

  function Ids(replies: seq<Reply>): multiset<u64> {
    if replies == [] then multiset{}
    else Ids(replies[..|replies| - 1]) + multiset{replies[|replies| - 1].id}
  }

  lemma IdsAppend(replies: seq<Reply>, reply: Reply)
    ensures Ids(replies + [reply]) == Ids(replies) + multiset{reply.id}
  {
    assert (replies + [reply])[..|replies|] == replies;
  }

  /** The shutdown id waits for its closing reply. */
  ghost function AwaitingClose(s: State): multiset<u64> {
    if s.status == Running && s.shutdownId.Some? then multiset{s.shutdownId.value} else multiset{}
  }

  /** Ids that were answered, that have a job running, or that wait for the closing reply. */
  ghost function Accounted(s: State): multiset<u64> {
    Ids(s.replies) + multiset(s.active.Keys) + AwaitingClose(s)
  }

  /**
   Before a shutdown, a well-formed cancel gets no reply, and neither does a malformed
   one that names an id with a running job; every other request gets one.
   */
  predicate NeedsReply(s: State, r: Request) {
    || s.shutdownId.Some?
    || match r.kind
       case Cancel(Some(_)) => false
       case Cancel(None) => r.id !in s.active
       case _ => true
  }

  ghost function OwedBy(s: State, e: Event): multiset<u64> {
    if e.Incoming? && NeedsReply(s, e.request) then multiset{e.request.id} else multiset{}
  }

  /** The ids of all requests of a run that need a reply, with multiplicity. */
  ghost function Owed(s: State, events: seq<Event>): multiset<u64>
    decreases |events|
  {
    if s.status != Running || events == [] then multiset{}
    else OwedBy(s, events[0]) + Owed(Step(s, events[0]), events[1..])
  }

  lemma MultisetOfInsert(keys: set<u64>, id: u64)
    requires id !in keys
    ensures multiset(keys + {id}) == multiset(keys) + multiset{id}
  {
  }

  lemma WriteAccounts(s: State, reply: Reply, ok: bool)
    requires s.status == Running && ok
    ensures Accounted(Write(s, reply, ok)) == Accounted(s) + multiset{reply.id}
  {
    IdsAppend(s.replies, reply);
  }

  lemma StartAccounts(s: State, t: State, id: u64)
    requires id !in s.active && t.active.Keys == s.active.Keys + {id}
    requires t.replies == s.replies && t.status == s.status && t.shutdownId == s.shutdownId
    ensures Accounted(t) == Accounted(s) + multiset{id}
  {
    MultisetOfInsert(s.active.Keys, id);
  }

  lemma RunAccounts(s: State, id: u64, spec: Payload, launch: Launch, ok: bool)
    requires s.status == Running
    requires HandleRun(s, id, spec, launch, ok).status != Broken
    ensures Accounted(HandleRun(s, id, spec, launch, ok)) == Accounted(s) + multiset{id}
  {
    var t := HandleRun(s, id, spec, launch, ok);
    hide StartJob, Accounted;
    if id in s.active {
      WriteAccounts(s, Reply(id, Failed(ProtocolError)), ok);
    } else if |s.active| >= MAX_ACTIVE_JOBS {
      WriteAccounts(s, Reply(id, Failed(CapacityExceeded)), ok);
    } else {
      match StartJob(s, spec, launch) {
        case Failure(code) => WriteAccounts(s, Reply(id, Failed(code)), ok);
        case Success(started) => StartAccounts(s, t, id);
      }
    }
  }

  lemma HandleAccounts(s: State, r: Request, launch: Launch, io: Io)
    requires s.status == Running
    requires Handle(s, r, launch, io.reply).status != Broken
    ensures Accounted(Handle(s, r, launch, io.reply)) == Accounted(s) + OwedBy(s, Incoming(r, launch, io))
  {
    hide HandleRun, Accounted;
    if s.shutdownId.Some? {
      WriteAccounts(s, Reply(r.id, Failed(Cancelled)), io.reply);
    } else {
      match r.kind {
        case Health => WriteAccounts(s, Reply(r.id, Ready), io.reply);
        case Run(spec) => RunAccounts(s, r.id, spec, launch, io.reply);
        case Cancel(Some(_)) => SameAccounts(s, Handle(s, r, launch, io.reply));
        case Cancel(None) =>
          if r.id !in s.active {
            WriteAccounts(s, Reply(r.id, Failed(ProtocolError)), io.reply);
          }
        case Shutdown => ShutdownAccounts(s, r.id);
        case Unsupported => WriteAccounts(s, Reply(r.id, Failed(ProtocolError)), io.reply);
      }
    }
  }

  lemma ShutdownAccounts(s: State, id: u64)
    requires s.status == Running && s.shutdownId.None?
    ensures Accounted(s.(shutdownId := Some(id), active := CancelAll(s.active))) == Accounted(s) + multiset{id}
  {
    assert CancelAll(s.active).Keys == s.active.Keys;
  }

  lemma SameAccounts(s: State, t: State)
    requires t.active.Keys == s.active.Keys && t.replies == s.replies
    requires t.status == s.status && t.shutdownId == s.shutdownId
    ensures Accounted(t) == Accounted(s)
  {
  }

  lemma FinishAccounts(s: State, id: u64, output: Output, ok: bool)
    requires s.status == Running
    requires Finish(s, id, output, ok).status != Broken
    ensures Accounted(Finish(s, id, output, ok)) == Accounted(s)
  {
    if id in s.active {
      IdsAppend(s.replies, Reply(id, ReplyBody(s.active[id], output)));
      assert (s.active - {id}).Keys == s.active.Keys - {id};
      MultisetOfInsert(s.active.Keys - {id}, id);
      assert s.active.Keys - {id} + {id} == s.active.Keys;
    }
  }

  lemma SettleAccounts(s: State, ok: bool)
    requires s.status == Running && Settle(s, ok).status != Broken
    ensures Accounted(Settle(s, ok)) == Accounted(s)
  {
    if s.status == Running && s.shutdownId.Some? && s.active == map[] {
      IdsAppend(s.replies, Reply(s.shutdownId.value, Closed));
    }
  }

  lemma ApplyAccounts(s: State, e: Event)
    requires s.status == Running && Apply(s, e).status != Broken
    ensures Accounted(Apply(s, e)) == Accounted(s) + OwedBy(s, e)
  {
    hide Accounted, Handle, Finish;
    match e {
      case Incoming(r, launch, io) => HandleAccounts(s, r, launch, io);
      case InputEnd(io) => SameAccounts(s, Apply(s, e));
      case BadFrame =>
      case Finished(id, output, io) => FinishAccounts(s, id, output, io.reply);
    }
  }

  lemma StepAccounts(s: State, e: Event)
    requires Invariant(s) && s.status == Running && Enabled(s, e)
    requires Step(s, e).status != Broken
    ensures Accounted(Step(s, e)) == Accounted(s) + OwedBy(s, e)
  {
    ApplyIsQuiet(s, e);
    assert Apply(s, e).status == Running;
    hide *;
    ApplyAccounts(s, e);
    SettleAccounts(Apply(s, e), ClosingWritten(e));
  }

  /**
   For arbitrary, even repeated, request ids: as long as no frame was lost, replies
   written, jobs running and the pending shutdown account for exactly the requests that
   need a reply.
   */
  lemma {:induction false} ReplyAccounting(s: State, events: seq<Event>)
    requires Invariant(s) && Feasible(s, events)
    requires Execute(s, events).status != Broken
    ensures Accounted(Execute(s, events)) == Accounted(s) + Owed(s, events)
    decreases |events|
  {
    if s.status == Running && events != [] {
      StepKeepsInvariant(s, events[0]);
      StepAccounts(s, events[0]);
      ReplyAccounting(Step(s, events[0]), events[1..]);
    }
  }

  /** A run that ends in good order has answered every request that needs it, once. */
  lemma EveryRequestAnsweredOnce(limit: Capacity, events: seq<Event>)
    requires Feasible(Initial(limit), events)
    ensures var s := Execute(Initial(limit), events);
            s.status in {ShutDown, EndOfInput} ==> Ids(s.replies) == Owed(Initial(limit), events)
  {
    InitialInvariant(limit);
    var start := Initial(limit);
    assert Accounted(start) == multiset{};
    hide Execute, Initial, Feasible;
    var s := Execute(start, events);
    if s.status in {ShutDown, EndOfInput} {
      ReplyAccounting(start, events);
      RunKeepsInvariant(start, events);
    }
  }

  lemma InitialInvariant(limit: Capacity)
    ensures Invariant(Initial(limit))
  {
  }

  // ------------------------------------------------------- drain on shutdown

  predicate OnlyCancelled(replies: seq<Reply>) {
    forall i :: 0 <= i < |replies| ==> replies[i].body == Failed(Cancelled)
  }

  /** Cancelled failures, then the closing reply exactly when the loop has shut down. */
  predicate DrainReplies(replies: seq<Reply>, shutdownId: u64, status: Status) {
    if status == ShutDown then
      && replies != []
      && replies[|replies| - 1] == Reply(shutdownId, Closed)
      && OnlyCancelled(replies[..|replies| - 1])
    else OnlyCancelled(replies)
  }

  predicate Draining(s: State) {
    s.shutdownId.Some? && s.status == Running
  }

  lemma ApplyDrains(s: State, e: Event)
    requires Draining(s) && Quiet(s) && Enabled(s, e)
    ensures var t := Apply(s, e);
            && t.shutdownId == s.shutdownId && t.status in {Running, Broken}
            && t.active.Keys == (if e.Finished? then s.active.Keys - {e.id} else s.active.Keys)
            && s.replies <= t.replies && OnlyCancelled(t.replies[|s.replies|..])
  {
    if e.Finished? && e.id in s.active {
      assert (s.active - {e.id}).Keys == s.active.Keys - {e.id};
    }
  }

  lemma SettleDrains(s: State, ok: bool)
    requires Draining(s)
    ensures var t := Settle(s, ok);
            && t.shutdownId == s.shutdownId && t.active == s.active && s.replies <= t.replies
            && DrainReplies(t.replies[|s.replies|..], s.shutdownId.value, t.status)
            && (ok ==> t.status == if s.active == map[] then ShutDown else Running)
            && (t.status != Broken ==> t.status == if s.active == map[] then ShutDown else Running)
  {
  }

  /** One step after an accepted shutdown: only completions change `active`, by shrinking it. */
  lemma StepDrains(s: State, e: Event)
    requires Invariant(s) && Draining(s) && Enabled(s, e)
    ensures var t := Step(s, e);
            && t.shutdownId == s.shutdownId
            && t.active.Keys == (if e.Finished? then s.active.Keys - {e.id} else s.active.Keys)
            && s.replies <= t.replies
            && DrainReplies(t.replies[|s.replies|..], s.shutdownId.value, t.status)
            && (t.status != Broken ==> t.status == if t.active == map[] then ShutDown else Running)
  {
    ApplyDrains(s, e);
    hide Apply, Settle, Conserved;
    var m := Apply(s, e);
    if m.status == Running {
      SettleDrains(m, ClosingWritten(e));
      DrainRepliesCompose(s.replies, m.replies, Settle(m, ClosingWritten(e)).replies, s.shutdownId.value,
          Step(s, e).status);
    } else {
      BrokenSettles(m, ClosingWritten(e));
    }
  }

  lemma BrokenSettles(s: State, ok: bool)
    requires s.status != Running
    ensures Settle(s, ok) == s
  {
  }

  lemma DrainRepliesCompose(a: seq<Reply>, b: seq<Reply>, c: seq<Reply>, id: u64, status: Status)
    requires a <= b <= c
    requires OnlyCancelled(b[|a|..]) && DrainReplies(c[|b|..], id, status)
    ensures DrainReplies(c[|a|..], id, status)
  {
    var added, last, all := b[|a|..], c[|b|..], c[|a|..];
    assert all == added + last;
    if status == ShutDown {
      assert all[..|all| - 1] == added + last[..|last| - 1];
    }
  }

  /**
   After an accepted shutdown every further reply is a Cancelled failure, until one final
   closing reply under the shutdown id; `active` never grows; and unless the input or a
   write fails, the closing reply is out exactly when `active` is empty.
   */
  lemma {:induction false} ShutdownDrains(s: State, events: seq<Event>)
    requires Invariant(s) && Draining(s) && Feasible(s, events)
    ensures var t := Execute(s, events);
            && t.active.Keys <= s.active.Keys
            && s.replies <= t.replies
            && DrainReplies(t.replies[|s.replies|..], s.shutdownId.value, t.status)
            && (t.status != Broken ==> t.status == if t.active == map[] then ShutDown else Running)
    decreases |events|
  {
    if events == [] {
      assert s.replies[|s.replies|..] == [];
    } else {
      var m := Step(s, events[0]);
      StepDrains(s, events[0]);
      StepKeepsInvariant(s, events[0]);
      if m.status == Running {
        ShutdownDrains(m, events[1..]);
        DrainRepliesCompose(s.replies, m.replies, Execute(s, events).replies, s.shutdownId.value,
            Execute(s, events).status);
      }
    }
  }

  predicate Lossless(e: Event) {
    !e.BadFrame? && e.io.reply && e.io.close
  }

  function FinishedIds(events: seq<Event>): set<u64> {
    set i | 0 <= i < |events| && events[i].Finished? :: events[i].id
  }

  lemma FinishedIdsHead(events: seq<Event>)
    requires events != []
    ensures FinishedIds(events) == FinishedIds(events[1..]) + (if events[0].Finished? then {events[0].id} else {})
  {
    var rest := events[1..];
    assert forall i :: 0 <= i < |rest| ==> rest[i] == events[i + 1];
    assert forall i :: 0 < i < |events| ==> events[i] == rest[i - 1];
  }

  /** Once every running launcher has finished, the drain is over. */
  lemma {:induction false} ShutdownCompletes(s: State, events: seq<Event>)
    requires Invariant(s) && Draining(s) && Feasible(s, events)
    requires forall i :: 0 <= i < |events| ==> Lossless(events[i])
    ensures Execute(s, events).status == if s.active.Keys <= FinishedIds(events) then ShutDown else Running
    decreases |events|
  {
    if events == [] {
      assert s.active.Keys != {};
    } else {
      var e, rest := events[0], events[1..];
      var m := Step(s, e);
      StepDrains(s, e);
      StepKeepsInvariant(s, e);
      LosslessStep(s, e);
      FinishedIdsHead(events);
      hide Step, FinishedIds, Conserved, Lossless;
      if m.status == Running {
        ShutdownCompletes(m, rest);
      } else {
        assert m.active.Keys == {};
      }
    }
  }

  lemma LosslessStep(s: State, e: Event)
    requires s.status == Running && Lossless(e)
    ensures Step(s, e).status != Broken
  {
    hide StartJob;
  }

  // ------------------------------------------------------ cancel precision

  /** The events that mark job `id` as cancelled. */
  predicate Marks(e: Event, id: u64) {
    || e.InputEnd?
    || (e.Incoming? && (e.request.kind.Shutdown? || e.request.kind == Cancel(Some(id))))
  }

  predicate IsCancelled(s: State, id: u64) {
    id in s.active && s.active[id].cancelled
  }

  lemma StepMarks(s: State, e: Event, id: u64)
    requires s.status == Running && IsCancelled(Step(s, e), id) && !IsCancelled(s, id)
    ensures Marks(e, id)
  {
    hide StartJob;
    if e.Incoming? && e.request.kind.Run? && s.shutdownId.None? {
      StartedUncancelled(s, e.request.kind.spec, e.launch);
    }
  }

  lemma StartedUncancelled(s: State, spec: Payload, launch: Launch)
    ensures var r := StartJob(s, spec, launch);
            r.Success? ==> !r.value.job.cancelled && r.value.job.spec == spec
  {
  }

  /** Over any run, a job is marked only by a cancel that names it, a shutdown or the end of input. */
  lemma {:induction false} OnlyItsCancelMarksAJob(s: State, events: seq<Event>, id: u64)
    requires IsCancelled(Execute(s, events), id) && !IsCancelled(s, id)
    ensures exists i :: 0 <= i < |events| && Marks(events[i], id)
    decreases |events|
  {
    if s.status == Running && events != [] {
      var m := Step(s, events[0]);
      if IsCancelled(m, id) {
        StepMarks(s, events[0], id);
      } else {
        OnlyItsCancelMarksAJob(m, events[1..], id);
        var i :| 0 <= i < |events[1..]| && Marks(events[1..][i], id);
        assert Marks(events[i + 1], id);
      }
    }
  }

  /** A cancel for a job that is no longer running changes nothing at all. */
  lemma LateCancelIsIgnored(s: State, id: u64, target: u64, launch: Launch, io: Io)
    requires Invariant(s) && s.status == Running && s.shutdownId.None?
    requires target !in s.active
    ensures Step(s, Incoming(Request(id, Cancel(Some(target))), launch, io)) == s
  {
  }

  lemma StepKeepsMark(s: State, e: Event, id: u64)
    requires s.status == Running && IsCancelled(s, id) && !(e.Finished? && e.id == id)
    ensures IsCancelled(Step(s, e), id)
  {
    hide StartJob;
  }

  lemma {:induction false} MarkStays(s: State, events: seq<Event>, id: u64)
    requires IsCancelled(s, id) && id !in FinishedIds(events)
    ensures IsCancelled(Execute(s, events), id)
    decreases |events|
  {
    if s.status == Running && events != [] {
      FinishedIdsHead(events);
      StepKeepsMark(s, events[0], id);
      MarkStays(Step(s, events[0]), events[1..], id);
    }
  }

  /**
   Once a cancel is applied, the job's reply is Cancelled whatever its launcher produced
   and however much happened in between.
   */
  lemma CancelledJobIsAnsweredCancelled(s: State, events: seq<Event>, id: u64, output: Output, io: Io)
    requires IsCancelled(s, id) && id !in FinishedIds(events)
    requires Execute(s, events).status == Running && io.reply
    ensures var t := Execute(s, events);
            var after := Step(t, Finished(id, output, io));
            && |after.replies| > |t.replies|
            && after.replies[|t.replies|] == Reply(id, Failed(Cancelled))
            && id !in after.active
  {
    MarkStays(s, events, id);
  }

  // --------------------------------------------------- what a job is answered

  /** What the launcher left decides the answer of a job that nobody cancelled. */
  predicate Answers(output: Output, body: Body) {
    && (output.Exited? && output.result.Success? && output.envelopeFits ==> body == Done(output.result.value))
    && (output.Exited? && output.result.Success? && !output.envelopeFits ==> body == Failed(ProtocolError))
    && (output.Exited? && output.result.Failure? ==> body == Failed(output.result.error))
    && (output.LauncherFailed? ==> body == Failed(output.code))
    && (output.NotAwaited? ==> body == Failed(InternalError))
  }

  predicate IsUnmarked(s: State, id: u64) {
    id in s.active && !s.active[id].cancelled
  }

  lemma StepLeavesUnmarked(s: State, e: Event, id: u64)
    requires s.status == Running && IsUnmarked(s, id) && !Marks(e, id) && !(e.Finished? && e.id == id)
    ensures IsUnmarked(Step(s, e), id) && Step(s, e).active[id].spec == s.active[id].spec
  {
    hide StartJob;
  }

  lemma {:induction false} StaysUnmarked(s: State, events: seq<Event>, id: u64)
    requires IsUnmarked(s, id) && id !in FinishedIds(events)
    requires forall i :: 0 <= i < |events| ==> !Marks(events[i], id)
    ensures IsUnmarked(Execute(s, events), id) && Execute(s, events).active[id].spec == s.active[id].spec
    decreases |events|
  {
    if s.status == Running && events != [] {
      FinishedIdsHead(events);
      StepLeavesUnmarked(s, events[0], id);
      hide Step, IsUnmarked, Marks;
      StaysUnmarked(Step(s, events[0]), events[1..], id);
    }
  }

  /** A finished job leaves the table, and exactly one reply is written for it. */
  lemma FinishedJobIsAnswered(s: State, id: u64, output: Output, io: Io)
    requires s.status == Running && id in s.active && s.shutdownId.None? && io.reply
    ensures var t := Step(s, Finished(id, output, io));
      && id !in t.active && |t.replies| == |s.replies| + 1 && t.replies[..|s.replies|] == s.replies
      && t.replies[|s.replies|].id == id
      && if s.active[id].cancelled then t.replies[|s.replies|].body == Failed(Cancelled)
         else Answers(output, t.replies[|s.replies|].body)
  {
  }

  /**
   Over any run: a job that no cancel, shutdown or end of input has marked is answered with
   what its launcher left, its result if that fits a frame, and with nothing else.
   */
  lemma UnmarkedJobIsAnsweredAsLaunched(s: State, events: seq<Event>, id: u64, output: Output, io: Io)
    requires Invariant(s) && Feasible(s, events) && IsUnmarked(s, id) && id !in FinishedIds(events)
    requires forall i :: 0 <= i < |events| ==> !Marks(events[i], id)
    requires Execute(s, events).status == Running && io.reply
    ensures var t := Execute(s, events);
            var after := Step(t, Finished(id, output, io));
            && |after.replies| == |t.replies| + 1 && after.replies[..|t.replies|] == t.replies
            && after.replies[|t.replies|].id == id && Answers(output, after.replies[|t.replies|].body)
            && id !in after.active
  {
    StaysUnmarked(s, events, id);
    RunKeepsInvariant(s, events);
    hide Conserved, Execute, Answers, Feasible, Marks, FinishedIds, LoopChecked;
    var t := Execute(s, events);
    assert t.shutdownId.None? by { assert Quiet(t); }
    hide Step, Quiet;
    FinishedJobIsAnswered(t, id, output, io);
  }

  /** A cancel that arrives while the job it names is running marks that job, and no other. */
  lemma CancelMarksItsJob(s: State, id: u64, target: u64, launch: Launch, io: Io)
    requires s.status == Running && s.shutdownId.None? && target in s.active && Quiet(s) && LoopChecked(s)
    ensures var t := Step(s, Incoming(Request(id, Cancel(Some(target))), launch, io));
      && IsCancelled(t, target) && t.active.Keys == s.active.Keys && t.replies == s.replies && t.status == Running
      && forall other :: other in s.active && other != target ==> t.active[other] == s.active[other]
  {
  }

  // ------------------------------------------------------------- admission

  /** The sum of what a request asks for and the launcher's own needs, if every part fits a `u64`. */
  ghost predicate WithOverhead(request: Capacity, asked: Capacity) {
    IsSum(request, asked, JOB_OVERHEAD)
  }

  /** Room on disk for all workspaces: at most 80% of what is free. */
  predicate DiskFits(reserved: u64, bytes: u64, free: u64) {
    100 * (reserved + bytes) <= 80 * free && 100 * (reserved + bytes) <= U64_MAX
  }

  /**
   Exactly which launches start: the payload and the cgroups can be read, the request with
   the launcher's overhead is admitted, a workspace has room on disk, and the launcher
   could be spawned. The job then holds exactly these two reservations.
   */
  lemma JobStartsIff(s: State, spec: Payload, launch: Launch)
    ensures StartJob(s, spec, launch).Success?
       <==> && launch.limits.Success? && launch.headroom.Success? && launch.spawn.Success?
            && (exists request ::
                  && WithOverhead(request, launch.limits.value.resources)
                  && Admits(s.reserved, request, s.limit, launch.headroom.value, launch.ownUsage))
            && (launch.limits.value.workspaceBytes.Some? ==>
                  && launch.available.Success?
                  && DiskFits(s.workspaceReserved, launch.limits.value.workspaceBytes.value, launch.available.value))
    ensures var r := StartJob(s, spec, launch);
      r.Success? ==>
        && r.value.job.spec == spec && !r.value.job.cancelled
        && WithOverhead(r.value.job.reserved, launch.limits.value.resources)
        && r.value.job.workspace == launch.limits.value.workspaceBytes
        && IsSum(r.value.reserved, s.reserved, r.value.job.reserved)
        && r.value.workspaceReserved == s.workspaceReserved + UnwrapOr(r.value.job.workspace, 0)
  {
    if launch.limits.Success? && launch.headroom.Success? {
      OverheadAdmits(s.reserved, launch.limits.value.resources, s.limit, launch.headroom.value, launch.ownUsage);
      if launch.limits.value.workspaceBytes.Some? && launch.available.Success? {
        DiskReservedIff(s.workspaceReserved, launch.available.value, launch.limits.value.workspaceBytes.value);
      }
    }
    hide Admits, Scheduling.Reserve, ReserveWorkspace, DiskFits, IsSum, Capacity.CheckedAdd;
  }

  /** The request was admitted: the disk, or else the spawn, refuses. */
  predicate RefusedLater(s: State, bytes: Option<u64>, launch: Launch, code: Code) {
    if bytes.None? then launch.spawn == Failure(code)
    else if launch.available.Failure? then code == launch.available.error
    else if !DiskFits(s.workspaceReserved, bytes.value, launch.available.value) then code == CapacityExceeded
    else launch.spawn == Failure(code)
  }

  /** And with which error a launch is refused: the first thing that goes wrong decides. */
  lemma RefusalCode(s: State, spec: Payload, launch: Launch)
    requires StartJob(s, spec, launch).Failure?
    ensures var code := StartJob(s, spec, launch).error;
      && (launch.limits.Failure? ==> code == launch.limits.error)
      && (launch.limits.Success? ==>
            var sum := launch.limits.value.resources.CheckedAdd(JOB_OVERHEAD);
            && (sum.None? ==> code == CapacityExceeded)
            && (sum.Some? && launch.headroom.Failure? ==> code == launch.headroom.error)
            && (sum.Some? && launch.headroom.Success? ==>
                  var granted := Admits(s.reserved, sum.value, s.limit, launch.headroom.value, launch.ownUsage);
                  && (!granted ==> code == CapacityExceeded)
                  && (granted ==> RefusedLater(s, launch.limits.value.workspaceBytes, launch, code))))
  {
    if launch.limits.Success? && launch.limits.value.workspaceBytes.Some? && launch.available.Success? {
      DiskReservedIff(s.workspaceReserved, launch.available.value, launch.limits.value.workspaceBytes.value);
    }
    hide Admits, Scheduling.Reserve, ReserveWorkspace, DiskFits, Capacity.CheckedAdd;
  }

  lemma DiskReservedIff(reserved: u64, free: u64, bytes: u64)
    ensures ReserveWorkspace(reserved, free, bytes).Some? <==> DiskFits(reserved, bytes, free)
  {
  }

  lemma OverheadAdmits(reserved: Capacity, asked: Capacity, limit: Capacity, headroom: Capacity, own: Capacity)
    ensures (exists request ::
               WithOverhead(request, asked) && Admits(reserved, request, limit, headroom, own))
       <==> asked.CheckedAdd(JOB_OVERHEAD).Some?
            && Scheduling.Reserve(reserved, asked.CheckedAdd(JOB_OVERHEAD).value, limit, headroom, own).Some?
    ensures asked.CheckedAdd(JOB_OVERHEAD).Some? ==> WithOverhead(asked.CheckedAdd(JOB_OVERHEAD).value, asked)
  {
    hide Admits, Scheduling.Reserve;
    var sum := asked.CheckedAdd(JOB_OVERHEAD);
    if sum.Some? {
      assert WithOverhead(sum.value, asked);
    }
    forall request | WithOverhead(request, asked)
      ensures sum == Some(request)
    {
    }
  }

  /** The other requests before a shutdown, each with its one answer or none, and what they leave alone. */
  lemma PlainRequestOutcome(s: State, r: Request, launch: Launch, io: Io)
    requires Invariant(s) && s.status == Running && s.shutdownId.None? && !s.eof && io.reply && io.close
    ensures var t := Step(s, Incoming(r, launch, io));
      !r.kind.Run? ==> t.reserved == s.reserved && t.workspaceReserved == s.workspaceReserved
    ensures var t := Step(s, Incoming(r, launch, io));
      && (r.kind.Health? ==> t.replies == s.replies + [Reply(r.id, Ready)] && t.active == s.active)
      && (r.kind.Unsupported? ==> t.replies == s.replies + [Reply(r.id, Failed(ProtocolError))] && t.active == s.active)
      && (r.kind == Cancel(None) && r.id in s.active ==> t == s)
      && (r.kind == Cancel(None) && r.id !in s.active ==>
            t.replies == s.replies + [Reply(r.id, Failed(ProtocolError))] && t.active == s.active)
      && (r.kind.Shutdown? ==> t.active.Keys == s.active.Keys && forall id :: id in t.active ==> t.active[id].cancelled)
      && (r.kind.Shutdown? && s.active != map[] ==>
            t.shutdownId == Some(r.id) && t.replies == s.replies && t.status == Running)
      && (r.kind.Shutdown? && s.active == map[] ==>
            t.replies == s.replies + [Reply(r.id, Closed)] && t.status == ShutDown)
      && (!r.kind.Shutdown? ==> t.status == Running && t.shutdownId.None?)
  {
    hide StartJob, Conserved;
  }

  /** The end of input marks every job, and ends the loop once none is left. */
  lemma InputEndOutcome(s: State, io: Io)
    requires Invariant(s) && s.status == Running && s.shutdownId.None?
    ensures var t := Step(s, InputEnd(io));
      && t.eof && t.replies == s.replies && t.active.Keys == s.active.Keys
      && (forall id :: id in t.active ==> t.active[id].cancelled)
      && t.status == if s.active == map[] then EndOfInput else Running
  {
    hide Conserved;
  }

  /** What becomes of a run request before a shutdown: one reply with an error, or a started job. */
  lemma RunRequestOutcome(s: State, id: u64, spec: Payload, launch: Launch, io: Io)
    requires s.status == Running && s.shutdownId.None? && Quiet(s) && LoopChecked(s) && !s.eof && io.reply
    ensures var t := Step(s, Incoming(Request(id, Run(spec)), launch, io));
      var starts := id !in s.active && |s.active| < MAX_ACTIVE_JOBS && StartJob(s, spec, launch).Success?;
      if starts then
        && t.active == s.active[id := StartJob(s, spec, launch).value.job] && t.replies == s.replies
        && t.reserved == StartJob(s, spec, launch).value.reserved
        && t.workspaceReserved == StartJob(s, spec, launch).value.workspaceReserved
      else
        && t.active == s.active && t.reserved == s.reserved && t.workspaceReserved == s.workspaceReserved
        && |t.replies| == |s.replies| + 1 && t.replies[..|s.replies|] == s.replies
        && t.replies[|s.replies|].id == id
        && (id in s.active ==> t.replies[|s.replies|].body == Failed(ProtocolError))
        && (id !in s.active && |s.active| >= MAX_ACTIVE_JOBS ==>
              t.replies[|s.replies|].body == Failed(CapacityExceeded))
        && (id !in s.active && |s.active| < MAX_ACTIVE_JOBS ==>
              t.replies[|s.replies|].body == Failed(StartJob(s, spec, launch).error))
  {
    hide StartJob;
  }

  /**
   Starting a job overcommits no cgroup ancestor: the launcher overhead makes every
   request positive, so the guarantee needs no assumption on what the caller asked for.
   */
  lemma StartedJobNeverOvercommits(
    s: State, spec: Payload, launch: Launch,
    snapshots: seq<ResourceSnapshot>, fallbacks: ResourceFallbacks, jobs: seq<JobReading>, i: nat)
    requires StartJob(s, spec, launch).Success?
    requires launch.headroom == Success(EffectiveAdmissionCapacity(snapshots, fallbacks))
    requires launch.ownUsage == JobsUsage(jobs)
    requires i < |snapshots| && Includes(snapshots[i], JobsUsage(jobs))
    ensures NoOvercommit(snapshots[i], s.reserved, JobsUsage(jobs), StartJob(s, spec, launch).value.job.reserved)
  {
    var request := StartJob(s, spec, launch).value.job.reserved;
    assert request.memoryBytes > 0 && request.pids > 0;
    hide NoOvercommit, EffectiveAdmissionCapacity, JobsUsage;
    AdmissionNeverOvercommits(snapshots, fallbacks, s.reserved, JobsUsage(jobs), request, s.limit, i);
  }
}
