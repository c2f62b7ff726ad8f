/**
 The `Supervisor` object of native/src/supervisor.rs: its methods update the job table,
 the scheduler and the writer in place, and each is proved to take exactly the step of
 `SupervisorProtocol`. A method's boolean result is false when it returns an error, which
 ends the loop.
 */
module NativeSupervisor {
  import opened Wrappers
  import opened UInt64
  import opened Scheduling
  import opened SupervisorProtocol

  datatype ActiveJob = ActiveJob(spec: Payload, cancelled: bool, reservation: Reservation, workspace: Option<u64>)

  function AbstractJob(job: ActiveJob): Job {
    Job(job.spec, job.cancelled, job.reservation.request, job.workspace)
  }

  function AbstractJobs(active: map<u64, ActiveJob>): (jobs: map<u64, Job>)
    ensures jobs.Keys == active.Keys
  {
    map id | id in active :: AbstractJob(active[id])
  }

  /** The same jobs, some of them newly marked as cancelled. */
  predicate Marked(before: map<u64, ActiveJob>, after: map<u64, ActiveJob>) {
    && after.Keys == before.Keys
    && forall id :: id in before ==> after[id] == before[id] || after[id] == before[id].(cancelled := true)
  }

  function ReservationsOf(active: map<u64, ActiveJob>): set<Reservation> {
    set id | id in active :: active[id].reservation
  }

  /** Every running job owns its own unreleased reservation. */
  ghost predicate Owned(active: map<u64, ActiveJob>, scheduler: Scheduler)
    reads ReservationsOf(active)
  {
    && (forall id :: id in active ==>
          !active[id].reservation.released && active[id].reservation.scheduler == scheduler)
    && (forall i, j :: i in active && j in active && i != j ==> active[i].reservation != active[j].reservation)
  }

  lemma MarkedIsOwned(before: map<u64, ActiveJob>, after: map<u64, ActiveJob>, scheduler: Scheduler)
    requires Marked(before, after)
    ensures ReservationsOf(after) == ReservationsOf(before)
    ensures Owned(before, scheduler) ==> Owned(after, scheduler)
  {
    assert forall id :: id in before ==> after[id].reservation == before[id].reservation;
  }

  lemma MarkOne(before: map<u64, ActiveJob>, now: map<u64, ActiveJob>, id: u64)
    requires Marked(before, now) && id in now
    ensures Marked(before, now[id := now[id].(cancelled := true)])
  {
  }

  lemma AllMarked(before: map<u64, ActiveJob>, after: map<u64, ActiveJob>)
    requires Marked(before, after)
    requires forall id :: id in after ==> after[id].cancelled
    ensures AbstractJobs(after) == CancelAll(AbstractJobs(before))
  {
  }

  class Supervisor {
    const scheduler: Scheduler
    var workspaceReserved: u64
    var active: map<u64, ActiveJob>
    var shutdownId: Option<u64>
    var eof: bool
    /** Everything written to the response stream. */
    var replies: seq<Reply>

    ghost predicate Valid()
      reads this, ReservationsOf(active)
    {
      Owned(active, scheduler)
    }

    ghost function Abstract(status: Status): State
      reads this, scheduler
    {
      State(scheduler.limit, scheduler.reserved, workspaceReserved, AbstractJobs(active), shutdownId, eof, replies,
          status)
    }

    constructor (limit: Capacity)
      ensures Valid() && fresh(scheduler) && active == map[]
      ensures Abstract(Running) == Initial(limit)
    {
      scheduler := new Scheduler(limit);
      workspaceReserved := 0;
      active := map[];
      shutdownId := None;
      eof := false;
      replies := [];
    }

    /** Encodes and writes one reply; `writable` is the outcome of doing so. */
    method Respond(reply: Reply, writable: bool) returns (ok: bool)
      requires Valid()
      modifies this`replies
      ensures Valid()
      ensures Abstract(if ok then Running else Broken) == Write(old(Abstract(Running)), reply, writable)
      ensures ok == writable
    {
      if writable {
        replies := replies + [reply];
      }
      return writable;
    }

    method CancelEvery()
      requires Valid()
      modifies this`active
      ensures Valid() && ReservationsOf(active) == old(ReservationsOf(active))
      ensures AbstractJobs(active) == CancelAll(old(AbstractJobs(active)))
    {
      ghost var before := active;
      assert Marked(before, active);
      hide Marked, Owned, AbstractJobs, CancelAll, ReservationsOf;
      var todo := active.Keys;
      while todo != {}
        invariant todo <= active.Keys && Marked(before, active)
        invariant forall id :: id in active && id !in todo ==> active[id].cancelled
        decreases |todo|
      {
        var id :| id in todo;
        MarkOne(before, active, id);
        active := active[id := active[id].(cancelled := true)];
        todo := todo - {id};
      }
      MarkedIsOwned(before, active, scheduler);
      AllMarked(before, active);
    }

    method Cancel(id: u64, target: Option<u64>, writable: bool) returns (ok: bool)
      requires Valid()
      modifies this`active, this`replies
      ensures Valid() && ReservationsOf(active) == old(ReservationsOf(active))
      ensures Abstract(if ok then Running else Broken) == HandleCancel(old(Abstract(Running)), id, target, writable)
    {
      ok := true;
      match target {
        case Some(job) =>
          if job in active {
            ghost var before := active;
            active := active[job := active[job].(cancelled := true)];
            MarkedIsOwned(before, active, scheduler);
            assert AbstractJobs(active) == AbstractJobs(before)[job := AbstractJobs(before)[job].(cancelled := true)];
          }
        case None =>
          if id !in active {
            ok := Respond(Reply(id, Failed(ProtocolError)), writable);
          }
      }
    }

    /**
     Reserves, then spawns. On every failing path the reservations made so far are
     dropped again, so the totals are as before.
     */
    method StartActiveJob(spec: Payload, launch: Launch) returns (r: Result<ActiveJob, Code>)
      requires Valid()
      modifies scheduler, this`workspaceReserved
      ensures r.Success? ==>
                && fresh(r.value.reservation) && !r.value.reservation.released
                    && r.value.reservation.scheduler == scheduler
                && StartJob(old(Abstract(Running)), spec, launch)
                   == Success(Started(AbstractJob(r.value), scheduler.reserved, workspaceReserved))
      ensures r.Failure? ==>
                && StartJob(old(Abstract(Running)), spec, launch) == Failure(r.error)
                && scheduler.reserved == old(scheduler.reserved) && workspaceReserved == old(workspaceReserved)
    {
      if launch.limits.Failure? {
        return Failure(launch.limits.error);
      }
      var limits := launch.limits.value;
      var request := limits.resources.CheckedAdd(JOB_OVERHEAD);
      if request.None? {
        return Failure(CapacityExceeded);
      }
      if launch.headroom.Failure? {
        return Failure(launch.headroom.error);
      }
      var reservation := scheduler.ReserveWithLimit(request.value, launch.headroom.value, launch.ownUsage);
      if reservation.None? {
        return Failure(CapacityExceeded);
      }
      ReleaseUndoesReserve(old(scheduler.reserved), request.value, scheduler.reserved);
      if limits.workspaceBytes.Some? {
        if launch.available.Failure? {
          reservation.value.Release();
          return Failure(launch.available.error);
        }
        var total := ReserveWorkspace(workspaceReserved, launch.available.value, limits.workspaceBytes.value);
        if total.None? {
          reservation.value.Release();
          return Failure(CapacityExceeded);
        }
        workspaceReserved := total.value;
      }
      if launch.spawn.Failure? {
        DropWorkspace(limits.workspaceBytes);
        reservation.value.Release();
        return Failure(launch.spawn.error);
      }
      return Success(ActiveJob(spec, false, reservation.value, limits.workspaceBytes));
    }

    method DropWorkspace(bytes: Option<u64>)
      modifies this`workspaceReserved
      ensures workspaceReserved == match bytes
                                   case None => old(workspaceReserved)
                                   case Some(b) => WrappingSub(old(workspaceReserved), b)
    {
      if bytes.Some? {
        workspaceReserved := WrappingSub(workspaceReserved, bytes.value);
      }
    }

    method Admit(id: u64, spec: Payload, launch: Launch) returns (r: Result<(), Code>)
      requires Valid() && id !in active
      modifies this`active, this`workspaceReserved, scheduler
      ensures Valid() && fresh(ReservationsOf(active) - old(ReservationsOf(active)))
      ensures r.Success? == StartJob(old(Abstract(Running)), spec, launch).Success?
      ensures r.Failure? ==>
                && StartJob(old(Abstract(Running)), spec, launch) == Failure(r.error)
                && Abstract(Running) == old(Abstract(Running))
      ensures r.Success? ==>
                Abstract(Running)
                == Insert(old(Abstract(Running)), id, StartJob(old(Abstract(Running)), spec, launch).value)
    {
      hide StartJob;
      var started := StartActiveJob(spec, launch);
      if started.Failure? {
        return Failure(started.error);
      }
      OwnsOneMore(active, id, started.value, scheduler);
      hide Owned, ReservationsOf, AbstractJobs;
      active := active[id := started.value];
      return Success(());
    }

    method RunRequest(id: u64, spec: Payload, launch: Launch, writable: bool) returns (ok: bool)
      requires Valid()
      modifies this`active, this`replies, this`workspaceReserved, scheduler
      ensures Valid() && fresh(ReservationsOf(active) - old(ReservationsOf(active)))
      ensures Abstract(if ok then Running else Broken) == HandleRun(old(Abstract(Running)), id, spec, launch, writable)
    {
      SameSize(active);
      hide StartJob, AbstractJobs, Insert, Owned, ReservationsOf;
      var rejection := if id in active then Some(ProtocolError)
                       else if |active| >= MAX_ACTIVE_JOBS then Some(CapacityExceeded)
                       else None;
      if rejection.None? {
        var admitted := Admit(id, spec, launch);
        if admitted.Success? {
          return true;
        }
        rejection := Some(admitted.error);
      }
      ok := Respond(Reply(id, Failed(rejection.value)), writable);
    }

    method HandleRequest(r: Request, launch: Launch, writable: bool) returns (ok: bool)
      requires Valid()
      modifies this, scheduler
      ensures Valid() && fresh(ReservationsOf(active) - old(ReservationsOf(active)))
      ensures Abstract(if ok then Running else Broken) == Handle(old(Abstract(Running)), r, launch, writable)
    {
      hide HandleRun, HandleCancel, CancelAll;
      if shutdownId.Some? {
        ok := Respond(Reply(r.id, Failed(Cancelled)), writable);
        return;
      }
      match r.kind {
        case Health => ok := Respond(Reply(r.id, Ready), writable);
        case Run(spec) => ok := RunRequest(r.id, spec, launch, writable);
        case Cancel(target) => ok := Cancel(r.id, target, writable);
        case Shutdown =>
          CancelEvery();
          shutdownId := Some(r.id);
          ok := true;
        case Unsupported => ok := Respond(Reply(r.id, Failed(ProtocolError)), writable);
      }
    }

    method TakeJob(id: u64) returns (job: ActiveJob)
      requires Valid() && id in active
      modifies this`active
      ensures job == old(active[id]) && !job.reservation.released && job.reservation.scheduler == scheduler
      ensures Valid() && ReservationsOf(active) == old(ReservationsOf(active)) - {job.reservation}
      ensures AbstractJobs(active) == old(AbstractJobs(active)) - {id}
    {
      job := active[id];
      OwnsOneLess(active, id, scheduler);
      assert AbstractJobs(active - {id}) == AbstractJobs(active) - {id};
      active := active - {id};
    }

    /** What Rust's drop of a job does: both reservations are given back. */
    method DropJob(job: ActiveJob)
      requires Valid() && job.reservation !in ReservationsOf(active)
      requires !job.reservation.released && job.reservation.scheduler == scheduler
      modifies this`workspaceReserved, scheduler, job.reservation
      ensures Valid()
      ensures scheduler.reserved == old(scheduler.reserved).SaturatingSub(job.reservation.request)
      ensures workspaceReserved == match job.workspace
                                   case None => old(workspaceReserved)
                                   case Some(b) => WrappingSub(old(workspaceReserved), b)
    {
      job.reservation.Release();
      DropWorkspace(job.workspace);
    }

    /** Replies for a finished launcher, then drops the job with its reservations. */
    method FinishJob(id: u64, output: Output, writable: bool) returns (ok: bool)
      requires Valid()
      modifies this, scheduler, ReservationsOf(active)
      ensures Valid() && ReservationsOf(active) <= old(ReservationsOf(active))
      ensures Abstract(if ok then Running else Broken) == Finish(old(Abstract(Running)), id, output, writable)
    {
      if id !in active {
        return true;
      }
      assert active[id].reservation in ReservationsOf(active);
      ghost var before := AbstractJobs(active);
      assert before[id] == AbstractJob(active[id]);
      hide Owned, AbstractJobs, ReplyBody, WrappingSub, ReservationsOf, Capacity.SaturatingSub;
      var job := TakeJob(id);
      ok := Respond(Reply(id, ReplyBody(AbstractJob(job), output)), writable);
      DropJob(job);
    }

    method HandleEvent(e: Event) returns (ok: bool)
      requires Valid()
      modifies this, scheduler, ReservationsOf(active)
      ensures Valid() && fresh(ReservationsOf(active) - old(ReservationsOf(active)))
      ensures Abstract(if ok then Running else Broken) == Apply(old(Abstract(Running)), e)
    {
      hide Owned, Handle, Finish, CancelAll;
      ok := true;
      match e {
        case Incoming(r, launch, io) => ok := HandleRequest(r, launch, io.reply);
        case InputEnd(_) =>
          eof := true;
          CancelEvery();
        case BadFrame => ok := false;
        case Finished(id, output, io) => ok := FinishJob(id, output, io.reply);
      }
    }

    /** The checks at the top of the loop; `None` means the loop goes on. */
    method CheckExit(closeWritable: bool) returns (exit: Option<Status>)
      requires Valid()
      modifies this`replies
      ensures Valid()
      ensures exit.Some? ==> exit.value != Running
      ensures Abstract(match exit case None => Running case Some(status) => status)
           == Settle(old(Abstract(Running)), closeWritable)
    {
      assert AbstractJobs(active) == map[] <==> active == map[];
      hide Owned, AbstractJobs;
      if shutdownId.Some? && active == map[] {
        var ok := Respond(Reply(shutdownId.value, Closed), closeWritable);
        return Some(if ok then ShutDown else Broken);
      }
      if eof && active == map[] {
        return Some(EndOfInput);
      }
      return None;
    }

    /** Handles events until the loop exits or no further event has arrived. */
    method RunLoop(events: seq<Event>) returns (status: Status)
      requires Valid() && LoopChecked(Abstract(Running))
      modifies this, scheduler, ReservationsOf(active)
      ensures Valid()
      ensures Abstract(status) == Execute(old(Abstract(Running)), events)
    {
      ghost var start := Abstract(Running);
      ghost var owned := ReservationsOf(active);
      var closeWritable := true;
      var next := 0;
      assert events[0..] == events;
      assert Settle(start, true) == start;
      while true
        invariant 0 <= next <= |events|
        invariant Valid() && fresh(ReservationsOf(active) - owned)
        invariant Execute(Settle(Abstract(Running), closeWritable), events[next..]) == Execute(start, events)
        decreases |events| - next
      {
        hide *;
        ghost var now := Settle(Abstract(Running), closeWritable);
        ExecuteFrom(now, events, next);
        var exit := CheckExit(closeWritable);
        if exit.Some? {
          return exit.value;
        }
        if next == |events| {
          return Running;
        }
        var ok := HandleEvent(events[next]);
        if !ok {
          return Broken;
        }
        closeWritable := ClosingWritten(events[next]);
        next := next + 1;
      }
    }
  }

  lemma ExecuteFrom(s: State, events: seq<Event>, next: nat)
    requires next <= |events|
    ensures s.status != Running || next == |events| ==> Execute(s, events[next..]) == s
    ensures s.status == Running && next < |events| ==>
              && Execute(s, events[next..]) ==
                 Execute(Settle(Apply(s, events[next]), ClosingWritten(events[next])), events[next + 1..])
              && (Apply(s, events[next]).status != Running ==>
                    Execute(s, events[next..]) == Apply(s, events[next]))
  {
    hide Apply;
    if s.status == Running && next < |events| {
      assert events[next..][0] == events[next] && events[next..][1..] == events[next + 1..];
    }
  }

  lemma SameSize(active: map<u64, ActiveJob>)
    ensures |AbstractJobs(active)| == |active|
  {
    assert |active.Keys| == |active| && |AbstractJobs(active).Keys| == |AbstractJobs(active)|;
  }

  lemma OwnsOneMore(active: map<u64, ActiveJob>, id: u64, job: ActiveJob, scheduler: Scheduler)
    requires Owned(active, scheduler) && id !in active
    requires job.reservation !in ReservationsOf(active)
    requires !job.reservation.released && job.reservation.scheduler == scheduler
    ensures Owned(active[id := job], scheduler)
    ensures ReservationsOf(active[id := job]) == ReservationsOf(active) + {job.reservation}
    ensures AbstractJobs(active[id := job]) == AbstractJobs(active)[id := AbstractJob(job)]
  {
    var after := active[id := job];
    assert after[id] == job;
    assert forall i :: i in active ==> i in after && after[i] == active[i];
    forall r | r in ReservationsOf(active) + {job.reservation}
      ensures r in ReservationsOf(after)
    {
      if r == job.reservation {
        assert after[id].reservation == r;
      } else {
        var i :| i in active && active[i].reservation == r;
        assert after[i].reservation == r;
      }
    }
    assert forall i :: i in active ==> active[i].reservation in ReservationsOf(active);
  }

  lemma OwnsOneLess(active: map<u64, ActiveJob>, id: u64, scheduler: Scheduler)
    requires Owned(active, scheduler) && id in active
    ensures Owned(active - {id}, scheduler)
    ensures ReservationsOf(active - {id}) == ReservationsOf(active) - {active[id].reservation}
  {
    var after := active - {id};
    assert forall i :: i in after <==> i in active && i != id;
    assert forall i :: i in after ==> after[i] == active[i];
  }
}
