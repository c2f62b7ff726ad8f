/**
 The `Sandbox` object of src/api/sandbox.ts: its queue, its count of running jobs and its
 supervisor are updated in place, and every synchronous part of its methods is proved to
 take exactly the step of `SandboxProtocol`, whose invariant therefore holds between them.
 */
module NodeSandbox {
  import opened Wrappers
  import opened SandboxProtocol
  import opened SandboxSafety

  class Sandbox {
    const capacity: Capacity
    var queue: seq<nat>
    var active: nat
    var admitted: nat
    var closing: bool
    /** `resolveClose` and `rejectClose` are set: the close action has not fired yet. */
    var closePending: bool
    var requester: Option<nat>
    /** How many startups the factory was called for. */
    var startups: nat
    ghost var state: State

    ghost predicate Coupled()
      reads this
    {
      && queue == state.line.queue
      && admitted == state.line.admitted
      && active == |state.jobs|
      && requester == state.fleet.current
      && startups == |state.fleet.gens|
      && closing == (state.closer != Open)
      && closePending == (state.closer == Requested)
    }

    ghost predicate Valid()
      reads this
    {
      ValidCapacity(capacity) && Coupled() && Inv(capacity, state)
    }

    constructor (capacity: Capacity)
      requires ValidCapacity(capacity)
      ensures Valid() && state == INITIAL && this.capacity == capacity
    {
      this.capacity := capacity;
      queue, active, admitted, startups := [], 0, 0, 0;
      closing, closePending, requester := false, false, None;
      state := INITIAL;
      InitialInv(capacity);
    }

    /** What `new` accepts; every other capacity throws. */
    static method Create(capacity: Capacity) returns (r: Option<Sandbox>)
      ensures r.Some? <==> 0 < capacity.maxInFlight <= 64 && capacity.maxQueue <= 10_000
      ensures r.Some? ==> fresh(r.value) && r.value.Valid() && r.value.state == INITIAL && r.value.capacity == capacity
    {
      if !ValidCapacity(capacity) {
        return None;
      }
      var sandbox := new Sandbox(capacity);
      return Some(sandbox);
    }

    /** `aborted`: the caller's signal has fired already. */
    method Run(aborted: bool) returns (r: RunResult)
      requires Valid()
      modifies this
      ensures Valid() && r == Judge(capacity, old(state), aborted)
      ensures state == SandboxProtocol.Run(capacity, old(state), aborted)
      ensures r == Unavailable <==> old(closing)
      ensures r == Cancelled <==> !old(closing) && aborted
      ensures r == CapacityExceeded <==>
          && !old(closing) && !aborted && old(active) == capacity.maxInFlight
          && (capacity.overload == Reject || |old(queue)| == capacity.maxQueue)
      ensures r.Admitted? ==>
          if old(active) < capacity.maxInFlight then active == old(active) + 1 && queue == []
          else active == old(active) && queue == old(queue) + [r.id]
      ensures !r.Admitted? ==> active == old(active) && queue == old(queue)
    {
      RunKeeps(capacity, state, aborted);
      RunPlaces(capacity, state);
      if closing {
        return Unavailable;
      }
      if aborted {
        return Cancelled;
      }
      if active >= capacity.maxInFlight && (capacity.overload == Reject || |queue| >= capacity.maxQueue) {
        return CapacityExceeded;
      }
      EnqueueIsPumping(capacity, state);
      hide Inv, Pumping, SandboxProtocol.Pump;
      r := Admitted(admitted);
      queue := queue + [admitted];
      admitted := admitted + 1;
      state := Enqueue(state);
      Pump();
    }

    /** Starts queued jobs while there is room. */
    method Pump()
      requires Coupled() && Pumping(capacity, state)
      modifies this`queue, this`active, this`state
      ensures Coupled() && state == SandboxProtocol.Pump(capacity, old(state))
    {
      while active < capacity.maxInFlight && queue != []
        invariant Coupled() && Pumping(capacity, state)
        invariant SandboxProtocol.Pump(capacity, state) == SandboxProtocol.Pump(capacity, old(state))
        decreases |queue|
      {
        StartKeeps(capacity, state);
        hide Pumping;
        queue := queue[1..];
        active := active + 1;
        state := StartNext(state);
      }
    }

    /** The abort listener of a queued job. */
    method OnAbort(id: nat)
      requires Valid()
      modifies this`queue, this`state, this`closePending
      ensures Valid() && state == Abort(old(state), id)
    {
      AbortKeeps(capacity, state, id);
      hide Inv;
      var index := IndexOf(queue, id);
      if index == |queue| { return; }
      queue := RemoveAt(queue, index);
      state := state.(line := Withdraw(state.line, index));
      FinishCloseIfIdle();
    }

    method Close()
      requires Valid()
      modifies this`closing, this`closePending, this`state
      ensures Valid() && state == SandboxProtocol.Close(old(state))
    {
      CloseKeeps(capacity, state);
      hide Inv;
      if closing { return; }
      closing := true;
      closePending := true;
      state := state.(closer := Requested);
      FinishCloseIfIdle();
    }

    /** Fires the close action; what it then awaits are later events. */
    method FinishCloseIfIdle()
      requires Coupled()
      modifies this`closePending, this`state
      ensures Coupled() && state == SandboxProtocol.FinishCloseIfIdle(old(state))
    {
      if !closing || active > 0 || |queue| > 0 || !closePending { return; }
      assert state.jobs == map[] by { NoJobs(state.jobs); }
      closePending := false;
      state := SandboxProtocol.FinishCloseIfIdle(state);
    }

    /** The end of `execute` for job `id`, whose outcome is known. */
    method FinishJob(ghost id: nat)
      requires Valid() && id in state.jobs && state.jobs[id].Done?
      modifies this`queue, this`active, this`closePending, this`state
      ensures Valid() && state == Step(capacity, old(state), Finished(id))
    {
      FinishKeeps(capacity, state, id);
      LeaveIsPumping(capacity, state, id);
      hide Inv, Pumping, SandboxProtocol.Pump;
      active := active - 1;
      state := Leave(state, id);
      Pump();
      FinishCloseIfIdle();
    }

    /** Job `id` needs a supervisor: the current one, or a new generation. */
    method GetRequester(ghost id: nat) returns (gen: nat)
      requires Valid() && id in state.jobs && state.jobs[id] == Preparing
      modifies this`requester, this`startups, this`state
      ensures Valid() && state == Step(capacity, old(state), WorkspaceReady(id))
      ensures state.jobs[id] == Waiting(gen) && requester == Some(gen)
    {
      ProgressKeeps(capacity, state, id, WorkspaceReady(id));
      hide Inv;
      state := Step(capacity, state, WorkspaceReady(id));
      if requester.None? {
        requester := Some(startups);
        startups := startups + 1;
      }
      gen := requester.value;
    }

    /** The startup of `gen` failed; it is never cached. */
    method StartupFailed(gen: nat)
      requires Valid() && gen < startups && state.fleet.gens[gen].status == Starting
      modifies this`requester, this`state
      ensures Valid() && state == Step(capacity, old(state), StartupSettled(gen, false))
    {
      StartupStepKeeps(capacity, state, gen, false);
      hide Inv;
      state := Step(capacity, state, StartupSettled(gen, false));
      if requester == Some(gen) {
        requester := None;
      }
    }

    /** Job `id` lost its supervisor `gen`, which is not discarded if it was replaced already. */
    method RecoverRequester(ghost id: nat, gen: nat)
      requires Valid() && id in state.jobs && state.jobs[id] == Requesting(gen)
      modifies this`requester, this`state
      ensures Valid() && state == Step(capacity, old(state), SupervisorLost(id))
      ensures requester == if old(requester) == Some(gen) then None else old(requester)
    {
      ProgressKeeps(capacity, state, id, SupervisorLost(id));
      hide Inv;
      state := Step(capacity, state, SupervisorLost(id));
      if requester == Some(gen) {
        requester := None;
      }
    }
  }

  lemma RunPlaces(c: Capacity, s: State)
    requires ValidCapacity(c) && Inv(c, s)
    ensures |s.jobs| <= c.maxInFlight && |s.line.queue| <= c.maxQueue
    ensures var t := SandboxProtocol.Pump(c, Enqueue(s));
      if |s.jobs| < c.maxInFlight then |t.jobs| == |s.jobs| + 1 && t.line.queue == []
      else |t.jobs| == |s.jobs| && t.line.queue == s.line.queue + [s.line.admitted]
  {
    AdmittedJobIsPlaced(c, s);
    hide SandboxProtocol.Pump, Ordered, SettledOnce, FleetOk, CloserOk;
    assert s.jobs[s.line.admitted := Preparing].Keys == s.jobs.Keys + {s.line.admitted};
  }

  lemma NoJobs(jobs: map<nat, Phase>)
    requires |jobs| == 0
    ensures jobs == map[]
  {
  }
}
