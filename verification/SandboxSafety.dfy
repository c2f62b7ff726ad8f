/**
 What every run of the sandbox keeps: the queue's bounds and order, one settlement per
 admitted job, one close action, and no supervisor that is forgotten before it was asked
 to close.
 */
module SandboxSafety {
  import opened Wrappers
  import opened SandboxProtocol

  // ------------------------------------------------------------- definitions

  /** The admitted jobs in order of admission, without those withdrawn from the queue. */
  function Kept(admitted: nat, withdrawn: set<nat>): seq<nat> {
    if admitted == 0 then []
    else Kept(admitted - 1, withdrawn) + if admitted - 1 in withdrawn then [] else [admitted - 1]
  }

  /** Jobs start in the order of admission, skipping exactly the withdrawn ones. */
  ghost predicate Ordered(line: Line) {
    && line.started + line.queue == Kept(line.admitted, line.withdrawn)
    && forall id :: id in line.withdrawn ==> id < line.admitted
  }

  predicate Over(line: Line, running: set<nat>, id: nat) {
    id in line.withdrawn || (id in line.started && id !in running)
  }

  /** A job's promise settles once, when the job was withdrawn or has finished. */
  ghost predicate SettledOnce(line: Line, running: set<nat>) {
    && (forall id :: id in running ==> id in line.started)
    && (forall id: nat :: line.settled[id] == if Over(line, running, id) then 1 else 0)
  }

  predicate Bounded(c: Capacity, line: Line, running: nat) {
    && running <= c.maxInFlight
    && |line.queue| <= c.maxQueue
    && (line.queue != [] ==> running == c.maxInFlight && c.overload == Wait)
  }

  ghost predicate BeingRetired(jobs: map<nat, Phase>, gen: nat) {
    exists id :: id in jobs && jobs[id] == Retiring(gen)
  }

  predicate StatusOk(f: Fleet, gen: nat)
    requires gen < |f.gens|
  {
    var g := f.gens[gen];
    && (g.status == Starting ==> f.current == Some(gen))
    && (g.status == Failed ==> f.current != Some(gen))
    && (g.asked ==> g.status == Up)
    && (g.closed ==> g.asked)
    && (f.current != Some(gen) ==> g.status == Failed || gen in f.lost)
  }

  /** A supervisor that is up and not asked to close is in use, or about to be asked. */
  ghost predicate NotForgotten(f: Fleet, jobs: map<nat, Phase>, gen: nat)
    requires gen < |f.gens|
  {
    f.gens[gen].status == Up && !f.gens[gen].asked ==> f.current == Some(gen) || BeingRetired(jobs, gen)
  }

  predicate PhaseOk(f: Fleet, phase: Phase) {
    match phase
    case Preparing => true
    case Waiting(gen) => gen < |f.gens|
    case Requesting(gen) => gen < |f.gens| && f.gens[gen].status == Up
    case Retiring(gen) => gen < |f.gens| && f.gens[gen].status == Up
    case Closing(gen) => gen < |f.gens| && f.gens[gen].asked
    case Done(Ordinary) => true
    case Done(Lost(gen)) => gen < |f.gens| && f.gens[gen].closed
  }

  ghost predicate FleetOk(f: Fleet, jobs: map<nat, Phase>) {
    && (f.current.Some? ==> f.current.value < |f.gens|)
    && (forall gen :: 0 <= gen < |f.gens| ==> StatusOk(f, gen))
    && (forall gen :: 0 <= gen < |f.gens| ==> NotForgotten(f, jobs, gen))
    && (forall id :: id in jobs ==> PhaseOk(f, jobs[id]))
  }

  predicate Idle(s: State) {
    s.jobs == map[] && s.line.queue == []
  }

  predicate Asked(f: Fleet, gen: nat) {
    gen < |f.gens| && f.gens[gen].asked
  }

  predicate HasClosed(f: Fleet, gen: nat) {
    gen < |f.gens| && f.gens[gen].closed
  }

  predicate CloserOk(s: State) {
    && (s.closer.Open? ==> s.closeActions == 0)
    && (s.closer.Requested? ==> s.closeActions == 0 && !Idle(s))
    && (!s.closer.Open? && !s.closer.Requested? ==> s.closeActions == 1 && Idle(s))
    && (s.closer.Awaiting? && s.fleet.current.Some? ==> s.closer.requester == s.fleet.current)
    && (s.closer.Awaiting? && s.closer.requester.Some? ==> Known(s.fleet, s.closer.requester.value))
    && (s.closer.Stopping? ==> Asked(s.fleet, s.closer.gen))
    && (s.closer.Stopping? && s.fleet.current.Some? ==> s.fleet.current == Some(s.closer.gen))
    && (s.closer.Closed? && s.fleet.current.Some? ==> HasClosed(s.fleet, s.fleet.current.value))
  }

  ghost predicate Inv(c: Capacity, s: State) {
    && Ordered(s.line)
    && SettledOnce(s.line, s.jobs.Keys)
    && Bounded(c, s.line, |s.jobs|)
    && FleetOk(s.fleet, s.jobs)
    && CloserOk(s)
  }

  // ------------------------------------------------------------------- order

  lemma {:induction false} KeptHas(admitted: nat, withdrawn: set<nat>, id: nat)
    ensures id in Kept(admitted, withdrawn) <==> id < admitted && id !in withdrawn
    decreases admitted
  {
    if admitted > 0 {
      KeptHas(admitted - 1, withdrawn, id);
    }
  }

  lemma {:induction false} KeptIncreases(admitted: nat, withdrawn: set<nat>, i: nat, j: nat)
    requires i < j < |Kept(admitted, withdrawn)|
    ensures Kept(admitted, withdrawn)[i] < Kept(admitted, withdrawn)[j]
    decreases admitted
  {
    var before := Kept(admitted - 1, withdrawn);
    if j < |before| {
      KeptIncreases(admitted - 1, withdrawn, i, j);
    } else {
      KeptHas(admitted - 1, withdrawn, before[i]);
    }
  }

  lemma {:induction false} KeptIrrelevant(admitted: nat, withdrawn: set<nat>, id: nat)
    requires admitted <= id
    ensures Kept(admitted, withdrawn + {id}) == Kept(admitted, withdrawn)
    decreases admitted
  {
    if admitted > 0 {
      KeptIrrelevant(admitted - 1, withdrawn, id);
    }
  }

  /** Withdrawing a job takes it, and only it, out of the order. */
  lemma {:induction false} KeptWithdraw(admitted: nat, withdrawn: set<nat>, a: seq<nat>, id: nat, b: seq<nat>)
    requires Kept(admitted, withdrawn) == a + [id] + b
    ensures Kept(admitted, withdrawn + {id}) == a + b
    decreases admitted
  {
    assert id == Kept(admitted, withdrawn)[|a|];
    KeptHas(admitted, withdrawn, id);
    var last := admitted - 1;
    var before := Kept(last, withdrawn);
    if last in withdrawn {
      KeptWithdraw(last, withdrawn, a, id, b);
    } else if b == [] {
      assert before == a && id == last by { LastOf(before, last, a, id); }
      KeptIrrelevant(last, withdrawn, last);
      assert a + b == a;
    } else {
      var n := |b| - 1;
      LastOf(before, last, a + [id] + b[..n], b[n]);
      KeptWithdraw(last, withdrawn, a, id, b[..n]);
      assert id in before by { assert before[|a|] == id; }
      KeptHas(last, withdrawn, id);
      assert a + b[..n] + [last] == a + b;
    }
  }

  lemma LastOf(s: seq<nat>, x: nat, t: seq<nat>, y: nat)
    requires s + [x] == t + [y] || s + [x] == t[..|t|] + [y] + []
    ensures s == t && x == y
  {
    assert |s| == |t|;
    assert (s + [x])[..|s|] == s && (t + [y])[..|t|] == t;
  }

  /** What is in front of the queue was never started or withdrawn, and nothing stands in it twice. */
  lemma QueuedIsFresh(line: Line, i: nat)
    requires Ordered(line) && i < |line.queue|
    ensures line.queue[i] !in line.started && line.queue[i] !in line.withdrawn && line.queue[i] < line.admitted
  {
    var all, at := line.started + line.queue, |line.started| + i;
    assert all[at] == line.queue[i];
    KeptHas(line.admitted, line.withdrawn, line.queue[i]);
    forall j | 0 <= j < |line.started|
      ensures line.started[j] != line.queue[i]
    {
      KeptIncreases(line.admitted, line.withdrawn, j, at);
      assert all[j] == line.started[j];
    }
  }

  lemma StartKeepsOrder(line: Line)
    requires Ordered(line) && line.queue != []
    ensures Ordered(line.(queue := line.queue[1..], started := line.started + [line.queue[0]]))
  {
    assert line.started + [line.queue[0]] + line.queue[1..] == line.started + line.queue;
  }

  lemma EnqueueKeepsOrder(line: Line)
    requires Ordered(line)
    ensures Ordered(line.(queue := line.queue + [line.admitted], admitted := line.admitted + 1))
  {
    assert line.started + (line.queue + [line.admitted]) == line.started + line.queue + [line.admitted];
  }

  lemma WithdrawKeepsOrder(line: Line, i: nat)
    requires Ordered(line) && i < |line.queue|
    ensures Ordered(Withdraw(line, i))
  {
    QueuedIsFresh(line, i);
    var a, id, b := line.started + line.queue[..i], line.queue[i], line.queue[i + 1..];
    assert line.started + line.queue == a + [id] + b;
    KeptWithdraw(line.admitted, line.withdrawn, a, id, b);
    assert a + b == line.started + (line.queue[..i] + line.queue[i + 1..]);
  }

  // ------------------------------------------------------------- settlements

  lemma StartSettlesNothing(line: Line, running: set<nat>)
    requires Ordered(line) && SettledOnce(line, running) && line.queue != []
    ensures SettledOnce(line.(queue := line.queue[1..], started := line.started + [line.queue[0]]),
        running + {line.queue[0]})
  {
    QueuedIsFresh(line, 0);
    var id, after := line.queue[0], line.(queue := line.queue[1..], started := line.started + [line.queue[0]]);
    forall x: nat ensures Over(after, running + {id}, x) == Over(line, running, x) {
    }
  }

  lemma WithdrawSettlesOne(line: Line, running: set<nat>, i: nat)
    requires Ordered(line) && SettledOnce(line, running) && i < |line.queue|
    ensures SettledOnce(Withdraw(line, i), running)
  {
    QueuedIsFresh(line, i);
    var id, after := line.queue[i], Withdraw(line, i);
    assert id !in running;
    forall x: nat ensures Over(after, running, x) == (x == id || Over(line, running, x)) {
    }
    assert !Over(line, running, id);
  }

  lemma FinishSettlesOne(line: Line, running: set<nat>, id: nat)
    requires Ordered(line) && SettledOnce(line, running) && id in running
    ensures SettledOnce(line.(settled := line.settled + multiset{id}), running - {id})
  {
    var after := line.(settled := line.settled + multiset{id});
    assert id !in line.withdrawn by {
      var k :| 0 <= k < |line.started| && line.started[k] == id;
      assert (line.started + line.queue)[k] == id;
      KeptHas(line.admitted, line.withdrawn, id);
    }
    forall x: nat ensures Over(after, running - {id}, x) == (x == id || Over(line, running, x)) {
    }
    assert !Over(line, running, id);
  }

  // ------------------------------------------------------------------- fleet

  lemma StillRetired(jobs: map<nat, Phase>, id: nat, phase: Phase, gen: nat)
    requires BeingRetired(jobs, gen) && (id in jobs ==> jobs[id] != Retiring(gen))
    ensures BeingRetired(jobs[id := phase], gen)
  {
    var other :| other in jobs && jobs[other] == Retiring(gen);
    assert jobs[id := phase][other] == Retiring(gen);
  }

  /** A job that is not retiring a supervisor may move to any admissible phase. */
  lemma MoveKeepsFleet(f: Fleet, jobs: map<nat, Phase>, id: nat, phase: Phase)
    requires FleetOk(f, jobs) && PhaseOk(f, phase)
    requires id in jobs ==> !jobs[id].Retiring?
    ensures FleetOk(f, jobs[id := phase])
  {
    var after := jobs[id := phase];
    forall gen | 0 <= gen < |f.gens|
      ensures NotForgotten(f, after, gen)
    {
      assert NotForgotten(f, jobs, gen);
      if BeingRetired(jobs, gen) {
        StillRetired(jobs, id, phase, gen);
      }
    }
  }

  lemma LeaveKeepsFleet(f: Fleet, jobs: map<nat, Phase>, id: nat)
    requires FleetOk(f, jobs) && id in jobs && jobs[id].Done?
    ensures FleetOk(f, jobs - {id})
  {
    var after := jobs - {id};
    forall gen | 0 <= gen < |f.gens|
      ensures NotForgotten(f, after, gen)
    {
      assert NotForgotten(f, jobs, gen);
      if BeingRetired(jobs, gen) {
        var other :| other in jobs && jobs[other] == Retiring(gen);
        assert after[other] == Retiring(gen);
      }
    }
  }

  /** Supervisors only move forward, so no job's phase becomes inadmissible. */
  ghost predicate Forward(f: Fleet, g: Fleet) {
    && |f.gens| <= |g.gens|
    && forall i :: 0 <= i < |f.gens| ==>
         && (f.gens[i].status == Up ==> g.gens[i].status == Up)
         && (f.gens[i].asked ==> g.gens[i].asked)
         && (f.gens[i].closed ==> g.gens[i].closed)
  }

  lemma ForwardKeepsPhases(f: Fleet, g: Fleet, jobs: map<nat, Phase>)
    requires Forward(f, g) && forall id :: id in jobs ==> PhaseOk(f, jobs[id])
    ensures forall id :: id in jobs ==> PhaseOk(g, jobs[id])
  {
  }

  lemma RequesterKeepsFleet(f: Fleet, jobs: map<nat, Phase>)
    requires FleetOk(f, jobs)
    ensures var (g, gen) := GetRequester(f); FleetOk(g, jobs) && gen < |g.gens| && g.current == Some(gen)
  {
    var (g, gen) := GetRequester(f);
    ForwardKeepsPhases(f, g, jobs);
    forall i | 0 <= i < |g.gens| ensures StatusOk(g, i) && NotForgotten(g, jobs, i) {
      if i < |f.gens| {
        assert StatusOk(f, i) && NotForgotten(f, jobs, i);
      }
    }
  }

  lemma StartupKeepsFleet(f: Fleet, jobs: map<nat, Phase>, gen: nat, ok: bool)
    requires FleetOk(f, jobs) && gen < |f.gens| && f.gens[gen].status == Starting
    ensures FleetOk(SettleStartup(f, gen, ok), jobs)
  {
    var g := SettleStartup(f, gen, ok);
    ForwardKeepsPhases(f, g, jobs);
    assert StatusOk(f, gen);
    forall i | 0 <= i < |g.gens| ensures StatusOk(g, i) && NotForgotten(g, jobs, i) {
      assert StatusOk(f, i) && NotForgotten(f, jobs, i);
    }
  }

  lemma RetireKeepsFleet(f: Fleet, jobs: map<nat, Phase>, id: nat, gen: nat)
    requires FleetOk(f, jobs) && id in jobs && jobs[id] == Requesting(gen)
    ensures FleetOk(Retire(f, gen), jobs[id := Retiring(gen)])
  {
    var g, after := Retire(f, gen), jobs[id := Retiring(gen)];
    assert PhaseOk(f, jobs[id]);
    ForwardKeepsPhases(f, g, jobs);
    assert BeingRetired(after, gen) by { assert after[id] == Retiring(gen); }
    forall i | 0 <= i < |g.gens| ensures StatusOk(g, i) && NotForgotten(g, after, i) {
      assert StatusOk(f, i) && NotForgotten(f, jobs, i);
      if BeingRetired(jobs, i) {
        StillRetired(jobs, id, Retiring(gen), i);
      }
    }
  }

  lemma AskKeepsFleet(f: Fleet, jobs: map<nat, Phase>, after: map<nat, Phase>, gen: nat)
    requires FleetOk(f, jobs) && gen < |f.gens| && f.gens[gen].status == Up
    requires forall id :: id in after ==> PhaseOk(AskToClose(f, gen), after[id])
    requires forall i :: i != gen && BeingRetired(jobs, i) ==> BeingRetired(after, i)
    ensures FleetOk(AskToClose(f, gen), after)
  {
    var g := AskToClose(f, gen);
    forall i | 0 <= i < |g.gens| ensures StatusOk(g, i) && NotForgotten(g, after, i) {
      assert StatusOk(f, i) && NotForgotten(f, jobs, i);
    }
  }

  lemma RetirementKeepsFleet(f: Fleet, jobs: map<nat, Phase>, id: nat, gen: nat)
    requires FleetOk(f, jobs) && id in jobs && jobs[id] == Retiring(gen)
    ensures FleetOk(AskToClose(f, gen), jobs[id := Closing(gen)])
  {
    assert PhaseOk(f, jobs[id]);
    var g, after := AskToClose(f, gen), jobs[id := Closing(gen)];
    ForwardKeepsPhases(f, g, jobs);
    forall i | i != gen && BeingRetired(jobs, i) ensures BeingRetired(after, i) {
      StillRetired(jobs, id, Closing(gen), i);
    }
    AskKeepsFleet(f, jobs, after, gen);
  }

  lemma CloseKeepsFleet(f: Fleet, jobs: map<nat, Phase>, gen: nat)
    requires FleetOk(f, jobs) && Asked(f, gen)
    ensures FleetOk(SettleClose(f, gen), jobs)
  {
    var g := SettleClose(f, gen);
    ForwardKeepsPhases(f, g, jobs);
    forall i | 0 <= i < |g.gens| ensures StatusOk(g, i) && NotForgotten(g, jobs, i) {
      assert StatusOk(f, i) && NotForgotten(f, jobs, i);
    }
  }

  // -------------------------------------------------------------- queue steps

  /** What holds between pushing an entry or freeing a slot and the end of `Pump`. */
  ghost predicate Pumping(c: Capacity, s: State) {
    && Ordered(s.line)
    && SettledOnce(s.line, s.jobs.Keys)
    && |s.jobs| <= c.maxInFlight
    && FleetOk(s.fleet, s.jobs)
  }

  lemma StartKeeps(c: Capacity, s: State)
    requires Pumping(c, s) && |s.jobs| < c.maxInFlight && s.line.queue != []
    ensures Pumping(c, StartNext(s)) && |StartNext(s).jobs| == |s.jobs| + 1
  {
    var id, t := s.line.queue[0], StartNext(s);
    QueuedIsFresh(s.line, 0);
    StartKeepsOrder(s.line);
    StartSettlesNothing(s.line, s.jobs.Keys);
    MoveKeepsFleet(s.fleet, s.jobs, id, Preparing);
    assert id !in s.jobs;
    assert t.jobs.Keys == s.jobs.Keys + {id};
  }

  /** What `Pump` leaves alone. */
  predicate SameBut(s: State, t: State) {
    && t.fleet == s.fleet && t.closer == s.closer && t.closeActions == s.closeActions
    && t.line.admitted == s.line.admitted && t.line.withdrawn == s.line.withdrawn && t.line.settled == s.line.settled
  }

  /** Pumping fills every free slot from the front of the queue. */
  lemma {:induction false} PumpFills(c: Capacity, s: State)
    requires Pumping(c, s)
    ensures Pumping(c, Pump(c, s)) && SameBut(s, Pump(c, s))
    ensures Pump(c, s).line.queue != [] ==> |Pump(c, s).jobs| == c.maxInFlight
    ensures |Pump(c, s).line.queue| + |Pump(c, s).jobs| == |s.line.queue| + |s.jobs|
    decreases |s.line.queue|
  {
    if |s.jobs| < c.maxInFlight && s.line.queue != [] {
      StartKeeps(c, s);
      hide Pumping;
      PumpFills(c, StartNext(s));
    }
  }

  lemma EnqueueIsPumping(c: Capacity, s: State)
    requires Inv(c, s)
    ensures Pumping(c, Enqueue(s))
  {
    var t := Enqueue(s);
    EnqueueKeepsOrder(s.line);
    assert forall id :: Over(t.line, s.jobs.Keys, id) == Over(s.line, s.jobs.Keys, id);
    assert SettledOnce(t.line, t.jobs.Keys);
  }

  lemma LeaveIsPumping(c: Capacity, s: State, id: nat)
    requires Inv(c, s) && id in s.jobs && s.jobs[id].Done?
    ensures Pumping(c, Leave(s, id)) && |Leave(s, id).jobs| == |s.jobs| - 1
  {
    var t := Leave(s, id);
    assert t.jobs.Keys == s.jobs.Keys - {id};
    FinishSettlesOne(s.line, s.jobs.Keys, id);
    LeaveKeepsFleet(s.fleet, s.jobs, id);
    hide SettledOnce, FleetOk;
  }

  lemma CloseCheckKeeps(c: Capacity, s: State)
    requires Pumping(c, s) && Bounded(c, s.line, |s.jobs|)
    requires (s.closer == Requested && s.closeActions == 0) || CloserOk(s)
    ensures Inv(c, FinishCloseIfIdle(s))
  {
    assert s.fleet.current.Some? ==> Known(s.fleet, s.fleet.current.value);
    hide Ordered, SettledOnce, FleetOk, Bounded;
  }

  lemma RunKeeps(c: Capacity, s: State, aborted: bool)
    requires ValidCapacity(c) && Inv(c, s)
    ensures Inv(c, Run(c, s, aborted))
  {
    if Judge(c, s, aborted).Admitted? {
      EnqueueIsPumping(c, s);
      PumpFills(c, Enqueue(s));
      hide Ordered, SettledOnce, FleetOk, Pump;
    }
  }

  lemma AbortKeeps(c: Capacity, s: State, id: nat)
    requires Inv(c, s)
    ensures Inv(c, Abort(s, id))
  {
    var i := IndexOf(s.line.queue, id);
    if i < |s.line.queue| {
      WithdrawKeepsOrder(s.line, i);
      WithdrawSettlesOne(s.line, s.jobs.Keys, i);
      CloserBusy(s);
      hide Ordered, SettledOnce, FleetOk;
      CloseCheckKeeps(c, s.(line := Withdraw(s.line, i)));
    }
  }

  lemma CloserBusy(s: State)
    requires CloserOk(s) && !Idle(s)
    ensures (s.closer == Open || s.closer == Requested) && s.closeActions == 0
  {
  }

  lemma CloseKeeps(c: Capacity, s: State)
    requires Inv(c, s)
    ensures Inv(c, Close(s))
  {
    if s.closer == Open {
      hide Ordered, SettledOnce, FleetOk, Bounded;
      CloseCheckKeeps(c, s.(closer := Requested));
    }
  }

  lemma FinishKeeps(c: Capacity, s: State, id: nat)
    requires ValidCapacity(c) && Inv(c, s) && id in s.jobs && s.jobs[id].Done?
    ensures Inv(c, Finish(c, s, id))
  {
    var t := Leave(s, id);
    LeaveIsPumping(c, s, id);
    CloserBusy(s);
    hide SettledOnce, FleetOk, Pump;
    PumpFills(c, t);
    hide Ordered;
    CloseCheckKeeps(c, Pump(c, t));
  }

  // ---------------------------------------------------------- supervisor steps

  /** A step of a running job that keeps it running. */
  lemma MovedJobKeeps(c: Capacity, s: State, t: State, id: nat, phase: Phase)
    requires Inv(c, s) && id in s.jobs
    requires t == Become(s.(fleet := t.fleet), id, phase) && FleetOk(t.fleet, t.jobs)
    ensures Inv(c, t)
  {
    assert t.jobs.Keys == s.jobs.Keys;
    assert |t.jobs| == |s.jobs|;
    CloserBusy(s);
    hide Ordered, SettledOnce, FleetOk, Bounded;
  }

  lemma ProgressKeeps(c: Capacity, s: State, id: nat, e: Event)
    requires Inv(c, s) && id in s.jobs && OfJob(e)
    ensures Inv(c, Progress(s, id, e))
  {
    var f, jobs, phase, t := s.fleet, s.jobs, s.jobs[id], Progress(s, id, e);
    assert PhaseOk(f, phase);
    if t != s {
      if e.WorkspaceReady? {
        var (g, gen) := GetRequester(f);
        RequesterKeepsFleet(f, jobs);
        MoveKeepsFleet(g, jobs, id, Waiting(gen));
        MovedJobKeeps(c, s, t, id, Waiting(gen));
      } else if e.SupervisorLost? {
        RetireKeepsFleet(f, jobs, id, phase.gen);
        MovedJobKeeps(c, s, t, id, Retiring(phase.gen));
      } else if e.RetirementGoesOn? {
        RetirementKeepsFleet(f, jobs, id, phase.gen);
        MovedJobKeeps(c, s, t, id, Closing(phase.gen));
      } else {
        MoveKeepsFleet(f, jobs, id, t.jobs[id]);
        MovedJobKeeps(c, s, t, id, t.jobs[id]);
      }
    }
  }

  /** A step of a supervisor process, jobs aside. */
  lemma FleetStepKeeps(c: Capacity, s: State, g: Fleet)
    requires Inv(c, s) && FleetOk(g, s.jobs) && |s.fleet.gens| <= |g.gens|
    requires g.current == s.fleet.current || g.current == None
    requires forall gen :: Asked(s.fleet, gen) ==> Asked(g, gen)
    requires forall gen :: HasClosed(s.fleet, gen) ==> HasClosed(g, gen)
    ensures Inv(c, s.(fleet := g))
  {
    hide Ordered, SettledOnce, FleetOk, Bounded, Asked;
  }

  lemma StopKeeps(c: Capacity, s: State)
    requires Inv(c, s)
    ensures Inv(c, StopSupervisor(s))
  {
    var f, t := s.fleet, StopSupervisor(s);
    if t != s && s.closer.Awaiting? && s.closer.requester.Some? && t.closer.Stopping? {
      var gen := s.closer.requester.value;
      assert StatusOk(f, gen);
      ForwardKeepsPhases(f, t.fleet, s.jobs);
      AskKeepsFleet(f, s.jobs, s.jobs, gen);
    }
    if s.closer.Awaiting? && f.current.Some? {
      assert StatusOk(f, f.current.value);
    }
    hide Ordered, SettledOnce, FleetOk, Bounded;
  }

  lemma StepKeepsInv(c: Capacity, s: State, e: Event)
    requires ValidCapacity(c) && Inv(c, s)
    ensures Inv(c, Step(c, s, e))
  {
    hide Inv, Progress, Run, Abort, Close, Finish, StopSupervisor;
    if OfJob(e) {
      if e.id in s.jobs { ProgressKeeps(c, s, e.id, e); }
    } else {
      match e
      case RunCalled(aborted) => RunKeeps(c, s, aborted);
      case AbortSignalled(id) => AbortKeeps(c, s, id);
      case CloseCalled => CloseKeeps(c, s);
      case StartupSettled(gen, ok) => StartupStepKeeps(c, s, gen, ok);
      case CloseSettled(gen) => CloseStepKeeps(c, s, gen);
      case Finished(id) => if id in s.jobs && s.jobs[id].Done? { FinishKeeps(c, s, id); }
      case CloserGoesOn => StopKeeps(c, s);
      case _ =>
    }
  }

  lemma StartupStepKeeps(c: Capacity, s: State, gen: nat, ok: bool)
    requires Inv(c, s)
    ensures Inv(c, Step(c, s, StartupSettled(gen, ok)))
  {
    if Known(s.fleet, gen) && s.fleet.gens[gen].status == Starting {
      assert StatusOk(s.fleet, gen);
      StartupKeepsFleet(s.fleet, s.jobs, gen, ok);
      hide FleetOk;
      FleetStepKeeps(c, s, SettleStartup(s.fleet, gen, ok));
    }
  }

  lemma CloseStepKeeps(c: Capacity, s: State, gen: nat)
    requires Inv(c, s)
    ensures Inv(c, Step(c, s, CloseSettled(gen)))
  {
    if Known(s.fleet, gen) && s.fleet.gens[gen].asked {
      CloseKeepsFleet(s.fleet, s.jobs, gen);
      hide FleetOk;
      FleetStepKeeps(c, s, SettleClose(s.fleet, gen));
    }
  }

  lemma InitialInv(c: Capacity)
    requires ValidCapacity(c)
    ensures Inv(c, INITIAL)
  {
  }

  lemma {:induction false} EveryRunKeepsInv(c: Capacity, s: State, events: seq<Event>)
    requires ValidCapacity(c) && Inv(c, s)
    ensures Inv(c, Play(c, s, events))
    decreases |events|
  {
    hide Inv, Step;
    if events != [] {
      StepKeepsInv(c, s, events[0]);
      EveryRunKeepsInv(c, Step(c, s, events[0]), events[1..]);
    }
  }

  // ------------------------------------------------------------ main results

  /** The states a sandbox can get into. */
  ghost predicate Reachable(c: Capacity, s: State) {
    ValidCapacity(c) && exists events :: s == Play(c, INITIAL, events)
  }

  lemma ReachableIsSafe(c: Capacity, s: State)
    requires Reachable(c, s)
    ensures Inv(c, s)
  {
    hide Inv, Play;
    var events :| s == Play(c, INITIAL, events);
    InitialInv(c);
    EveryRunKeepsInv(c, INITIAL, events);
  }

  /** Bounds, order of starts, and at most one settlement per job, in every reachable state. */
  lemma QueueDiscipline(c: Capacity, s: State)
    requires Reachable(c, s)
    ensures |s.jobs| <= c.maxInFlight && |s.line.queue| <= c.maxQueue
    ensures s.line.queue != [] ==> |s.jobs| == c.maxInFlight && c.overload == Wait
    ensures forall i, j :: 0 <= i < j < |s.line.started| ==> s.line.started[i] < s.line.started[j]
    ensures forall id: nat ::
              id < s.line.admitted <==> (id in s.line.started || id in s.line.queue || id in s.line.withdrawn)
    ensures forall id :: id in s.line.withdrawn ==> id !in s.line.started && id !in s.line.queue
    ensures forall id: nat :: s.line.settled[id] <= 1
    ensures forall id: nat :: s.line.settled[id] == 1 <==> Over(s.line, s.jobs.Keys, id)
  {
    ReachableIsSafe(c, s);
    var line := s.line;
    var all := line.started + line.queue;
    forall i, j | 0 <= i < j < |line.started|
      ensures line.started[i] < line.started[j]
    {
      KeptIncreases(line.admitted, line.withdrawn, i, j);
      assert all[i] == line.started[i] && all[j] == line.started[j];
    }
    forall id: nat
      ensures (id in line.started || id in line.queue) <==> id < line.admitted && id !in line.withdrawn
    {
      KeptHas(line.admitted, line.withdrawn, id);
      assert id in all <==> id in line.started || id in line.queue;
    }
  }

  /** A call that is not refused: the new job starts if a slot is free, and else it stands last in the queue. */
  lemma AdmittedJobIsPlaced(c: Capacity, s: State)
    requires ValidCapacity(c) && Inv(c, s)
    ensures var id, t := s.line.admitted, Pump(c, Enqueue(s));
      && t.line.admitted == id + 1 && t.fleet == s.fleet && t.closer == s.closer
      && t.line.settled == s.line.settled && t.line.withdrawn == s.line.withdrawn
      && id !in s.jobs && id !in s.line.queue
      && (|s.jobs| < c.maxInFlight ==>
            t.jobs == s.jobs[id := Preparing] && t.line.queue == [] && t.line.started == s.line.started + [id])
      && (|s.jobs| == c.maxInFlight ==>
            t.jobs == s.jobs && t.line.queue == s.line.queue + [id] && t.line.started == s.line.started)
  {
    var id, t := s.line.admitted, Enqueue(s);
    NewIdIsFresh(s);
    hide Ordered, SettledOnce, FleetOk, CloserOk;
    if |s.jobs| < c.maxInFlight {
      assert s.line.queue == [] && t.line.queue == [id];
      assert StartNext(t).line.queue == [];
      assert Pump(c, StartNext(t)) == StartNext(t);
    }
  }

  lemma NewIdIsFresh(s: State)
    requires Ordered(s.line) && SettledOnce(s.line, s.jobs.Keys)
    ensures s.line.admitted !in s.jobs && s.line.admitted !in s.line.queue
  {
    var id, all := s.line.admitted, s.line.started + s.line.queue;
    KeptHas(s.line.admitted, s.line.withdrawn, id);
    assert id in all <==> id in s.line.started || id in s.line.queue;
  }

  /**
   What `run` answers, and when: refused once `close` was called; else cancelled if the
   signal has fired; else refused if all slots are taken and no job may wait, or the queue
   is full; else the job is started or queued.
   */
  lemma RunAnswers(c: Capacity, s: State, aborted: bool)
    requires Reachable(c, s)
    ensures var r := Judge(c, s, aborted);
      && (r == Unavailable <==> s.closer != Open)
      && (r == Cancelled <==> s.closer == Open && aborted)
      && (r == CapacityExceeded <==>
            && s.closer == Open && !aborted && |s.jobs| == c.maxInFlight
            && (c.overload == Reject || |s.line.queue| == c.maxQueue))
      && (r.Admitted? ==> r.id == s.line.admitted)
    ensures var r, t := Judge(c, s, aborted), Step(c, s, RunCalled(aborted));
      && (!r.Admitted? ==> t == s)
      && (r.Admitted? && |s.jobs| < c.maxInFlight ==>
            t.jobs == s.jobs[r.id := Preparing] && t.line.started == s.line.started + [r.id] && t.line.queue == [])
      && (r.Admitted? && |s.jobs| == c.maxInFlight ==>
            t.jobs == s.jobs && t.line.started == s.line.started && t.line.queue == s.line.queue + [r.id])
  {
    ReachableIsSafe(c, s);
    AdmittedJobIsPlaced(c, s);
    hide Ordered, SettledOnce, FleetOk, CloserOk, Pump, Reachable;
  }

  /** Aborting a queued job takes it out of its place and settles it; aborting any other job changes nothing. */
  lemma AbortWithdraws(c: Capacity, s: State, id: nat)
    requires Reachable(c, s)
    ensures id !in s.line.queue ==> Step(c, s, AbortSignalled(id)) == s
    ensures id in s.line.queue ==>
      var t := Step(c, s, AbortSignalled(id));
      && (exists i :: 0 <= i < |s.line.queue| && s.line.queue[i] == id && t.line.queue == RemoveAt(s.line.queue, i))
      && id !in t.line.queue && id in t.line.withdrawn && s.line.settled[id] == 0 && t.line.settled[id] == 1
      && t.jobs == s.jobs && t.line.started == s.line.started && t.line.admitted == s.line.admitted
      && t.fleet == s.fleet
  {
    ReachableIsSafe(c, s);
    hide Reachable, Inv;
    if id in s.line.queue {
      var i := IndexOf(s.line.queue, id);
      AbortKeeps(c, s, id);
      WithdrawnOnce(c, s, i);
      assert Abort(s, id).line == Withdraw(s.line, i);
      assert s.line.queue[i] == id;
    }
  }

  lemma WithdrawnOnce(c: Capacity, s: State, i: nat)
    requires Inv(c, s) && i < |s.line.queue|
    ensures var id, t := s.line.queue[i], Withdraw(s.line, i);
      id !in t.queue && s.line.settled[id] == 0 && t.settled[id] == 1
  {
    var id := s.line.queue[i];
    QueuedIsFresh(s.line, i);
    assert !Over(s.line, s.jobs.Keys, id);
    forall j | 0 <= j < |s.line.queue| && j != i
      ensures s.line.queue[j] != id
    {
      QueuedOnce(s.line, i, j);
    }
  }

  lemma QueuedOnce(line: Line, i: nat, j: nat)
    requires Ordered(line) && i < |line.queue| && j < |line.queue| && i != j
    ensures line.queue[i] != line.queue[j]
  {
    var all, n := line.started + line.queue, |line.started|;
    assert all[n + i] == line.queue[i] && all[n + j] == line.queue[j];
    KeptIncreases(line.admitted, line.withdrawn, if i < j then n + i else n + j, if i < j then n + j else n + i);
  }

  /** `close` is accepted once, and fires its action at once if nothing runs or waits. */
  lemma CloseIsAccepted(c: Capacity, s: State)
    requires Reachable(c, s)
    ensures var t := Step(c, s, CloseCalled);
      && !t.closer.Open? && t.line == s.line && t.jobs == s.jobs && t.fleet == s.fleet
      && (!s.closer.Open? ==> t == s)
      && (s.closer.Open? ==>
            t.closer == if s.jobs == map[] && s.line.queue == [] then Awaiting(s.fleet.current) else Requested)
  {
    ReachableIsSafe(c, s);
    hide Reachable, Inv;
  }

  /** The close action has fired, once, exactly when `close` was called and nothing runs or waits. */
  lemma CloseActionFiresWhenIdle(c: Capacity, s: State)
    requires Reachable(c, s)
    ensures s.closeActions == if s.closer != Open && s.jobs == map[] && s.line.queue == [] then 1 else 0
  {
    ReachableIsSafe(c, s);
  }

  /** Once the close action has fired nothing starts, settles or fires again. */
  lemma NothingAfterCloseAction(c: Capacity, s: State, e: Event)
    requires Inv(c, s) && s.closeActions > 0
    ensures var t := Step(c, s, e);
            t.line == s.line && t.jobs == s.jobs == map[] && t.closeActions == s.closeActions == 1
  {
    hide Ordered, SettledOnce, Bounded, FleetOk, AskToClose, SettleClose, SettleStartup, Pump;
    assert IndexOf([], if e.AbortSignalled? then e.id else 0) == 0;
  }

  lemma {:induction false} NoStartAfterCloseAction(c: Capacity, s: State, events: seq<Event>)
    requires ValidCapacity(c) && Inv(c, s) && s.closeActions > 0
    ensures var t := Play(c, s, events); t.line == s.line && t.jobs == map[] && t.closeActions == 1
    decreases |events|
  {
    if events == [] {
      NothingAfterCloseAction(c, s, CloserGoesOn);
    } else {
      NothingAfterCloseAction(c, s, events[0]);
      StepKeepsInv(c, s, events[0]);
      hide Inv, Step;
      NoStartAfterCloseAction(c, Step(c, s, events[0]), events[1..]);
    }
  }

  /** When `close` settles, every supervisor that ever came up was asked to close and none is still starting. */
  lemma CloseReachesEverySupervisor(c: Capacity, s: State, gen: nat)
    requires Reachable(c, s) && s.closer == Closed && gen < |s.fleet.gens|
    ensures s.fleet.gens[gen].status != Starting
    ensures s.fleet.gens[gen].status == Up ==> s.fleet.gens[gen].asked
    ensures s.fleet.current == Some(gen) ==> s.fleet.gens[gen].closed
  {
    ReachableIsSafe(c, s);
    assert StatusOk(s.fleet, gen) && NotForgotten(s.fleet, s.jobs, gen);
  }

  /** The current supervisor is only discarded by its own failed startup or its own failed request. */
  lemma LateFailureKeepsReplacement(c: Capacity, s: State, e: Event, gen: nat)
    requires s.fleet.current == Some(gen)
    ensures Step(c, s, e).fleet.current != Some(gen) ==>
              || e == StartupSettled(gen, false)
              || (e.SupervisorLost? && InPhase(s, e.id, Requesting(gen)))
  {
    if e.RunCalled? || e.Finished? {
      RunOrFinishKeepsFleet(c, s, e);
    }
    hide Pump, Run, Finish;
  }

  lemma {:induction false} PumpKeepsFleet(c: Capacity, s: State)
    ensures Pump(c, s).fleet == s.fleet
    decreases |s.line.queue|
  {
    if |s.jobs| < c.maxInFlight && s.line.queue != [] {
      PumpKeepsFleet(c, StartNext(s));
    }
  }

  lemma RunOrFinishKeepsFleet(c: Capacity, s: State, e: Event)
    requires e.RunCalled? || e.Finished?
    ensures Step(c, s, e).fleet == s.fleet
  {
    if e.RunCalled? {
      PumpKeepsFleet(c, Enqueue(s));
    } else {
      PumpKeepsFleet(c, Leave(s, e.id));
    }
    hide Pump;
  }

  /** Every replaced supervisor failed to start or lost a request of its own. */
  lemma ReplacedSupervisorsFailed(c: Capacity, s: State, gen: nat)
    requires Reachable(c, s) && gen < |s.fleet.gens| && s.fleet.current != Some(gen)
    ensures s.fleet.gens[gen].status == Failed || gen in s.fleet.lost
  {
    ReachableIsSafe(c, s);
    assert StatusOk(s.fleet, gen);
  }

  /** A job whose request was lost with supervisor `gen`, until it settles. */
  predicate LostTo(s: State, id: nat, gen: nat) {
    id in s.jobs && (s.jobs[id] == Retiring(gen) || s.jobs[id] == Closing(gen) || s.jobs[id] == Done(Lost(gen)))
  }

  lemma {:induction false} PumpKeepsJobs(c: Capacity, s: State, id: nat)
    requires Pumping(c, s) && id in s.jobs
    ensures id in Pump(c, s).jobs && Pump(c, s).jobs[id] == s.jobs[id]
    decreases |s.line.queue|
  {
    if |s.jobs| < c.maxInFlight && s.line.queue != [] {
      StartKeeps(c, s);
      QueuedIsFresh(s.line, 0);
      hide Pumping;
      PumpKeepsJobs(c, StartNext(s), id);
    }
  }

  lemma ClosedStaysClosed(c: Capacity, s: State, e: Event, gen: nat)
    requires HasClosed(s.fleet, gen)
    ensures HasClosed(Step(c, s, e).fleet, gen)
  {
    if e.RunCalled? || e.Finished? {
      RunOrFinishKeepsFleet(c, s, e);
    }
    hide Pump, Run, Finish;
  }

  lemma LostThroughProgress(c: Capacity, s: State, e: Event, id: nat, gen: nat)
    requires LostTo(s, id, gen) && PhaseOk(s.fleet, s.jobs[id]) && OfJob(e) && !HasClosed(s.fleet, gen)
    ensures LostTo(Step(c, s, e), id, gen)
  {
    hide GetRequester, Retire, AskToClose;
  }

  lemma LostElsewhere(c: Capacity, s: State, e: Event, id: nat)
    requires id in s.jobs && !OfJob(e) && !e.RunCalled? && !e.Finished?
    ensures id in Step(c, s, e).jobs && Step(c, s, e).jobs[id] == s.jobs[id]
  {
    hide AskToClose, SettleClose, SettleStartup, Withdraw, IndexOf;
  }

  /** One step keeps a lost job waiting unless that supervisor's close has settled. */
  lemma LostJobStep(c: Capacity, s: State, e: Event, id: nat, gen: nat)
    requires ValidCapacity(c) && Inv(c, s) && LostTo(s, id, gen)
    ensures LostTo(Step(c, s, e), id, gen) || HasClosed(s.fleet, gen)
  {
    assert PhaseOk(s.fleet, s.jobs[id]);
    if !HasClosed(s.fleet, gen) {
      hide Inv, OfJob, PhaseOk, HasClosed;
      if OfJob(e) {
        hide Step, LostTo;
        LostThroughProgress(c, s, e, id, gen);
      } else if e.RunCalled? {
        hide Run;
        LostThroughRun(c, s, e.aborted, id);
      } else if e.Finished? {
        NotOfAJob(e);
        LostFinish(c, s, e.id, id, gen);
      } else {
        hide Step;
        LostElsewhere(c, s, e, id);
      }
    }
  }

  lemma NotOfAJob(e: Event)
    requires e.Finished?
    ensures !OfJob(e)
  {
  }

  lemma LostFinish(c: Capacity, s: State, other: nat, id: nat, gen: nat)
    requires ValidCapacity(c) && Inv(c, s) && LostTo(s, id, gen)
    ensures LostTo(Step(c, s, Finished(other)), id, gen) || HasClosed(s.fleet, gen)
  {
    assert PhaseOk(s.fleet, s.jobs[id]);
    LostThroughFinish(c, s, other, id);
    hide Inv, Finish;
  }

  lemma LostThroughRun(c: Capacity, s: State, aborted: bool, id: nat)
    requires ValidCapacity(c) && Inv(c, s) && id in s.jobs
    ensures id in Run(c, s, aborted).jobs && Run(c, s, aborted).jobs[id] == s.jobs[id]
  {
    EnqueueIsPumping(c, s);
    hide Pump, Pumping, Inv;
    PumpKeepsJobs(c, Enqueue(s), id);
  }

  lemma LostThroughFinish(c: Capacity, s: State, other: nat, id: nat)
    requires ValidCapacity(c) && Inv(c, s) && id in s.jobs
    ensures other != id && other in s.jobs && s.jobs[other].Done? ==>
              id in Finish(c, s, other).jobs && Finish(c, s, other).jobs[id] == s.jobs[id]
  {
    if other != id && other in s.jobs && s.jobs[other].Done? {
      LeaveIsPumping(c, s, other);
      hide Pump, Pumping, Inv;
      PumpKeepsJobs(c, Leave(s, other), id);
    }
  }

  /** A job that lost its supervisor settles only after that supervisor's close has settled. */
  lemma {:induction false} LostJobWaitsForClose(c: Capacity, s: State, events: seq<Event>, id: nat, gen: nat)
    requires ValidCapacity(c) && Inv(c, s) && (LostTo(s, id, gen) || HasClosed(s.fleet, gen))
    ensures var t := Play(c, s, events); LostTo(t, id, gen) || HasClosed(t.fleet, gen)
    decreases |events|
  {
    if events != [] {
      var t := Step(c, s, events[0]);
      if HasClosed(s.fleet, gen) {
        ClosedStaysClosed(c, s, events[0], gen);
      } else {
        LostJobStep(c, s, events[0], id, gen);
      }
      StepKeepsInv(c, s, events[0]);
      hide Inv, Step, LostTo, HasClosed;
      LostJobWaitsForClose(c, t, events[1..], id, gen);
    }
  }

  /** While a job still runs its promise is not settled. */
  lemma RunningIsUnsettled(c: Capacity, s: State, id: nat)
    requires Inv(c, s) && id in s.jobs
    ensures s.line.settled[id] == 0
  {
    var line := s.line;
    var k :| 0 <= k < |line.started| && line.started[k] == id;
    assert (line.started + line.queue)[k] == id;
    KeptHas(line.admitted, line.withdrawn, id);
  }

  // ----------------------------------------------------- what moves a job on

  /**
   The stations of a job: with its workspace it joins the current supervisor, or the one
   that is started for it; it asks once that one is up, gives up if it could not start or
   nobody waits any more, and an answer ends it; one that loses its supervisor discards it,
   has it closed, and is over only then.
   */
  lemma JobStations(c: Capacity, s: State, id: nat)
    requires Reachable(c, s) && id in s.jobs
    ensures s.jobs[id].Preparing? ==>
      var t, n := Step(c, s, WorkspaceReady(id)), |s.fleet.gens|;
      && Step(c, s, WorkspaceFailed(id)).jobs == s.jobs[id := Done(Ordinary)]
      && (s.fleet.current.Some? ==> t.fleet == s.fleet && t.jobs == s.jobs[id := Waiting(s.fleet.current.value)])
      && (s.fleet.current.None? ==>
            && t.jobs == s.jobs[id := Waiting(n)] && t.fleet.current == Some(n)
            && t.fleet.gens == s.fleet.gens + [Generation(Starting, false, false)])
    ensures s.jobs[id].Waiting? ==>
      var gen, t := s.jobs[id].gen, Step(c, s, StartupSeen(id));
      && gen < |s.fleet.gens| && t.fleet == s.fleet
      && Step(c, s, StoppedWaiting(id)).jobs == s.jobs[id := Done(Ordinary)]
      && t.jobs == (match s.fleet.gens[gen].status
                    case Starting => s.jobs
                    case Up => s.jobs[id := Requesting(gen)]
                    case Failed => s.jobs[id := Done(Ordinary)])
    ensures s.jobs[id].Requesting? ==>
      var gen, t := s.jobs[id].gen, Step(c, s, SupervisorLost(id));
      && Step(c, s, Answered(id)).jobs == s.jobs[id := Done(Ordinary)]
      && t.jobs == s.jobs[id := Retiring(gen)] && gen in t.fleet.lost && t.fleet.gens == s.fleet.gens
      && t.fleet.current == if s.fleet.current == Some(gen) then None else s.fleet.current
    ensures s.jobs[id].Retiring? ==>
      var gen, t := s.jobs[id].gen, Step(c, s, RetirementGoesOn(id));
      && t.jobs == s.jobs[id := Closing(gen)] && |t.fleet.gens| == |s.fleet.gens| && gen < |t.fleet.gens|
      && t.fleet.gens[gen].asked
    ensures s.jobs[id].Closing? ==>
      var gen := s.jobs[id].gen;
      && gen < |s.fleet.gens|
      && Step(c, s, CloseSeen(id)).jobs == if s.fleet.gens[gen].closed then s.jobs[id := Done(Lost(gen))] else s.jobs
  {
    ReachableIsSafe(c, s);
    PhaseIsOk(c, s, id);
    hide Reachable, Inv, Pump, Run, Finish;
  }

  /** A startup that settles leaves its supervisor up, or failed and discarded if it was the current one. */
  lemma StartupOutcome(c: Capacity, s: State, gen: nat, ok: bool)
    requires Reachable(c, s) && gen < |s.fleet.gens|
    ensures var t := Step(c, s, StartupSettled(gen, ok));
      && t.line == s.line && t.jobs == s.jobs && |t.fleet.gens| == |s.fleet.gens|
      && (s.fleet.gens[gen].status != Starting ==> t == s)
      && (s.fleet.gens[gen].status == Starting ==>
            && t.fleet.gens[gen].status == (if ok then Up else Failed)
            && t.fleet.current == (if ok then Some(gen) else None))
  {
    ReachableIsSafe(c, s);
    assert StatusOk(s.fleet, gen);
    hide Reachable, Inv, Pump, Run, Finish;
  }

  // ------------------------------------------------------------ no dead ends

  /** What a started job can do next, or what can be done for it. */
  function NextFor(s: State, id: nat): Event
    requires id in s.jobs
  {
    match s.jobs[id]
    case Preparing => WorkspaceReady(id)
    case Waiting(gen) =>
      if Known(s.fleet, gen) && s.fleet.gens[gen].status == Starting then StartupSettled(gen, true) else StartupSeen(id)
    case Requesting(_) => Answered(id)
    case Retiring(_) => RetirementGoesOn(id)
    case Closing(gen) =>
      if Known(s.fleet, gen) && !s.fleet.gens[gen].closed then CloseSettled(gen) else CloseSeen(id)
    case Done(_) => Finished(id)
  }

  /** How far a job is from having finished. */
  function Distance(s: State, id: nat): nat
    requires id in s.jobs
  {
    match s.jobs[id]
    case Preparing => 6
    case Waiting(gen) => if Known(s.fleet, gen) && s.fleet.gens[gen].status == Starting then 5 else 4
    case Requesting(_) => 2
    case Retiring(_) => 4
    case Closing(gen) => if Known(s.fleet, gen) && !s.fleet.gens[gen].closed then 3 else 2
    case Done(_) => 1
  }

  lemma NextGoesOn(c: Capacity, s: State, id: nat)
    requires Inv(c, s) && id in s.jobs && !s.jobs[id].Done?
    ensures var t := Step(c, s, NextFor(s, id));
      && t.line == s.line && t.jobs.Keys == s.jobs.Keys && t.closer == s.closer
      && Distance(t, id) < Distance(s, id)
  {
    PhaseIsOk(c, s, id);
    hide Inv, Pump, Run, Finish, Ordered, SettledOnce;
  }

  lemma PhaseIsOk(c: Capacity, s: State, id: nat)
    requires Inv(c, s) && id in s.jobs
    ensures PhaseOk(s.fleet, s.jobs[id]) && (s.fleet.current.Some? ==> s.fleet.current.value < |s.fleet.gens|)
  {
  }

  lemma {:induction false} PlayOn(c: Capacity, s: State, events: seq<Event>, more: seq<Event>)
    ensures Play(c, s, events + more) == Play(c, Play(c, s, events), more)
    decreases |events|
  {
    if events == [] {
      assert [] + more == more;
    } else {
      assert (events + more)[0] == events[0] && (events + more)[1..] == events[1..] + more;
      hide Step;
      PlayOn(c, Step(c, s, events[0]), events[1..], more);
    }
  }

  lemma FinishCounts(c: Capacity, s: State, id: nat)
    requires ValidCapacity(c) && Inv(c, s) && id in s.jobs && s.jobs[id].Done?
    ensures var t := Step(c, s, Finished(id));
      && |t.line.queue| + |t.jobs| == |s.line.queue| + |s.jobs| - 1
      && (t.closer.Open? <==> s.closer.Open?)
  {
    LeaveIsPumping(c, s, id);
    PumpFills(c, Leave(s, id));
    hide Pumping, Inv, Pump;
  }

  /** A started job can always finish, in at most six steps. */
  lemma {:induction false} JobCanFinish(c: Capacity, s: State, id: nat) returns (events: seq<Event>)
    requires ValidCapacity(c) && Inv(c, s) && id in s.jobs
    ensures |events| <= Distance(s, id) <= 6
    ensures var t := Play(c, s, events);
      && Inv(c, t) && (t.closer.Open? <==> s.closer.Open?)
      && |t.line.queue| + |t.jobs| == |s.line.queue| + |s.jobs| - 1
    decreases Distance(s, id)
  {
    var e := NextFor(s, id);
    StepKeepsInv(c, s, e);
    if s.jobs[id].Done? {
      FinishCounts(c, s, id);
      events := [e];
      assert events[1..] == [];
    } else {
      NextGoesOn(c, s, id);
      hide Inv, Step, NextFor;
      var more := JobCanFinish(c, Step(c, s, e), id);
      events := [e] + more;
      assert events[0] == e && events[1..] == more;
    }
  }

  lemma NoQueueWithoutJobs(c: Capacity, s: State)
    requires ValidCapacity(c) && Inv(c, s) && s.jobs == map[]
    ensures s.line.queue == []
  {
    hide Ordered, SettledOnce, FleetOk, CloserOk;
  }

  /** So all jobs can finish. */
  lemma {:induction false} AllCanFinish(c: Capacity, s: State) returns (events: seq<Event>)
    requires ValidCapacity(c) && Inv(c, s)
    ensures var t := Play(c, s, events);
      Inv(c, t) && t.jobs == map[] && t.line.queue == [] && (t.closer.Open? <==> s.closer.Open?)
    decreases |s.line.queue| + |s.jobs|
  {
    if s.jobs == map[] {
      NoQueueWithoutJobs(c, s);
      events := [];
    } else {
      var id :| id in s.jobs;
      var first := JobCanFinish(c, s, id);
      hide Inv, Step;
      var rest := AllCanFinish(c, Play(c, s, first));
      events := first + rest;
      PlayOn(c, s, first, rest);
    }
  }

  /** What can be done next for a `close` that waits. */
  function NextForClose(s: State): Event {
    match s.closer
    case Awaiting(Some(gen)) =>
      if Known(s.fleet, gen) && s.fleet.gens[gen].status == Starting then StartupSettled(gen, true) else CloserGoesOn
    case Stopping(gen) =>
      if Known(s.fleet, gen) && !s.fleet.gens[gen].closed then CloseSettled(gen) else CloserGoesOn
    case _ => CloserGoesOn
  }

  function CloseDistance(s: State): nat {
    match s.closer
    case Awaiting(Some(gen)) => if Known(s.fleet, gen) && s.fleet.gens[gen].status == Starting then 4 else 3
    case Awaiting(None) => 1
    case Stopping(gen) => if Known(s.fleet, gen) && !s.fleet.gens[gen].closed then 2 else 1
    case _ => 0
  }

  lemma CloserKnows(c: Capacity, s: State)
    requires Inv(c, s)
    ensures s.closer.Stopping? ==> Known(s.fleet, s.closer.gen) && s.fleet.gens[s.closer.gen].asked
    ensures s.closer.Awaiting? && s.closer.requester.Some? ==> Known(s.fleet, s.closer.requester.value)
    ensures s.closer.Requested? ==> !(s.jobs == map[] && s.line.queue == [])
  {
    hide Ordered, SettledOnce, FleetOk, Bounded;
  }

  lemma CloseGoesOn(c: Capacity, s: State)
    requires Inv(c, s) && s.jobs == map[] && s.line.queue == [] && (s.closer.Stopping? || s.closer.Awaiting?)
    ensures var t := Step(c, s, NextForClose(s));
      && t.line == s.line && t.jobs == map[] && !t.closer.Open? && CloseDistance(t) < CloseDistance(s)
  {
    CloserKnows(c, s);
    hide Inv, Pump, Run, Finish;
  }

  lemma {:induction false} CloseCanSettle(c: Capacity, s: State) returns (events: seq<Event>)
    requires ValidCapacity(c) && Inv(c, s) && s.jobs == map[] && s.line.queue == []
    ensures |events| <= CloseDistance(s) <= 4
    ensures var t := Play(c, s, events);
      && Inv(c, t) && t.jobs == map[] && t.line.queue == []
      && t.closer == if s.closer.Open? then Open else Closed
    decreases CloseDistance(s)
  {
    CloserKnows(c, s);
    if s.closer.Stopping? || s.closer.Awaiting? {
      var e := NextForClose(s);
      CloseGoesOn(c, s);
      StepKeepsInv(c, s, e);
      hide Inv, Step, NextForClose;
      var more := CloseCanSettle(c, Step(c, s, e));
      events := [e] + more;
      assert events[0] == e && events[1..] == more;
    } else {
      events := [];
    }
  }

  /**
   From every reachable state everything can still come to its end: all admitted jobs
   settle, once each, and if `close` was called it settles too.
   */
  lemma EverythingCanSettle(c: Capacity, s: State) returns (events: seq<Event>)
    requires Reachable(c, s)
    ensures var t := Play(c, s, events);
      && t.jobs == map[] && t.line.queue == []
      && (forall id: nat :: id < t.line.admitted ==> t.line.settled[id] == 1)
      && t.closer == if s.closer.Open? then Open else Closed
  {
    ReachableIsSafe(c, s);
    hide Inv, Play, Reachable;
    var all := AllCanFinish(c, s);
    var u := Play(c, s, all);
    var close := CloseCanSettle(c, u);
    events := all + close;
    PlayOn(c, s, all, close);
    AllSettled(c, Play(c, u, close));
  }

  lemma AllSettled(c: Capacity, s: State)
    requires Inv(c, s) && s.jobs == map[] && s.line.queue == []
    ensures forall id: nat :: id < s.line.admitted ==> s.line.settled[id] == 1
  {
    assert s.line.started + s.line.queue == s.line.started;
    forall id: nat | id < s.line.admitted
      ensures s.line.settled[id] == 1
    {
      KeptHas(s.line.admitted, s.line.withdrawn, id);
      assert Over(s.line, s.jobs.Keys, id);
    }
  }
}
