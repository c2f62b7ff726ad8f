/**
 `RunningChild` of native/src/linux/clone.rs, the owner of one child process. Whoever lets
 go of it leaves no live child and no zombie behind, and nobody waits a second time.
 */
module ChildReaping {
  import opened Wrappers

  /** What the coming calls of `waitpid` meet; a call without `WNOHANG` does not return while the child runs. */
  datatype WaitAnswer = StillRunning | Interrupted | Exited(status: int) | Failed

  /** The first final answer of the kernel: an exit status, or an error that is not an interruption. */
  function FinalAnswer(answers: seq<WaitAnswer>): (a: WaitAnswer)
    ensures a.Exited? || a.Failed?
  {
    if answers == [] then Failed
    else if answers[0].Exited? || answers[0].Failed? then answers[0]
    else FinalAnswer(answers[1..])
  }

  /** What one call that does not wait finds out; an interruption is no answer. */
  function Looked(answers: seq<WaitAnswer>): Result<Option<int>, ()> {
    if answers == [] then Failure(())
    else
      match answers[0]
      case Exited(status) => Success(Some(status))
      case StillRunning => Success(None)
      case Interrupted => Success(None)
      case Failed => Failure(())
  }

  class Kernel {
    var answers: seq<WaitAnswer>
    /** How often the child was reaped, and the kills sent to it, each with how many answers were still to come. */
    ghost var reaps: nat
    ghost var kills: seq<nat>

    constructor (answers: seq<WaitAnswer>)
      ensures this.answers == answers && reaps == 0 && kills == []
    {
      this.answers := answers;
      reaps, kills := 0, [];
    }

    /** Not to be called once the child has been reaped: its process number may be in use again. */
    method Waitpid(noHang: bool) returns (a: WaitAnswer)
      requires reaps == 0
      modifies this`answers, this`reaps
      ensures reaps == if a.Exited? then 1 else 0
      ensures a.StillRunning? ==> noHang
      ensures a.Interrupted? || a.StillRunning? ==>
          FinalAnswer(answers) == FinalAnswer(old(answers)) && |answers| < |old(answers)|
      ensures a.Exited? || a.Failed? ==> a == FinalAnswer(old(answers))
      ensures noHang ==> if old(answers) == [] then a == Failed && answers == []
                         else a == old(answers)[0] && answers == old(answers)[1..]
    {
      while !noHang && answers != [] && answers[0].StillRunning?
        invariant FinalAnswer(answers) == FinalAnswer(old(answers)) && |answers| <= |old(answers)| && reaps == 0
        invariant noHang ==> answers == old(answers)
        decreases |answers|
      {
        answers := answers[1..];
      }
      if answers == [] {
        return Failed;
      }
      a := answers[0];
      answers := answers[1..];
      if a.Exited? {
        reaps := reaps + 1;
      }
    }

    method Kill()
      modifies this`kills
      ensures kills == old(kills) + [|answers|]
    {
      kills := kills + [|answers|];
    }
  }

  class RunningChild {
    const kernel: Kernel
    var reaped: bool

    ghost predicate Valid()
      reads this, kernel
    {
      kernel.reaps == if reaped then 1 else 0
    }

    constructor (kernel: Kernel)
      requires kernel.reaps == 0
      ensures Valid() && !reaped && this.kernel == kernel
    {
      this.kernel := kernel;
      reaped := false;
    }

    /** One look without waiting: an exit status, nothing yet, or an error. */
    method TryWait() returns (r: Result<Option<int>, ()>)
      requires Valid() && !reaped
      modifies this, kernel`answers, kernel`reaps
      ensures Valid() && (reaped <==> r.Success? && r.value.Some?)
      ensures r == Looked(old(kernel.answers))
      ensures kernel.answers == if old(kernel.answers) == [] then [] else old(kernel.answers)[1..]
    {
      var answer := kernel.Waitpid(true);
      match answer
      case Exited(status) =>
        reaped := true;
        return Success(Some(status));
      case StillRunning => return Success(None);
      case Interrupted => return Success(None);
      case Failed => return Failure(());
    }

    /** Waits for the exit and gives up the handle, whose destructor runs at the end. */
    method Wait() returns (r: Result<int, ()>)
      requires Valid() && !reaped
      modifies this, kernel
      ensures r == (match FinalAnswer(old(kernel.answers)) case Exited(status) => Success(status) case _ => Failure(()))
      ensures kernel.reaps <= 1 && (r.Success? ==> kernel.reaps == 1 && kernel.kills == old(kernel.kills))
      ensures r.Failure? ==> |kernel.kills| == |old(kernel.kills)| + 1 && old(kernel.kills) <= kernel.kills
    {
      while true
        invariant Valid() && !reaped && kernel.kills == old(kernel.kills)
        invariant FinalAnswer(kernel.answers) == FinalAnswer(old(kernel.answers))
        decreases |kernel.answers|
      {
        var answer := kernel.Waitpid(false);
        if answer.Exited? {
          reaped := true;
          r := Success(answer.status);
          break;
        }
        if answer.Failed? {
          r := Failure(());
          break;
        }
      }
      Drop();
    }

    /** Kills and reaps the child, unless it has been reaped. */
    method Drop()
      requires Valid()
      modifies this, kernel
      ensures reaped && kernel.reaps <= 1
      ensures old(reaped) ==> kernel.reaps == 1
      ensures old(reaped) ==> kernel.kills == old(kernel.kills) && kernel.answers == old(kernel.answers)
      ensures !old(reaped) ==> kernel.kills == old(kernel.kills) + [|old(kernel.answers)|]
      ensures !old(reaped) ==> kernel.reaps == if FinalAnswer(old(kernel.answers)).Exited? then 1 else 0
    {
      if reaped {
        return;
      }
      kernel.Kill();
      Reap();
      reaped := true;
    }

    method Reap()
      requires kernel.reaps == 0
      modifies kernel`answers, kernel`reaps
      ensures kernel.reaps == if FinalAnswer(old(kernel.answers)).Exited? then 1 else 0
    {
      while true
        invariant kernel.reaps == 0 && FinalAnswer(kernel.answers) == FinalAnswer(old(kernel.answers))
        decreases |kernel.answers|
      {
        var answer := kernel.Waitpid(false);
        if answer.Exited? || answer.Failed? {
          return;
        }
      }
    }
  }

  // ------------------------------------------------------------- supervision

  /**
   One turn of the monitor: whether a due check of the outputs fails, whether the deadline
   has passed or the output overflowed, and whether the signal, the kill of the cgroup and
   the poll succeed.
   */
  datatype Turn = Turn(outputsBad: bool, deadline: bool, overflow: bool, signalOk: bool, groupOk: bool, pollOk: bool)

  datatype Ending = Ending(status: int, timedOut: bool, outputsBad: bool)

  predicate Stops(t: Turn) {
    t.outputsBad || t.deadline || t.overflow
  }

  /** How `supervise_child` ends; `None` is an error. The first turn that has a reason to stop decides. */
  function Supervised(answers: seq<WaitAnswer>, turns: seq<Turn>): Option<Ending>
    requires |turns| >= |answers|
  {
    if answers == [] || answers[0].Failed? then None
    else if answers[0].Exited? then Some(Ending(answers[0].status, false, false))
    else
      var turn := turns[0];
      if Stops(turn) then
        if !turn.signalOk || !turn.groupOk then None
        else
          match FinalAnswer(answers[1..])
          case Exited(status) => Some(Ending(status, !turn.outputsBad && turn.deadline, turn.outputsBad))
          case _ => None
      else if !turn.pollOk then None
      else Supervised(answers[1..], turns[1..])
  }

  /** The reported status is the child's own, and a timeout and bad outputs exclude each other. */
  lemma {:induction false} EndingIsTheChildsOwn(answers: seq<WaitAnswer>, turns: seq<Turn>)
    requires |turns| >= |answers|
    ensures Supervised(answers, turns).Some? ==>
              var ending := Supervised(answers, turns).value;
              && FinalAnswer(answers) == Exited(ending.status)
              && !(ending.timedOut && ending.outputsBad)
              && (ending.timedOut ==> exists i :: 0 <= i < |turns| && turns[i].deadline)
              && (ending.outputsBad ==> exists i :: 0 <= i < |turns| && turns[i].outputsBad)
    decreases |answers|
  {
    if answers != [] && !answers[0].Failed? && !answers[0].Exited? && !Stops(turns[0]) {
      EndingIsTheChildsOwn(answers[1..], turns[1..]);
      assert forall i :: 0 <= i < |turns[1..]| ==> turns[1..][i] == turns[i + 1];
    }
  }

  // What the deadline and its companions bring about, in terms of the turns alone.

  predicate Lives(a: WaitAnswer) {
    a.StillRunning? || a.Interrupted?
  }

  /** Nothing to stop for, and the next turn comes. */
  predicate Calm(t: Turn) {
    !t.outputsBad && !t.deadline && !t.overflow && t.pollOk
  }

  /** The monitor gets as far as looking at the child for the time `k`. */
  ghost predicate Reached(answers: seq<WaitAnswer>, turns: seq<Turn>, k: nat) {
    k < |answers| <= |turns| && forall j :: 0 <= j < k ==> Lives(answers[j]) && Calm(turns[j])
  }

  /** It finds the child alive and a reason to stop it. */
  ghost predicate StoppedAt(answers: seq<WaitAnswer>, turns: seq<Turn>, k: nat) {
    Reached(answers, turns, k) && Lives(answers[k]) && (turns[k].outputsBad || turns[k].deadline || turns[k].overflow)
  }

  /** It finds that the child has exited. */
  ghost predicate ExitSeenAt(answers: seq<WaitAnswer>, turns: seq<Turn>, k: nat) {
    Reached(answers, turns, k) && answers[k].Exited?
  }

  lemma ReachedMore(answers: seq<WaitAnswer>, turns: seq<Turn>, k: nat)
    requires answers != [] && k > 0
    ensures Reached(answers, turns, k)
       <==> turns != [] && Lives(answers[0]) && Calm(turns[0]) && Reached(answers[1..], turns[1..], k - 1)
  {
    if turns != [] {
      assert forall j :: 0 <= j < |answers| - 1 ==> answers[1..][j] == answers[j + 1];
      assert forall j :: 0 <= j < |turns| - 1 ==> turns[1..][j] == turns[j + 1];
      if Reached(answers, turns, k) {
        assert Lives(answers[0]) && Calm(turns[0]);
      }
      if Lives(answers[0]) && Calm(turns[0]) && Reached(answers[1..], turns[1..], k - 1) {
        forall j | 0 <= j < k
          ensures Lives(answers[j]) && Calm(turns[j])
        {
          if j > 0 {
            assert Lives(answers[1..][j - 1]) && Calm(turns[1..][j - 1]);
          }
        }
      }
    }
  }

  /**
   Bad outputs, an overflow or the deadline end the supervision in the turn that sees them:
   with the next final answer, and with the two flags of exactly that turn.
   */
  lemma {:induction false} ReasonEndsSupervision(answers: seq<WaitAnswer>, turns: seq<Turn>, k: nat)
    requires StoppedAt(answers, turns, k)
    ensures var t, last := turns[k], FinalAnswer(answers[k + 1..]);
      Supervised(answers, turns)
      == if t.signalOk && t.groupOk && last.Exited?
         then Some(Ending(last.status, t.deadline && !t.outputsBad, t.outputsBad))
         else None
    decreases k
  {
    if k > 0 {
      ReachedMore(answers, turns, k);
      assert answers[1..][k - 1] == answers[k] && turns[1..][k - 1] == turns[k];
      assert answers[1..][k..] == answers[k + 1..];
      hide Reached;
      ReasonEndsSupervision(answers[1..], turns[1..], k - 1);
    }
  }

  /** Without one the child's own exit is reported, as neither a timeout nor bad outputs. */
  lemma {:induction false} ExitEndsSupervision(answers: seq<WaitAnswer>, turns: seq<Turn>, k: nat)
    requires ExitSeenAt(answers, turns, k)
    ensures Supervised(answers, turns) == Some(Ending(answers[k].status, false, false))
    decreases k
  {
    if k > 0 {
      ReachedMore(answers, turns, k);
      assert answers[1..][k - 1] == answers[k];
      hide Reached;
      ExitEndsSupervision(answers[1..], turns[1..], k - 1);
    }
  }

  /** A look or a poll that fails ends it with an error. */
  lemma {:induction false} FailureEndsSupervision(answers: seq<WaitAnswer>, turns: seq<Turn>, k: nat)
    requires Reached(answers, turns, k) && !StoppedAt(answers, turns, k)
    requires answers[k].Failed? || (Lives(answers[k]) && !turns[k].pollOk)
    ensures Supervised(answers, turns) == None
    decreases k
  {
    if k > 0 {
      ReachedMore(answers, turns, k);
      assert answers[1..][k - 1] == answers[k] && turns[1..][k - 1] == turns[k];
      hide Reached;
      FailureEndsSupervision(answers[1..], turns[1..], k - 1);
    }
  }

  /** The monitor loop; on every way out the handle is dropped. */
  method SuperviseChild(child: RunningChild, turns: seq<Turn>) returns (r: Option<Ending>)
    requires child.Valid() && !child.reaped && |turns| >= |child.kernel.answers|
    modifies child, child.kernel
    ensures r == Supervised(old(child.kernel.answers), turns)
    ensures child.kernel.reaps <= 1 && (r.Some? ==> child.kernel.reaps == 1)
    ensures forall k :: StoppedAt(old(child.kernel.answers), turns, k) ==>
        && old(child.kernel.kills) + [|old(child.kernel.answers)| - k - 1] <= child.kernel.kills
        && (r.Some? ==> |child.kernel.kills| == |old(child.kernel.kills)| + 1)
    ensures forall k :: ExitSeenAt(old(child.kernel.answers), turns, k) ==>
        child.kernel.kills == old(child.kernel.kills)
  {
    var i := 0;
    while true
      invariant child.kernel.kills == old(child.kernel.kills)
      invariant |old(child.kernel.answers)| >= i && child.kernel.answers == old(child.kernel.answers)[i..]
      invariant forall j :: 0 <= j < i ==> Lives(old(child.kernel.answers)[j]) && Calm(turns[j])
      invariant child.Valid() && !child.reaped && i <= |turns| && |turns| - i >= |child.kernel.answers|
      invariant Supervised(old(child.kernel.answers), turns) == Supervised(child.kernel.answers, turns[i..])
      decreases |child.kernel.answers|
    {
      ghost var answers := child.kernel.answers;
      var looked := child.TryWait();
      if looked.Failure? {
        child.Drop();
        return None;
      }
      if looked.value.Some? {
        child.Drop();
        return Some(Ending(looked.value.value, false, false));
      }
      var turn := turns[i];
      if Stops(turn) {
        if !turn.signalOk {
          child.Drop();
          return None;
        }
        child.kernel.Kill();
        if !turn.groupOk {
          child.Drop();
          return None;
        }
        var waited := child.Wait();
        return if waited.Failure? then None
               else Some(Ending(waited.value, !turn.outputsBad && turn.deadline, turn.outputsBad));
      }
      if !turn.pollOk {
        child.Drop();
        return None;
      }
      i := i + 1;
    }
  }
}
