/**
 The clone handshake of native/src/linux/clone.rs and native/src/job.rs as two processes
 that only share one-byte pipes: the child arms its death signal and says so, waits for
 its user mappings, hardens itself and says so; the parent maps, releases, supervises and
 reaps. Either side may fail at any step, the child may die at any moment, and deadlines
 may pass at any moment.
 */
module Handshake {

  /** Where the child is in `clone_isolated` and the child branch of `launch`. */
  datatype Child =
    | SettingDeathSignal
    | Arming
    | WaitingForMapping
    | BuildingRoot
    | ChangingDirectory
    | Hardening
    | Redirecting
    | Announcing
    | Executing
    | Guest
    | Dead

  /** Where the parent is. `Dropping` runs the destructor of `RunningChild`. */
  datatype Parent =
    | AwaitingArmed
    | DenyingSetgroups
    | MappingUser
    | MappingGroup
    | Releasing
    | AwaitingReady
    | Supervising
    | Killing
    | KillingGroup
    | WaitingForExit
    | Dropping
    | Reaping
    | Gone

  datatype Pipe = Pipe(bytes: nat, writerOpen: bool, readerOpen: bool)

  datatype Pipes = Pipes(armed: Pipe, release: Pipe, ready: Pipe)

  /** What has been done to the child. */
  datatype Setup = Setup(
    deathSignal: bool, setgroupsDenied: bool, noSetgroups: bool, userMapped: bool, groupMapped: bool, hardened: bool)

  /** The child's end: kills, and successful, late and failed waits. */
  datatype Fate = Fate(killSent: bool, killFailed: bool, reaps: nat, lateWaits: nat, waitFailed: bool)

  datatype State = State(child: Child, parent: Parent, pipes: Pipes, setup: Setup, fate: Fate)

  const FRESH_PIPE: Pipe := Pipe(0, true, true)
  const NO_FATE: Fate := Fate(false, false, 0, 0, false)

  const CLONED: State :=
    State(SettingDeathSignal, AwaitingArmed, Pipes(FRESH_PIPE, FRESH_PIPE, FRESH_PIPE),
          Setup(false, false, false, false, false, false), NO_FATE)

  /** The answers of the kernel that a step may get. */
  datatype Answer = Ok | NotFound | Interrupted | Error

  datatype Event =
    | ChildStep(answer: Answer)
    | ChildKilled
    | ParentStep(answer: Answer)
    | DeadlinePassed
    | OverflowSeen
    | SupervisionFailed

  // ------------------------------------------------------------------ child

  /** A dead child's ends of the pipes are closed. */
  function ChildEnds(p: Pipes): Pipes {
    Pipes(p.armed.(writerOpen := false), p.release.(readerOpen := false), p.ready.(writerOpen := false))
  }

  function Die(s: State): State {
    s.(child := Dead, pipes := ChildEnds(s.pipes))
  }

  function StepChild(s: State, ok: bool): State {
    var p := s.pipes;
    match s.child
    case SettingDeathSignal => if ok then s.(child := Arming, setup := s.setup.(deathSignal := true)) else Die(s)
    case Arming =>
      if ok && p.armed.readerOpen
      then s.(child := WaitingForMapping, pipes := p.(armed := Pipe(p.armed.bytes + 1, false, p.armed.readerOpen)))
      else Die(s)
    case WaitingForMapping =>
      if ok && p.release.bytes > 0
      then s.(child := BuildingRoot, pipes := p.(release := Pipe(p.release.bytes - 1, p.release.writerOpen, false)))
      else if ok && p.release.writerOpen then s
      else Die(s)
    case BuildingRoot => if ok then s.(child := ChangingDirectory) else Die(s)
    case ChangingDirectory => if ok then s.(child := Hardening) else Die(s)
    case Hardening => if ok then s.(child := Redirecting, setup := s.setup.(hardened := true)) else Die(s)
    case Redirecting => if ok then s.(child := Announcing) else Die(s)
    case Announcing =>
      if ok && p.ready.readerOpen
      then s.(child := Executing, pipes := p.(ready := p.ready.(bytes := p.ready.bytes + 1)))
      else Die(s)
    case Executing =>
      if ok then s.(child := Guest, pipes := p.(ready := p.ready.(writerOpen := false))) else Die(s)
    case Guest => Die(s)
    case Dead => s
  }

  // ----------------------------------------------------------------- parent

  function Read(pipe: Pipe): Pipe {
    if pipe.bytes > 0 then pipe.(bytes := pipe.bytes - 1) else pipe
  }

  /**
   An error, a deadline or the end of the child makes the parent leave. The child's handle
   is the first thing that is dropped: all pipe ends stay open until the child is reaped.
   */
  function GiveUp(s: State): State {
    s.(parent := Dropping)
  }

  function ParentEnds(p: Pipes): Pipes {
    Pipes(p.armed.(readerOpen := false), p.release.(writerOpen := false), p.ready.(readerOpen := false))
  }

  /** Only then are the parent's ends closed. */
  function Leave(s: State, fate: Fate): State {
    s.(parent := Gone, pipes := ParentEnds(s.pipes), fate := fate)
  }

  /** `wait_until_ready`: a byte, or the death of the child, or nothing yet. */
  function Poll(s: State, pipe: Pipe, onByte: State, answer: Answer): State {
    if answer == Interrupted then s
    else if answer != Ok then GiveUp(s)
    else if pipe.bytes > 0 then onByte
    else if s.child.Dead? || !pipe.writerOpen then GiveUp(s)
    else s
  }

  /** Any call of `waitpid` once the child has been reaped would be counted in `lateWaits`. */
  function Called(fate: Fate): Fate {
    if fate.reaps > 0 then fate.(lateWaits := fate.lateWaits + 1) else fate
  }

  /** `waitpid`: interrupted, failed, the child reaped, or still running. */
  function Wait(s: State, answer: Answer): State {
    var fate := Called(s.fate);
    if answer == Interrupted then s.(fate := fate)
    else if answer != Ok then
      var failed := fate.(waitFailed := true);
      if s.parent.Reaping? then Leave(s, failed) else GiveUp(s.(fate := failed))
    else if s.child.Dead? then Leave(s, fate.(reaps := fate.reaps + 1))
    else s.(fate := fate)
  }

  /** The byte goes into the pipe, and the parent's ends of both setup pipes are closed. */
  function Released(p: Pipes): Pipes {
    p.(armed := p.armed.(readerOpen := false), release := Pipe(p.release.bytes + 1, false, p.release.readerOpen))
  }

  function StepParent(s: State, answer: Answer): State {
    var p := s.pipes;
    match s.parent
    case AwaitingArmed =>
      Poll(s, p.armed, s.(parent := DenyingSetgroups, pipes := p.(armed := Read(p.armed))), answer)
    case DenyingSetgroups =>
      if answer == Ok then s.(parent := MappingUser, setup := s.setup.(setgroupsDenied := true))
      else if answer == NotFound then s.(parent := MappingUser, setup := s.setup.(noSetgroups := true))
      else GiveUp(s)
    case MappingUser =>
      if answer == Ok then s.(parent := MappingGroup, setup := s.setup.(userMapped := true)) else GiveUp(s)
    case MappingGroup =>
      if answer == Ok then s.(parent := Releasing, setup := s.setup.(groupMapped := true)) else GiveUp(s)
    case Releasing =>
      if answer == Ok && p.release.readerOpen then s.(parent := AwaitingReady, pipes := Released(p)) else GiveUp(s)
    case AwaitingReady =>
      Poll(s, p.ready, s.(parent := Supervising, pipes := p.(ready := Read(p.ready))), answer)
    case Supervising => Wait(s, answer)
    case Killing =>
      if answer == Ok then s.(parent := KillingGroup, fate := s.fate.(killSent := true)) else GiveUp(s)
    case KillingGroup => if answer == Ok then s.(parent := WaitingForExit) else GiveUp(s)
    case WaitingForExit => Wait(s, answer)
    case Dropping =>
      s.(parent := Reaping,
         fate := if answer == Ok then s.fate.(killSent := true) else s.fate.(killFailed := true))
    case Reaping => Wait(s, answer)
    case Gone => s
  }

  function Step(s: State, e: Event): State {
    match e
    case ChildStep(answer) => StepChild(s, answer == Ok)
    case ChildKilled => Die(s)
    case ParentStep(answer) => StepParent(s, answer)
    case DeadlinePassed =>
      if s.parent.AwaitingArmed? || s.parent.AwaitingReady? then GiveUp(s)
      else if s.parent.Supervising? then s.(parent := Killing)
      else s
    case OverflowSeen => if s.parent.Supervising? then s.(parent := Killing) else s
    case SupervisionFailed => if s.parent.Supervising? then GiveUp(s) else s
  }

  function Play(s: State, events: seq<Event>): State
    decreases |events|
  {
    if events == [] then s else Play(Step(s, events[0]), events[1..])
  }

  // -------------------------------------------------------------- invariant

  predicate PastMapping(c: Child) {
    c.BuildingRoot? || c.ChangingDirectory? || c.Hardening? || PastHardening(c)
  }

  predicate PastHardening(c: Child) {
    c.Redirecting? || c.Announcing? || c.Executing? || c.Guest?
  }

  predicate PastArming(p: Parent) {
    p.DenyingSetgroups? || p.MappingUser? || p.MappingGroup? || p.Releasing? || PastRelease(p)
  }

  predicate PastRelease(p: Parent) {
    p.AwaitingReady? || PastReady(p)
  }

  predicate PastReady(p: Parent) {
    p.Supervising? || p.Killing? || p.KillingGroup? || p.WaitingForExit?
  }

  predicate Mapped(s: State) {
    s.setup.userMapped && s.setup.groupMapped
  }

  // A byte in a pipe, or a process that has read one, proves what its writer did before.

  predicate ArmInv(s: State) {
    && (s.pipes.armed.bytes > 0 ==> s.setup.deathSignal)
    && (!s.child.SettingDeathSignal? && !s.child.Dead? ==> s.setup.deathSignal)
    && (PastArming(s.parent) ==> s.setup.deathSignal)
    && (s.setup.userMapped ==> s.setup.deathSignal)
  }

  predicate MapInv(s: State) {
    && (s.pipes.release.bytes > 0 ==> Mapped(s))
    && (PastRelease(s.parent) || s.parent.Releasing? || PastMapping(s.child) ==> Mapped(s))
    && (s.parent.MappingGroup? || s.setup.groupMapped ==> s.setup.userMapped)
    && (s.parent.MappingUser? || s.setup.userMapped ==> s.setup.setgroupsDenied || s.setup.noSetgroups)
  }

  predicate HardenInv(s: State) {
    && (s.setup.hardened ==> Mapped(s))
    && (PastHardening(s.child) || s.pipes.ready.bytes > 0 || PastReady(s.parent) ==> s.setup.hardened)
  }

  /** The child is reaped at most once, by the last wait of all. */
  predicate ReapInv(s: State) {
    && s.fate.reaps <= 1
    && (s.parent.Gone? && !s.fate.waitFailed ==> s.fate.reaps == 1)
    && (s.fate.reaps == 1 ==> s.parent.Gone? && s.child.Dead?)
    && s.fate.lateWaits == 0
  }

  /** The parent has not yet written the release byte and not given up. */
  predicate BeforeRelease(p: Parent) {
    p.AwaitingArmed? || p.DenyingSetgroups? || p.MappingUser? || p.MappingGroup? || p.Releasing?
  }

  /** A child still to be released finds the byte in the pipe, and then the pipe closed. */
  predicate PipeInv(s: State) {
    && (PastRelease(s.parent) || s.parent.Gone? ==> !s.pipes.release.writerOpen)
    && (PastRelease(s.parent) && !PastMapping(s.child) && !s.child.Dead? ==> s.pipes.release.bytes > 0)
  }

  /** A kill comes before every wait that does not come back while the child runs. */
  predicate KillInv(s: State) {
    && (s.parent.Reaping? ==> s.fate.killSent || s.fate.killFailed)
    && (s.parent.KillingGroup? || s.parent.WaitingForExit? ==> s.fate.killSent)
  }

  predicate Inv(s: State) {
    ArmInv(s) && MapInv(s) && HardenInv(s) && ReapInv(s) && PipeInv(s) && KillInv(s)
  }

  lemma DeathKeepsInv(s: State)
    requires Inv(s)
    ensures Inv(Die(s))
  {
  }

  lemma EarlyChildStepKeepsInv(s: State, ok: bool)
    requires Inv(s) && (s.child.SettingDeathSignal? || s.child.Arming? || s.child.WaitingForMapping?)
    ensures Inv(StepChild(s, ok))
  {
    DeathKeepsInv(s);
    hide Die;
  }

  lemma SetupStepKeepsInv(s: State, ok: bool)
    requires Inv(s)
    requires s.child.BuildingRoot? || s.child.ChangingDirectory? || s.child.Hardening? || s.child.Redirecting?
    ensures Inv(StepChild(s, ok))
  {
    DeathKeepsInv(s);
    hide Die;
  }

  lemma LastChildStepKeepsInv(s: State, ok: bool)
    requires Inv(s) && (s.child.Announcing? || s.child.Executing? || s.child.Guest? || s.child.Dead?)
    ensures Inv(StepChild(s, ok))
  {
    DeathKeepsInv(s);
    hide Die;
  }

  lemma ChildStepKeepsInv(s: State, ok: bool)
    requires Inv(s)
    ensures Inv(StepChild(s, ok))
  {
    hide StepChild, Inv;
    if s.child.SettingDeathSignal? || s.child.Arming? || s.child.WaitingForMapping? {
      EarlyChildStepKeepsInv(s, ok);
    } else if s.child.BuildingRoot? || s.child.ChangingDirectory? || s.child.Hardening? || s.child.Redirecting? {
      SetupStepKeepsInv(s, ok);
    } else {
      LastChildStepKeepsInv(s, ok);
    }
  }

  lemma GiveUpKeepsInv(s: State)
    requires Inv(s) && !s.parent.Gone?
    ensures Inv(GiveUp(s))
  {
  }

  lemma WaitKeepsInv(s: State, answer: Answer)
    requires Inv(s) && (s.parent.Supervising? || s.parent.WaitingForExit? || s.parent.Reaping?)
    ensures Inv(Wait(s, answer))
  {
  }

  lemma ReleaseKeepsInv(s: State)
    requires Inv(s) && s.parent.Releasing?
    ensures Inv(s.(parent := AwaitingReady, pipes := Released(s.pipes)))
  {
  }

  lemma ArmedStepKeepsInv(s: State, answer: Answer)
    requires Inv(s) && s.parent.AwaitingArmed?
    ensures Inv(StepParent(s, answer))
  {
    GiveUpKeepsInv(s);
    hide GiveUp;
  }

  lemma MappingStepKeepsInv(s: State, answer: Answer)
    requires Inv(s) && (s.parent.DenyingSetgroups? || s.parent.MappingUser? || s.parent.MappingGroup?)
    ensures Inv(StepParent(s, answer))
  {
    GiveUpKeepsInv(s);
    hide GiveUp;
  }

  lemma EarlyParentStepKeepsInv(s: State, answer: Answer)
    requires Inv(s) && BeforeRelease(s.parent)
    ensures Inv(StepParent(s, answer))
  {
    if s.parent.Releasing? {
      GiveUpKeepsInv(s);
      ReleaseKeepsInv(s);
      hide GiveUp, Released, Inv;
    } else {
      hide StepParent, Inv;
      if s.parent.AwaitingArmed? {
        ArmedStepKeepsInv(s, answer);
      } else {
        MappingStepKeepsInv(s, answer);
      }
    }
  }

  lemma LateParentStepKeepsInv(s: State, answer: Answer)
    requires Inv(s) && (s.parent.AwaitingReady? || s.parent.Killing? || s.parent.KillingGroup? || s.parent.Dropping?)
    ensures Inv(StepParent(s, answer))
  {
    GiveUpKeepsInv(s);
    hide GiveUp;
  }

  lemma ParentStepKeepsInv(s: State, answer: Answer)
    requires Inv(s)
    ensures Inv(StepParent(s, answer))
  {
    if s.parent.Supervising? || s.parent.WaitingForExit? || s.parent.Reaping? {
      WaitKeepsInv(s, answer);
      hide Wait, Inv;
    } else if BeforeRelease(s.parent) {
      hide StepParent, Inv;
      EarlyParentStepKeepsInv(s, answer);
    } else if !s.parent.Gone? {
      hide StepParent, Inv;
      LateParentStepKeepsInv(s, answer);
    }
  }

  lemma StepKeepsInv(s: State, e: Event)
    requires Inv(s)
    ensures Inv(Step(s, e))
  {
    match e
    case ChildStep(answer) => ChildStepKeepsInv(s, answer == Ok);
    case ParentStep(answer) => ParentStepKeepsInv(s, answer);
    case ChildKilled => DeathKeepsInv(s);
    case _ => if !s.parent.Gone? { GiveUpKeepsInv(s); }
    hide StepChild, StepParent, GiveUp, Die;
  }

  lemma {:induction false} EveryRunKeepsInv(s: State, events: seq<Event>)
    requires Inv(s)
    ensures Inv(Play(s, events))
    decreases |events|
  {
    if events != [] {
      StepKeepsInv(s, events[0]);
      hide Inv, Step;
      EveryRunKeepsInv(Step(s, events[0]), events[1..]);
    }
  }

  ghost predicate Reachable(s: State) {
    exists events :: s == Play(CLONED, events)
  }

  lemma ReachableIsSafe(s: State)
    requires Reachable(s)
    ensures Inv(s)
  {
    var events :| s == Play(CLONED, events);
    EveryRunKeepsInv(CLONED, events);
  }

  // ------------------------------------------------------------ main results

  /** The child passes `wait_for_mapping` only with both maps written, and after setgroups was dealt with. */
  lemma ChildIsMappedBeforeItGoesOn(s: State)
    requires Reachable(s) && PastMapping(s.child)
    ensures s.setup.userMapped && s.setup.groupMapped && (s.setup.setgroupsDenied || s.setup.noSetgroups)
  {
    ReachableIsSafe(s);
  }

  /** The parent maps only a child that dies with its launcher. */
  lemma OnlyArmedChildrenAreMapped(s: State)
    requires Reachable(s) && s.setup.userMapped
    ensures s.setup.deathSignal
  {
    ReachableIsSafe(s);
  }

  /** The parent supervises, and the guest runs, only after hardening. */
  lemma SupervisedChildIsHardened(s: State)
    requires Reachable(s) && (PastReady(s.parent) || s.child.Guest?)
    ensures s.setup.hardened && s.setup.userMapped && s.setup.groupMapped
  {
    ReachableIsSafe(s);
  }

  /** However the parent leaves, the child was reaped exactly once unless a wait itself failed; no wait came after. */
  lemma ChildIsReapedOnce(s: State)
    requires Reachable(s)
    ensures s.fate.reaps <= 1 && s.fate.lateWaits == 0
    ensures s.parent.Gone? && !s.fate.waitFailed ==> s.fate.reaps == 1 && s.child.Dead?
    ensures s.fate.reaps == 1 ==> s.parent.Gone?
  {
    ReachableIsSafe(s);
  }

  /** Before the parent waits for the exit of its child it has sent the kill, or failed to. */
  lemma KilledBeforeWaitedFor(s: State)
    requires Reachable(s)
    ensures s.parent.Reaping? ==> s.fate.killSent || s.fate.killFailed
    ensures s.parent.KillingGroup? || s.parent.WaitingForExit? ==> s.fate.killSent
  {
    ReachableIsSafe(s);
  }

  /**
   A child that waits for a byte that is not there has a parent that may still write it, or
   one that is about to kill it or has, or one whose last wait failed: then it sees the end
   of the pipe.
   */
  lemma ChildIsNeverLeftWaiting(s: State)
    requires Reachable(s) && s.child.WaitingForMapping? && s.pipes.release.bytes == 0
    ensures || BeforeRelease(s.parent)
            || s.parent.Dropping?
            || (s.parent.Reaping? && (s.fate.killSent || s.fate.killFailed))
            || (s.parent.Gone? && s.fate.waitFailed && StepChild(s, true).child.Dead?)
  {
    ReachableIsSafe(s);
  }

  // ---------------------------------------------------- the end of a dead child

  /** How many of its own steps the parent is from having reaped a dead child. */
  function StepsToGo(p: Parent): nat {
    match p
    case AwaitingArmed => 8
    case DenyingSetgroups => 7
    case MappingUser => 6
    case MappingGroup => 5
    case Releasing => 4
    case AwaitingReady => 3
    case Supervising => 1
    case Killing => 3
    case KillingGroup => 2
    case WaitingForExit => 1
    case Dropping => 2
    case Reaping => 1
    case Gone => 0
  }

  lemma DeadChildBringsTheParentOn(s: State)
    requires s.child.Dead? && !s.parent.Gone?
    ensures StepParent(s, Ok).child.Dead? && StepsToGo(StepParent(s, Ok).parent) < StepsToGo(s.parent)
    ensures StepParent(s, Ok).fate.waitFailed == s.fate.waitFailed
  {
  }

  function OwnSteps(n: nat): seq<Event> {
    seq(n, i => ParentStep(Ok))
  }

  /**
   Wherever the parent is when its child dies, nothing but its own steps is needed, at most
   eight of them, for it to notice and to leave with the child reaped exactly once.
   */
  lemma {:induction false} DeadChildIsReaped(s: State) returns (n: nat)
    requires Inv(s) && s.child.Dead? && !s.fate.waitFailed
    ensures n <= StepsToGo(s.parent) <= 8
    ensures Play(s, OwnSteps(n)).parent.Gone? && Play(s, OwnSteps(n)).fate.reaps == 1
    decreases StepsToGo(s.parent)
  {
    if s.parent.Gone? {
      n := 0;
    } else {
      DeadChildBringsTheParentOn(s);
      ParentStepKeepsInv(s, Ok);
      hide StepParent, Inv;
      var more := DeadChildIsReaped(StepParent(s, Ok));
      n := more + 1;
      assert OwnSteps(n)[0] == ParentStep(Ok) && OwnSteps(n)[1..] == OwnSteps(more);
    }
  }

  lemma {:induction false} PlayMore(s: State, events: seq<Event>, e: Event)
    ensures Play(s, events + [e]) == Step(Play(s, events), e)
    decreases |events|
  {
    if events == [] {
      assert [e][1..] == [];
      assert events + [e] == [e];
    } else {
      assert (events + [e])[1..] == events[1..] + [e];
      PlayMore(Step(s, events[0]), events[1..], e);
    }
  }

  lemma StepIsReachable(s: State, e: Event)
    requires Reachable(s)
    ensures Reachable(Step(s, e))
  {
    var events :| s == Play(CLONED, events);
    PlayMore(CLONED, events, e);
    hide Step, Play;
    assert Step(s, e) == Play(CLONED, events + [e]);
  }

  lemma Goes(s: State, e: Event, t: State)
    requires Reachable(s) && Step(s, e) == t
    ensures Reachable(t)
  {
    hide Step, Reachable;
    StepIsReachable(s, e);
  }

  // The straight way to a child that is about to announce its readiness.

  const ARMED: State :=
    State(WaitingForMapping, AwaitingArmed, Pipes(Pipe(1, false, true), FRESH_PIPE, FRESH_PIPE),
          Setup(true, false, false, false, false, false), NO_FATE)

  const MAPPED: State :=
    State(WaitingForMapping, Releasing, Pipes(Pipe(0, false, true), FRESH_PIPE, FRESH_PIPE),
          Setup(true, true, false, true, true, false), NO_FATE)

  const RELEASED: State :=
    State(BuildingRoot, AwaitingReady, Pipes(Pipe(0, false, false), Pipe(0, false, false), FRESH_PIPE),
          Setup(true, true, false, true, true, false), NO_FATE)

  const SET_UP: State := RELEASED.(child := Announcing, setup := Setup(true, true, false, true, true, true))

  lemma ArmedIsReachable()
    ensures Reachable(ARMED)
  {
    assert Reachable(CLONED) by { assert CLONED == Play(CLONED, []); }
    hide Reachable;
    var s := CLONED.(child := Arming, setup := ARMED.setup);
    Goes(CLONED, ChildStep(Ok), s);
    Goes(s, ChildStep(Ok), ARMED);
  }

  lemma MappedIsReachable()
    ensures Reachable(MAPPED)
  {
    ArmedIsReachable();
    hide Reachable;
    var s := ARMED.(parent := DenyingSetgroups, pipes := MAPPED.pipes);
    Goes(ARMED, ParentStep(Ok), s);
    var t := s.(parent := MappingUser, setup := Setup(true, true, false, false, false, false));
    Goes(s, ParentStep(Ok), t);
    var u := t.(parent := MappingGroup, setup := Setup(true, true, false, true, false, false));
    Goes(t, ParentStep(Ok), u);
    Goes(u, ParentStep(Ok), MAPPED);
  }

  lemma SetUpIsReachable()
    ensures Reachable(SET_UP)
  {
    MappedIsReachable();
    hide Reachable;
    var pipes := Pipes(Pipe(0, false, false), Pipe(1, false, true), FRESH_PIPE);
    var s := MAPPED.(parent := AwaitingReady, pipes := pipes);
    Goes(MAPPED, ParentStep(Ok), s);
    Goes(s, ChildStep(Ok), RELEASED);
    Goes(RELEASED, ChildStep(Ok), RELEASED.(child := ChangingDirectory));
    Goes(RELEASED.(child := ChangingDirectory), ChildStep(Ok), RELEASED.(child := Hardening));
    Goes(RELEASED.(child := Hardening), ChildStep(Ok), SET_UP.(child := Redirecting));
    Goes(SET_UP.(child := Redirecting), ChildStep(Ok), SET_UP);
  }

  // ---------------------------------- the guest of a parent that has given up

  /** The guest may start after the deadline, and even after the kill was sent, until the kill takes effect. */
  lemma GuestMayStartAfterTheDeadline() returns (s: State)
    ensures Reachable(s) && s.child.Guest? && s.parent.Reaping? && s.fate.killSent
  {
    SetUpIsReachable();
    hide Reachable;
    var late := SET_UP.(parent := Dropping);
    Goes(SET_UP, DeadlinePassed, late);
    var killed := late.(parent := Reaping, fate := Fate(true, false, 0, 0, false));
    Goes(late, ParentStep(Ok), killed);
    var announced := killed.(child := Executing, pipes := SET_UP.pipes.(ready := Pipe(1, true, true)));
    Goes(killed, ChildStep(Ok), announced);
    s := announced.(child := Guest, pipes := SET_UP.pipes.(ready := Pipe(1, false, true)));
    Goes(announced, ChildStep(Ok), s);
  }

  /** The release byte is there at most once, and only for a child that has not read it; the ready pipe lasts. */
  predicate LateInv(s: State) {
    && s.pipes.release.bytes <= 1
    && (s.pipes.release.bytes > 0 ==> s.child.WaitingForMapping? || s.child.Dead?)
    && (BeforeRelease(s.parent) ==> s.pipes.release.bytes == 0)
    && (!s.parent.Gone? ==> s.pipes.ready.readerOpen)
    && (s.parent.Gone? ==> !s.pipes.ready.readerOpen)
    && (BeforeRelease(s.parent) ==> !PastMapping(s.child))
    && (PastArming(s.parent) ==> s.child.WaitingForMapping? || PastMapping(s.child) || s.child.Dead?)
    && (s.pipes.armed.bytes > 0 ==> s.child.WaitingForMapping? || PastMapping(s.child) || s.child.Dead?)
  }

  lemma ChildKeepsLate(s: State, ok: bool)
    requires LateInv(s)
    ensures LateInv(StepChild(s, ok)) && LateInv(Die(s))
  {
  }

  lemma GiveUpKeepsLate(s: State)
    requires LateInv(s) && !s.parent.Gone?
    ensures LateInv(GiveUp(s))
  {
  }

  lemma WaitKeepsLate(s: State, answer: Answer)
    requires LateInv(s) && (s.parent.Supervising? || s.parent.WaitingForExit? || s.parent.Reaping?)
    ensures LateInv(Wait(s, answer))
  {
    hide Called;
  }

  lemma SetupKeepsLate(s: State, answer: Answer)
    requires LateInv(s) && BeforeRelease(s.parent) && !s.parent.Releasing?
    ensures LateInv(StepParent(s, answer))
  {
    GiveUpKeepsLate(s);
    hide GiveUp;
  }

  lemma ReleaseKeepsLate(s: State, answer: Answer)
    requires LateInv(s) && s.parent.Releasing?
    ensures LateInv(StepParent(s, answer))
  {
    GiveUpKeepsLate(s);
    hide GiveUp;
  }

  lemma RestKeepsLate(s: State, answer: Answer)
    requires LateInv(s)
    requires s.parent.AwaitingReady? || s.parent.Killing? || s.parent.KillingGroup? || s.parent.Dropping?
    ensures LateInv(StepParent(s, answer))
  {
    GiveUpKeepsLate(s);
    hide GiveUp;
  }

  lemma ParentKeepsLate(s: State, answer: Answer)
    requires LateInv(s)
    ensures LateInv(StepParent(s, answer))
  {
    if s.parent.Supervising? || s.parent.WaitingForExit? || s.parent.Reaping? {
      WaitKeepsLate(s, answer);
      hide Wait, LateInv;
    } else if s.parent.Releasing? {
      hide StepParent, LateInv;
      ReleaseKeepsLate(s, answer);
    } else if BeforeRelease(s.parent) {
      hide StepParent, LateInv;
      SetupKeepsLate(s, answer);
    } else if !s.parent.Gone? {
      hide StepParent, LateInv;
      RestKeepsLate(s, answer);
    }
  }

  lemma StepKeepsLate(s: State, e: Event)
    requires LateInv(s)
    ensures LateInv(Step(s, e))
  {
    match e
    case ChildStep(answer) => ChildKeepsLate(s, answer == Ok);
    case ParentStep(answer) => ParentKeepsLate(s, answer);
    case ChildKilled => ChildKeepsLate(s, true);
    case _ => if !s.parent.Gone? { GiveUpKeepsLate(s); }
    hide StepChild, StepParent, GiveUp, Die;
  }

  lemma {:induction false} RunKeepsLate(s: State, events: seq<Event>)
    requires LateInv(s)
    ensures LateInv(Play(s, events))
    decreases |events|
  {
    if events != [] {
      StepKeepsLate(s, events[0]);
      hide LateInv, Step;
      RunKeepsLate(Step(s, events[0]), events[1..]);
    }
  }

  predicate GivenUp(p: Parent) {
    p.Dropping? || p.Reaping?
  }

  /** A child that a parent which has given up can no longer get anywhere. */
  predicate Hopeless(s: State) {
    && (GivenUp(s.parent) || s.parent.Gone?)
    && (s.child.Dead? || (!PastMapping(s.child) && s.pipes.release.bytes == 0))
  }

  lemma ChildStaysHopeless(s: State, ok: bool)
    requires Hopeless(s)
    ensures Hopeless(StepChild(s, ok)) && Hopeless(Die(s)) && !s.child.Guest?
  {
  }

  lemma ParentKeepsHopeless(s: State, answer: Answer)
    requires Hopeless(s)
    ensures Hopeless(StepParent(s, answer))
  {
    hide Called;
  }

  lemma {:induction false} HopelessStays(s: State, events: seq<Event>)
    requires Hopeless(s)
    ensures !Play(s, events).child.Guest?
    decreases |events|
  {
    ChildStaysHopeless(s, true);
    if events != [] {
      var e := events[0];
      assert Hopeless(Step(s, e)) by {
        if e.ChildStep? {
          ChildStaysHopeless(s, e.answer == Ok);
        } else if e.ParentStep? {
          ParentKeepsHopeless(s, e.answer);
        }
        hide StepChild, StepParent, Die, GiveUp;
      }
      hide Hopeless, Step;
      HopelessStays(Step(s, e), events[1..]);
    }
  }

  /** How many of its own steps a released child is from being the guest. */
  function StepsToGuest(c: Child): nat {
    match c
    case WaitingForMapping => 7
    case BuildingRoot => 6
    case ChangingDirectory => 5
    case Hardening => 4
    case Redirecting => 3
    case Announcing => 2
    case Executing => 1
    case _ => 0
  }

  predicate OnItsWay(s: State) {
    && GivenUp(s.parent) && s.pipes.ready.readerOpen && !s.child.Dead?
    && (PastMapping(s.child) || (s.child.WaitingForMapping? && s.pipes.release.bytes > 0))
  }

  lemma GoesOn(s: State)
    requires OnItsWay(s) && !s.child.Guest?
    ensures OnItsWay(StepChild(s, true)) && StepsToGuest(StepChild(s, true).child) < StepsToGuest(s.child)
  {
  }

  lemma {:induction false} BecomesGuest(s: State) returns (events: seq<Event>)
    requires OnItsWay(s)
    ensures Play(s, events).child.Guest?
    decreases StepsToGuest(s.child)
  {
    if s.child.Guest? {
      events := [];
    } else {
      GoesOn(s);
      hide OnItsWay, StepChild, StepsToGuest;
      var more := BecomesGuest(StepChild(s, true));
      events := [ChildStep(Ok)] + more;
      assert events[0] == ChildStep(Ok) && events[1..] == more;
    }
  }

  /**
   Exactly when a guest can still start although the parent has given up: the child lives,
   and it has the release byte or finds it in the pipe. A parent that gives up before it
   wrote that byte never sees a guest.
   */
  lemma GuestAfterGivingUpIff(s: State)
    requires Reachable(s) && GivenUp(s.parent)
    ensures (exists events :: Play(s, events).child.Guest?)
       <==> !s.child.Dead? && (PastMapping(s.child) || s.pipes.release.bytes > 0)
  {
    assert LateInv(CLONED);
    var past :| s == Play(CLONED, past);
    RunKeepsLate(CLONED, past);
    if !s.child.Dead? && (PastMapping(s.child) || s.pipes.release.bytes > 0) {
      var events := BecomesGuest(s);
    } else {
      forall events ensures !Play(s, events).child.Guest? {
        HopelessStays(s, events);
      }
    }
    hide Play;
  }

  lemma AnnouncedBecomesGuest(s: State) returns (events: seq<Event>)
    requires s.child.Executing? || s.child.Guest?
    ensures Play(s, events).child.Guest?
  {
    if s.child.Guest? {
      events := [];
    } else {
      events := [ChildStep(Ok)];
      assert events[1..] == [];
      assert Play(s, events) == Step(s, ChildStep(Ok));
    }
  }

  /** Once the parent is gone only a child that has announced itself can still be the guest. */
  lemma GuestAfterLeavingIff(s: State)
    requires Reachable(s) && s.parent.Gone?
    ensures (exists events :: Play(s, events).child.Guest?) <==> s.child.Executing? || s.child.Guest?
  {
    assert LateInv(CLONED);
    var past :| s == Play(CLONED, past);
    RunKeepsLate(CLONED, past);
    if s.child.Executing? || s.child.Guest? {
      var events := AnnouncedBecomesGuest(s);
    } else {
      forall events ensures !Play(s, events).child.Guest? {
        NoReaderNoGuest(s, events);
      }
    }
    hide Play;
  }

  lemma {:induction false} NoReaderNoGuest(s: State, events: seq<Event>)
    requires s.parent.Gone? && !s.pipes.ready.readerOpen && !s.child.Executing? && !s.child.Guest?
    ensures !Play(s, events).child.Guest?
    decreases |events|
  {
    if events != [] {
      NoReaderNoGuest(Step(s, events[0]), events[1..]);
    }
  }

  /** Such a guest is mapped and hardened all the same, and the parent does not leave before it is reaped. */
  lemma UnsupervisedGuestIsContained(s: State)
    requires Reachable(s) && s.child.Guest?
    ensures s.setup.hardened && Mapped(s) && s.setup.deathSignal
    ensures s.parent.Gone? ==> s.fate.waitFailed
  {
    ReachableIsSafe(s);
  }

  // ---------------------------------------------------------- a setup that succeeds

  predicate InSetup(p: Parent) {
    BeforeRelease(p) || p.AwaitingReady?
  }

  /** Where a living child can be while the parent is in its setup, and the bytes that are then under way. */
  predicate TrackInv(s: State) {
    var c, p := s.child, s.pipes;
    !c.Dead? && (InSetup(s.parent) || s.parent.Supervising?) ==>
      && p.ready.readerOpen
      && (BeforeRelease(s.parent) ==> p.release == FRESH_PIPE)
      && (s.parent.AwaitingArmed? ==>
            || ((c.SettingDeathSignal? || c.Arming?) && p.armed == FRESH_PIPE)
            || (c.WaitingForMapping? && p.armed.bytes > 0))
      && (BeforeRelease(s.parent) && !s.parent.AwaitingArmed? ==> c.WaitingForMapping?)
      && (s.parent.AwaitingReady? || s.parent.Supervising? ==>
            PastMapping(c) || (c.WaitingForMapping? && p.release.bytes > 0))
      && (s.parent.AwaitingReady? && (c.Executing? || c.Guest?) ==> p.ready.bytes > 0)
  }

  lemma ChildKeepsTrack(s: State, ok: bool)
    requires TrackInv(s)
    ensures TrackInv(StepChild(s, ok)) && TrackInv(Die(s))
  {
  }

  lemma SetupKeepsTrack(s: State, answer: Answer)
    requires TrackInv(s) && InSetup(s.parent)
    ensures TrackInv(StepParent(s, answer))
  {
  }

  lemma RestKeepsTrack(s: State, answer: Answer)
    requires TrackInv(s) && !InSetup(s.parent)
    ensures TrackInv(StepParent(s, answer))
  {
    hide Called;
  }

  lemma StepKeepsTrack(s: State, e: Event)
    requires TrackInv(s)
    ensures TrackInv(Step(s, e))
  {
    match e
    case ChildStep(answer) => ChildKeepsTrack(s, answer == Ok);
    case ParentStep(answer) => if InSetup(s.parent) { SetupKeepsTrack(s, answer); } else { RestKeepsTrack(s, answer); }
    case ChildKilled => ChildKeepsTrack(s, true);
    case _ =>
    hide StepChild, StepParent, Die;
  }

  lemma {:induction false} RunKeepsTrack(s: State, events: seq<Event>)
    requires TrackInv(s)
    ensures TrackInv(Play(s, events))
    decreases |events|
  {
    if events != [] {
      StepKeepsTrack(s, events[0]);
      hide TrackInv, Step;
      RunKeepsTrack(Step(s, events[0]), events[1..]);
    }
  }

  function ChildStepsToGuest(c: Child): nat {
    match c
    case SettingDeathSignal => 9
    case Arming => 8
    case _ => StepsToGuest(c)
  }

  function ParentStepsToSupervision(p: Parent): nat {
    match p
    case AwaitingArmed => 6
    case DenyingSetgroups => 5
    case MappingUser => 4
    case MappingGroup => 3
    case Releasing => 2
    case AwaitingReady => 1
    case _ => 0
  }

  /** The child's own step, unless it has to wait for the parent. */
  function NextStep(s: State): Event {
    if s.child.Guest? || (s.child.WaitingForMapping? && s.pipes.release.bytes == 0) then ParentStep(Ok)
    else ChildStep(Ok)
  }

  lemma NextStepGoesOn(s: State)
    requires TrackInv(s) && !s.child.Dead? && (InSetup(s.parent) || s.parent.Supervising?)
    requires !(s.parent.Supervising? && s.child.Guest?)
    ensures var t := Step(s, NextStep(s));
      && !t.child.Dead? && (InSetup(t.parent) || t.parent.Supervising?)
      && ChildStepsToGuest(t.child) + ParentStepsToSupervision(t.parent)
         < ChildStepsToGuest(s.child) + ParentStepsToSupervision(s.parent)
  {
  }

  predicate Succeeds(e: Event) {
    e == ChildStep(Ok) || e == ParentStep(Ok)
  }

  lemma {:induction false} Completes(s: State) returns (events: seq<Event>)
    requires TrackInv(s) && !s.child.Dead? && (InSetup(s.parent) || s.parent.Supervising?)
    ensures forall i :: 0 <= i < |events| ==> Succeeds(events[i])
    ensures Play(s, events).parent.Supervising? && Play(s, events).child.Guest?
    ensures |events| <= ChildStepsToGuest(s.child) + ParentStepsToSupervision(s.parent)
    decreases ChildStepsToGuest(s.child) + ParentStepsToSupervision(s.parent)
  {
    if s.parent.Supervising? && s.child.Guest? {
      events := [];
    } else {
      var e := NextStep(s);
      NextStepGoesOn(s);
      StepKeepsTrack(s, e);
      assert Succeeds(e);
      hide TrackInv, Step, NextStep, InSetup, ChildStepsToGuest, ParentStepsToSupervision, Succeeds;
      var more := Completes(Step(s, e));
      events := [e] + more;
      assert events[0] == e && events[1..] == more;
    }
  }

  /**
   Wherever a setup is, as long as the child lives and the parent has not given up, at most
   15 successful steps of the two make the guest run under the parent's supervision.
   */
  lemma SetupCanComplete(s: State) returns (events: seq<Event>)
    requires Reachable(s) && !s.child.Dead? && InSetup(s.parent)
    ensures |events| <= 15 && forall i :: 0 <= i < |events| ==> Succeeds(events[i])
    ensures Play(s, events).parent.Supervising? && Play(s, events).child.Guest?
  {
    assert TrackInv(CLONED);
    var past :| s == Play(CLONED, past);
    RunKeepsTrack(CLONED, past);
    hide Play, TrackInv;
    events := Completes(s);
  }

  /** A parent that waits for the child to be ready supervises it once it finds the byte. */
  lemma ReadyIsSeen(s: State)
    requires s.parent.AwaitingReady? && s.pipes.ready.bytes > 0
    ensures var t := StepParent(s, Ok);
      t.parent.Supervising? && t.child == s.child && t.pipes.ready.bytes == s.pipes.ready.bytes - 1
  {
  }

  // ------------------------------------------------------------- when steps fail

  /** A step of the child that fails is its last one, and earns it nothing; so is the exit of the guest. */
  lemma ChildFails(s: State, ok: bool)
    requires !ok || s.child.Guest?
    ensures var t := StepChild(s, ok);
      t.child.Dead? && t.setup == s.setup && t.parent == s.parent && t.fate == s.fate
    ensures !s.child.Dead? ==> Step(s, ChildKilled) == StepChild(s, ok)
  {
  }

  /** The child waits as long as the release byte may still come, takes it if it is there, and dies without it. */
  lemma ChildWaitsForItsByte(s: State)
    requires s.child.WaitingForMapping?
    ensures var t := StepChild(s, true);
      && t.setup == s.setup && t.parent == s.parent && t.fate == s.fate
      && (s.pipes.release.bytes > 0 ==> t.child.BuildingRoot? && t.pipes.release.bytes == s.pipes.release.bytes - 1)
      && (s.pipes.release.bytes == 0 && s.pipes.release.writerOpen ==> t == s)
      && (s.pipes.release.bytes == 0 && !s.pipes.release.writerOpen ==> t.child.Dead?)
  {
  }

  predicate Tolerated(p: Parent, answer: Answer) {
    || answer == Ok
    || (answer == Interrupted && (p.AwaitingArmed? || p.AwaitingReady?))
    || (answer == NotFound && p.DenyingSetgroups?)
  }

  /** A step of the setup that fails makes the parent drop its child, and claims nothing. */
  lemma SetupFails(s: State, answer: Answer)
    requires InSetup(s.parent) && !Tolerated(s.parent, answer)
    ensures StepParent(s, answer) == s.(parent := Dropping)
  {
  }

  /** A kernel without the setgroups file is as good as one that denies it, and the parent knows which it was. */
  lemma SetgroupsIsDealtWith(s: State, answer: Answer)
    requires s.parent.DenyingSetgroups? && (answer == Ok || answer == NotFound)
    ensures var t := StepParent(s, answer);
      && t.parent.MappingUser? && t.child == s.child && t.pipes == s.pipes
      && t.setup == if answer == Ok then s.setup.(setgroupsDenied := true) else s.setup.(noSetgroups := true)
  {
  }

  /** Polling ends with a byte, with the death of the child or the end of its pipe, and not before. */
  lemma ParentPolls(s: State, answer: Answer)
    requires s.parent.AwaitingArmed? || s.parent.AwaitingReady?
    requires answer == Ok || answer == Interrupted
    ensures var t, pipe := StepParent(s, answer), if s.parent.AwaitingArmed? then s.pipes.armed else s.pipes.ready;
      && (answer == Interrupted ==> t == s)
      && (answer == Ok && pipe.bytes > 0 ==>
            t.parent == (if s.parent.AwaitingArmed? then DenyingSetgroups else Supervising)
            && t.child == s.child && t.setup == s.setup)
      && (answer == Ok && pipe.bytes == 0 && !s.child.Dead? && pipe.writerOpen ==> t == s)
      && (answer == Ok && pipe.bytes == 0 && (s.child.Dead? || !pipe.writerOpen) ==> t == s.(parent := Dropping))
  {
  }

  /** Each wait reaps a dead child, fails, or leaves everything as it is; one after the child was reaped is counted. */
  lemma ParentWaits(s: State, answer: Answer)
    requires s.parent.Supervising? || s.parent.WaitingForExit? || s.parent.Reaping?
    ensures var t := StepParent(s, answer);
      && t.child == s.child && t.setup == s.setup
      && t.fate.lateWaits == s.fate.lateWaits + (if s.fate.reaps > 0 then 1 else 0)
      && (answer == Interrupted || (answer == Ok && !s.child.Dead?) ==>
            t.parent == s.parent && t.pipes == s.pipes && t.fate.reaps == s.fate.reaps
            && t.fate.waitFailed == s.fate.waitFailed)
      && (answer == Ok && s.child.Dead? ==> t.parent.Gone? && t.fate.reaps == s.fate.reaps + 1)
      && (answer == NotFound || answer == Error ==>
            t.fate.waitFailed && t.fate.reaps == s.fate.reaps
            && t.parent == if s.parent.Reaping? then Gone else Dropping)
  {
  }

  /** What the parent does once it has a reason to stop: kill, kill the group, wait; on a failure, drop the child. */
  lemma ParentStops(s: State, answer: Answer)
    ensures s.parent.Supervising? ==>
      && Step(s, DeadlinePassed) == Step(s, OverflowSeen) == s.(parent := Killing)
      && Step(s, SupervisionFailed) == s.(parent := Dropping)
    ensures InSetup(s.parent) && (s.parent.AwaitingArmed? || s.parent.AwaitingReady?) ==>
      Step(s, DeadlinePassed) == s.(parent := Dropping)
    ensures var t := StepParent(s, answer);
      && (s.parent.Killing? && answer == Ok ==> t.parent.KillingGroup? && t.fate.killSent)
      && (s.parent.KillingGroup? && answer == Ok ==> t.parent.WaitingForExit?)
      && (s.parent.Killing? || s.parent.KillingGroup? ==>
            && (answer != Ok ==> t == s.(parent := Dropping))
            && t.child == s.child && t.pipes == s.pipes && t.setup == s.setup)
      && (s.parent.Dropping? ==>
            && t.parent.Reaping? && t.child == s.child && t.pipes == s.pipes
            && (if answer == Ok then t.fate.killSent else t.fate.killFailed))
      && (s.parent.Gone? ==> t == s)
  {
  }

  /** Who is gone holds no end of a pipe, and an end that was used for the last time is closed. */
  predicate EndsInv(s: State) {
    var c, p := s.child, s.pipes;
    && (c.Dead? ==> !p.armed.writerOpen && !p.release.readerOpen && !p.ready.writerOpen)
    && (c.WaitingForMapping? || PastMapping(c) ==> !p.armed.writerOpen)
    && (PastMapping(c) ==> !p.release.readerOpen)
    && (c.Guest? ==> !p.ready.writerOpen)
    && (PastRelease(s.parent) ==> !p.armed.readerOpen && !p.release.writerOpen)
    && (s.parent.Gone? ==> !p.armed.readerOpen && !p.release.writerOpen && !p.ready.readerOpen)
  }

  lemma ChildKeepsEnds(s: State, ok: bool)
    requires EndsInv(s)
    ensures EndsInv(StepChild(s, ok)) && EndsInv(Die(s))
  {
  }

  lemma ParentKeepsEnds(s: State, answer: Answer)
    requires EndsInv(s)
    ensures EndsInv(StepParent(s, answer))
  {
    hide Called;
  }

  lemma StepKeepsEnds(s: State, e: Event)
    requires EndsInv(s)
    ensures EndsInv(Step(s, e))
  {
    match e
    case ChildStep(answer) => ChildKeepsEnds(s, answer == Ok);
    case ParentStep(answer) => ParentKeepsEnds(s, answer);
    case ChildKilled => ChildKeepsEnds(s, true);
    case _ =>
    hide StepChild, StepParent, Die;
  }

  lemma {:induction false} RunKeepsEnds(s: State, events: seq<Event>)
    requires EndsInv(s)
    ensures EndsInv(Play(s, events))
    decreases |events|
  {
    if events != [] {
      StepKeepsEnds(s, events[0]);
      hide EndsInv, Step;
      RunKeepsEnds(Step(s, events[0]), events[1..]);
    }
  }

  /** So in every reachable state writing to a dead child fails, and a reader that has left is not waited for. */
  lemma NoEndsLeftOpen(s: State)
    requires Reachable(s)
    ensures EndsInv(s)
    ensures s.child.Dead? && s.parent.Releasing? ==> StepParent(s, Ok).parent.Dropping?
    ensures s.parent.Gone? && s.child.Announcing? ==> StepChild(s, true).child.Dead?
  {
    assert EndsInv(CLONED);
    var past :| s == Play(CLONED, past);
    hide Play, EndsInv;
    RunKeepsEnds(CLONED, past);
    EndsMean(s);
  }

  lemma EndsMean(s: State)
    requires EndsInv(s)
    ensures s.child.Dead? ==> !s.pipes.release.readerOpen
    ensures s.parent.Gone? ==> !s.pipes.ready.readerOpen
  {
  }
}
