/**
 Admission capacity of native/src/resources.rs: headroom of every cgroup ancestor, a
 20% reserve margin, and the minimum over all ancestors and the host fallback.
 */
module Resources {
  import opened Wrappers
  import opened UInt64
  import opened Scheduling

  const ADMISSION_PERCENT: u64 := 80

  datatype ResourceSnapshot = ResourceSnapshot(
    memoryLimitBytes: Option<u64>,
    memoryCurrentBytes: u64,
    cpuLimitMillis: Option<u64>,
    pidsLimit: Option<u64>,
    pidsCurrent: u64)
  {
    function MemoryHeadroomBytes(): Option<u64> {
      if memoryLimitBytes.Some? then Some(SaturatingSub(memoryLimitBytes.value, memoryCurrentBytes)) else None
    }

    function PidHeadroom(): Option<u64> {
      if pidsLimit.Some? then Some(SaturatingSub(pidsLimit.value, pidsCurrent)) else None
    }
  }

  datatype ResourceFallbacks = ResourceFallbacks(memoryBytes: u64, cpuMillis: u64, pids: u64)

  function UnwrapOr(value: Option<u64>, fallback: u64): u64 {
    match value
    case Some(v) => v
    case None => fallback
  }

  /** At most 80% of the value, and never rounded up, even where the product saturates. */
  function ReserveMargin(value: u64): (margin: u64)
    ensures 100 * margin <= 80 * value
    ensures value > 0 ==> margin < value
    ensures 80 * value <= U64_MAX ==> 80 * value < 100 * margin + 100
  {
    SaturatingMul(value, ADMISSION_PERCENT) / 100
  }

  function AdmissionCapacity(s: ResourceSnapshot, fallbacks: ResourceFallbacks): Capacity {
    Capacity(
      ReserveMargin(UnwrapOr(s.MemoryHeadroomBytes(), fallbacks.memoryBytes)),
      ReserveMargin(UnwrapOr(s.cpuLimitMillis, fallbacks.cpuMillis)),
      ReserveMargin(UnwrapOr(s.PidHeadroom(), fallbacks.pids)))
  }

  const UNBOUNDED := ResourceSnapshot(None, 0, None, None, 0)

  function MinCapacity(a: Capacity, b: Capacity): Capacity {
    Capacity(Min(a.memoryBytes, b.memoryBytes), Min(a.cpuMillis, b.cpuMillis), Min(a.pids, b.pids))
  }

  /** The fold over ancestors, starting from the host fallback. */
  function EffectiveAdmissionCapacity(snapshots: seq<ResourceSnapshot>, fallbacks: ResourceFallbacks): Capacity {
    if snapshots == [] then AdmissionCapacity(UNBOUNDED, fallbacks)
    else
      MinCapacity(
        EffectiveAdmissionCapacity(snapshots[..|snapshots| - 1], fallbacks),
        AdmissionCapacity(snapshots[|snapshots| - 1], fallbacks))
  }

  lemma MinCapacityIsGreatestLowerBound(a: Capacity, b: Capacity)
    ensures forall c: Capacity :: c.FitsWithin(MinCapacity(a, b)) <==> c.FitsWithin(a) && c.FitsWithin(b)
  {
  }

  ghost predicate BelowAll(c: Capacity, snapshots: seq<ResourceSnapshot>, fallbacks: ResourceFallbacks) {
    && c.FitsWithin(AdmissionCapacity(UNBOUNDED, fallbacks))
    && forall i :: 0 <= i < |snapshots| ==> c.FitsWithin(AdmissionCapacity(snapshots[i], fallbacks))
  }

  /** The fold is the greatest lower bound of the host fallback and every ancestor. */
  lemma {:induction false} EffectiveIsGreatestLowerBound(c: Capacity, snapshots: seq<ResourceSnapshot>,
      fallbacks: ResourceFallbacks)
    ensures c.FitsWithin(EffectiveAdmissionCapacity(snapshots, fallbacks)) <==> BelowAll(c, snapshots, fallbacks)
  {
    hide Capacity.FitsWithin, AdmissionCapacity;
    if snapshots != [] {
      var n := |snapshots| - 1;
      EffectiveIsGreatestLowerBound(c, snapshots[..n], fallbacks);
      MinCapacityIsGreatestLowerBound(EffectiveAdmissionCapacity(snapshots[..n], fallbacks),
          AdmissionCapacity(snapshots[n], fallbacks));
      assert forall i :: 0 <= i < n ==> snapshots[..n][i] == snapshots[i];
    }
  }

  // ------------------------------------------------------ exact admission

  /** What a request has to find room for, over the unbounded integers. */
  function Demand(reserved: int, own: int, request: int): int {
    (if reserved > own then reserved - own else 0) + request
  }

  /** What a level leaves of a resource: its limit without its usage, or the host's share where it has no limit. */
  function Room(limit: Option<u64>, usage: u64, fallback: u64): int {
    if limit.None? then fallback
    else if limit.value >= usage then limit.value - usage
    else 0
  }

  /** At most 80% of the room. The second bound only matters where 80 times the room exceeds a `u64`. */
  predicate Within80(demand: int, room: int) {
    100 * demand <= 80 * room && 100 * demand <= U64_MAX
  }

  lemma MarginIs80(demand: nat, value: u64)
    ensures demand <= ReserveMargin(value) <==> Within80(demand, value)
  {
  }

  /** The demand in every dimension, each against its own room. */
  predicate DemandFits(reserved: Capacity, own: Capacity, request: Capacity, memory: int, cpu: int, pids: int) {
    && Within80(Demand(reserved.memoryBytes, own.memoryBytes, request.memoryBytes), memory)
    && Within80(Demand(reserved.cpuMillis, own.cpuMillis, request.cpuMillis), cpu)
    && Within80(Demand(reserved.pids, own.pids, request.pids), pids)
  }

  predicate SumsFit(reserved: Capacity, request: Capacity, limit: Capacity) {
    && reserved.memoryBytes + request.memoryBytes <= limit.memoryBytes
    && reserved.cpuMillis + request.cpuMillis <= limit.cpuMillis
    && reserved.pids + request.pids <= limit.pids
  }

  lemma DemandOf(reserved: Capacity, own: Capacity, request: Capacity, limit: Capacity, headroom: Capacity)
    ensures Admits(reserved, request, limit, headroom, own)
       <==> && SumsFit(reserved, request, limit)
            && Demand(reserved.memoryBytes, own.memoryBytes, request.memoryBytes) <= headroom.memoryBytes
            && Demand(reserved.cpuMillis, own.cpuMillis, request.cpuMillis) <= headroom.cpuMillis
            && Demand(reserved.pids, own.pids, request.pids) <= headroom.pids
  {
  }

  lemma LevelAdmits(reserved: Capacity, own: Capacity, request: Capacity, limit: Capacity, s: ResourceSnapshot,
      fallbacks: ResourceFallbacks)
    ensures Admits(reserved, request, limit, AdmissionCapacity(s, fallbacks), own)
       <==> && SumsFit(reserved, request, limit)
            && DemandFits(reserved, own, request,
                 Room(s.memoryLimitBytes, s.memoryCurrentBytes, fallbacks.memoryBytes),
                 Room(s.cpuLimitMillis, 0, fallbacks.cpuMillis),
                 Room(s.pidsLimit, s.pidsCurrent, fallbacks.pids))
  {
    DemandOf(reserved, own, request, limit, AdmissionCapacity(s, fallbacks));
    MarginIs80(Demand(reserved.memoryBytes, own.memoryBytes, request.memoryBytes),
        UnwrapOr(s.MemoryHeadroomBytes(), fallbacks.memoryBytes));
    MarginIs80(Demand(reserved.cpuMillis, own.cpuMillis, request.cpuMillis),
        UnwrapOr(s.cpuLimitMillis, fallbacks.cpuMillis));
    MarginIs80(Demand(reserved.pids, own.pids, request.pids), UnwrapOr(s.PidHeadroom(), fallbacks.pids));
    hide ReserveMargin, Within80, Admits;
  }

  lemma {:induction false} EveryLevelAdmits(reserved: Capacity, own: Capacity, request: Capacity, limit: Capacity,
      snapshots: seq<ResourceSnapshot>, fallbacks: ResourceFallbacks)
    ensures Admits(reserved, request, limit, EffectiveAdmissionCapacity(snapshots, fallbacks), own)
       <==> && Admits(reserved, request, limit, AdmissionCapacity(UNBOUNDED, fallbacks), own)
            && forall i :: 0 <= i < |snapshots| ==>
                 Admits(reserved, request, limit, AdmissionCapacity(snapshots[i], fallbacks), own)
    decreases |snapshots|
  {
    hide AdmissionCapacity;
    if snapshots != [] {
      var n := |snapshots| - 1;
      EveryLevelAdmits(reserved, own, request, limit, snapshots[..n], fallbacks);
      assert forall i :: 0 <= i < n ==> snapshots[..n][i] == snapshots[i];
      AdmitsBoth(reserved, own, request, limit, EffectiveAdmissionCapacity(snapshots[..n], fallbacks),
          AdmissionCapacity(snapshots[n], fallbacks));
      hide Admits, MinCapacity;
    }
  }

  lemma AdmitsBoth(reserved: Capacity, own: Capacity, request: Capacity, limit: Capacity, a: Capacity, b: Capacity)
    ensures Admits(reserved, request, limit, MinCapacity(a, b), own)
       <==> Admits(reserved, request, limit, a, own) && Admits(reserved, request, limit, b, own)
  {
  }

  /**
   Exactly which requests are admitted: with them the reservations fit the limit, and what
   the running jobs do not use of their reservations plus the request fits, in memory, CPU
   and processes alike, 80% of the host's own figure and of what every ancestor leaves.
   */
  lemma AdmittedIff(reserved: Capacity, own: Capacity, request: Capacity, limit: Capacity,
      snapshots: seq<ResourceSnapshot>, fallbacks: ResourceFallbacks)
    ensures Admits(reserved, request, limit, EffectiveAdmissionCapacity(snapshots, fallbacks), own)
       <==> && SumsFit(reserved, request, limit)
            && DemandFits(reserved, own, request, fallbacks.memoryBytes, fallbacks.cpuMillis, fallbacks.pids)
            && forall i :: 0 <= i < |snapshots| ==>
                 DemandFits(reserved, own, request,
                   Room(snapshots[i].memoryLimitBytes, snapshots[i].memoryCurrentBytes, fallbacks.memoryBytes),
                   Room(snapshots[i].cpuLimitMillis, 0, fallbacks.cpuMillis),
                   Room(snapshots[i].pidsLimit, snapshots[i].pidsCurrent, fallbacks.pids))
  {
    EveryLevelAdmits(reserved, own, request, limit, snapshots, fallbacks);
    LevelAdmits(reserved, own, request, limit, UNBOUNDED, fallbacks);
    forall i | 0 <= i < |snapshots|
      ensures Admits(reserved, request, limit, AdmissionCapacity(snapshots[i], fallbacks), own)
         <==> && SumsFit(reserved, request, limit)
              && DemandFits(reserved, own, request,
                   Room(snapshots[i].memoryLimitBytes, snapshots[i].memoryCurrentBytes, fallbacks.memoryBytes),
                   Room(snapshots[i].cpuLimitMillis, 0, fallbacks.cpuMillis),
                   Room(snapshots[i].pidsLimit, snapshots[i].pidsCurrent, fallbacks.pids))
    {
      LevelAdmits(reserved, own, request, limit, snapshots[i], fallbacks);
    }
    hide Admits, AdmissionCapacity, EffectiveAdmissionCapacity, DemandFits, SumsFit;
  }

  /**
   Where every ancestor limits its processes the host's tasks need not be counted: with the
   largest fallback in place of the host's figure only the ancestors bound the processes.
   */
  lemma TaskCountIsNotNeeded(reserved: Capacity, own: Capacity, request: Capacity, limit: Capacity,
      snapshots: seq<ResourceSnapshot>, fallbacks: ResourceFallbacks)
    requires snapshots != [] && fallbacks.pids == U64_MAX
    requires forall i :: 0 <= i < |snapshots| ==> snapshots[i].pidsLimit.Some?
    ensures Admits(reserved, request, limit, EffectiveAdmissionCapacity(snapshots, fallbacks), own)
       <==> && SumsFit(reserved, request, limit)
            && Within80(Demand(reserved.memoryBytes, own.memoryBytes, request.memoryBytes), fallbacks.memoryBytes)
            && Within80(Demand(reserved.cpuMillis, own.cpuMillis, request.cpuMillis), fallbacks.cpuMillis)
            && forall i :: 0 <= i < |snapshots| ==>
                 DemandFits(reserved, own, request,
                   Room(snapshots[i].memoryLimitBytes, snapshots[i].memoryCurrentBytes, fallbacks.memoryBytes),
                   Room(snapshots[i].cpuLimitMillis, 0, fallbacks.cpuMillis),
                   Room(snapshots[i].pidsLimit, snapshots[i].pidsCurrent, 0))
  {
    AdmittedIff(reserved, own, request, limit, snapshots, fallbacks);
    assert forall i :: 0 <= i < |snapshots| ==>
        Room(snapshots[i].pidsLimit, snapshots[i].pidsCurrent, fallbacks.pids)
        == Room(snapshots[i].pidsLimit, snapshots[i].pidsCurrent, 0);
    hide Admits, EffectiveAdmissionCapacity, SumsFit, Demand, Room;
    if DemandFits(reserved, own, request,
         Room(snapshots[0].memoryLimitBytes, snapshots[0].memoryCurrentBytes, fallbacks.memoryBytes),
         Room(snapshots[0].cpuLimitMillis, 0, fallbacks.cpuMillis),
         Room(snapshots[0].pidsLimit, snapshots[0].pidsCurrent, 0)) {
      assert Within80(Demand(reserved.pids, own.pids, request.pids), U64_MAX);
    }
  }

  /** One reading of a job cgroup; a missing or unparsable file counts as zero. */
  datatype JobReading = JobReading(memoryCurrent: Option<u64>, pidsCurrent: Option<u64>)

  function JobsUsage(jobs: seq<JobReading>): (total: Capacity)
    ensures total.cpuMillis == 0
  {
    if jobs == [] then ZERO
    else
      var before := JobsUsage(jobs[..|jobs| - 1]);
      var job := jobs[|jobs| - 1];
      Capacity(SaturatingAdd(before.memoryBytes, UnwrapOr(job.memoryCurrent, 0)), 0,
               SaturatingAdd(before.pids, UnwrapOr(job.pidsCurrent, 0)))
  }

  /** The jobs' own usage is part of what the ancestor measured. */
  ghost predicate Includes(s: ResourceSnapshot, own: Capacity) {
    own.memoryBytes <= s.memoryCurrentBytes && own.pids <= s.pidsCurrent
  }

  /** `others + max(own, reserved) + request` stays within a limit, over the unbounded integers. */
  ghost predicate WithinLimit(current: int, own: int, reserved: int, request: int, limit: int) {
    current - own + (if own >= reserved then own else reserved) + request <= limit
  }

  /** No bounded ancestor is overcommitted by granting `request` on top of `reserved`. */
  ghost predicate NoOvercommit(s: ResourceSnapshot, reserved: Capacity, own: Capacity, request: Capacity) {
    && (s.memoryLimitBytes.Some? ==>
          WithinLimit(s.memoryCurrentBytes, own.memoryBytes, reserved.memoryBytes, request.memoryBytes,
              s.memoryLimitBytes.value))
    && (s.pidsLimit.Some? ==>
          WithinLimit(s.pidsCurrent, own.pids, reserved.pids, request.pids, s.pidsLimit.value))
    && (s.cpuLimitMillis.Some? ==>
          100 * (reserved.cpuMillis + request.cpuMillis) <= 80 * s.cpuLimitMillis.value)
  }

  /**
   An admitted reservation overcommits no ancestor: what others use, plus the larger of
   what the running jobs use and what they reserved, plus the request, fits every memory
   and pid limit, and the CPU reservations fit 80% of every quota.
   */
  lemma AdmissionNeverOvercommits(
    snapshots: seq<ResourceSnapshot>, fallbacks: ResourceFallbacks,
    reserved: Capacity, own: Capacity, request: Capacity, limit: Capacity, i: nat)
    requires i < |snapshots| && Includes(snapshots[i], own) && own.cpuMillis == 0
    requires request.memoryBytes > 0 && request.pids > 0
    requires Admits(reserved, request, limit, EffectiveAdmissionCapacity(snapshots, fallbacks), own)
    ensures NoOvercommit(snapshots[i], reserved, own, request)
  {
    AncestorBoundsDemand(snapshots, fallbacks, reserved, own, request, limit, i);
  }

  lemma AncestorBoundsDemand(
    snapshots: seq<ResourceSnapshot>, fallbacks: ResourceFallbacks,
    reserved: Capacity, own: Capacity, request: Capacity, limit: Capacity, i: nat)
    requires i < |snapshots|
    requires Admits(reserved, request, limit, EffectiveAdmissionCapacity(snapshots, fallbacks), own)
    ensures Admits(reserved, request, limit, AdmissionCapacity(snapshots[i], fallbacks), own)
  {
    var e := EffectiveAdmissionCapacity(snapshots, fallbacks);
    EffectiveIsGreatestLowerBound(e, snapshots, fallbacks);
    hide AdmissionCapacity, EffectiveAdmissionCapacity;
    assert BelowAll(e, snapshots, fallbacks);
  }

  ghost predicate UnderItsLimits(s: ResourceSnapshot) {
    && (s.memoryLimitBytes.Some? ==> s.memoryCurrentBytes <= s.memoryLimitBytes.value)
    && (s.pidsLimit.Some? ==> s.pidsCurrent <= s.pidsLimit.value)
  }

  /**
   For an arbitrary, possibly empty request the guarantee holds exactly at the ancestors
   that are not already over a limit: an empty request is admitted with no headroom left.
   */
  lemma AdmissionOvercommitsIffAlreadyOver(
    snapshots: seq<ResourceSnapshot>, fallbacks: ResourceFallbacks,
    reserved: Capacity, own: Capacity, request: Capacity, limit: Capacity, i: nat)
    requires i < |snapshots| && Includes(snapshots[i], own) && own.cpuMillis == 0
    requires Admits(reserved, request, limit, EffectiveAdmissionCapacity(snapshots, fallbacks), own)
    ensures NoOvercommit(snapshots[i], reserved, own, request) <==> UnderItsLimits(snapshots[i])
  {
    AncestorBoundsDemand(snapshots, fallbacks, reserved, own, request, limit, i);
  }

  /** An ancestor already over its limit does not stop an empty request. */
  lemma EmptyRequestIsNotChecked()
    ensures var over := ResourceSnapshot(Some(100), 150, None, None, 0);
            var fallbacks := ResourceFallbacks(1000, 1000, 1000);
            && Admits(ZERO, ZERO, ZERO, EffectiveAdmissionCapacity([over], fallbacks), ZERO)
            && !NoOvercommit(over, ZERO, ZERO, ZERO)
  {
    var over := ResourceSnapshot(Some(100), 150, None, None, 0);
    assert [over][..0] == [];
  }

  /**
   Running jobs that use the memory and processes they reserved are counted once, not
   twice; CPU has no usage, so its reservations count in full.
   */
  lemma BusyJobsAreCountedOnce(reserved: Capacity, request: Capacity, limit: Capacity, headroom: Capacity,
      own: Capacity)
    requires reserved.memoryBytes <= own.memoryBytes && reserved.pids <= own.pids && own.cpuMillis == 0
    ensures Admits(reserved, request, limit, headroom, own) <==>
              && (exists total: Capacity :: IsSum(total, reserved, request) && total.FitsWithin(limit))
              && request.memoryBytes <= headroom.memoryBytes
              && request.pids <= headroom.pids
              && reserved.cpuMillis + request.cpuMillis <= headroom.cpuMillis
  {
    if Admits(reserved, request, limit, headroom, own) {
      var total := Capacity(reserved.memoryBytes + request.memoryBytes, reserved.cpuMillis + request.cpuMillis,
                            reserved.pids + request.pids);
      assert IsSum(total, reserved, request) && total.FitsWithin(limit);
    }
  }

  // --------------------------------------------------------------- readings

  function SumMemory(jobs: seq<JobReading>): nat {
    if jobs == [] then 0 else SumMemory(jobs[..|jobs| - 1]) + UnwrapOr(jobs[|jobs| - 1].memoryCurrent, 0)
  }

  function SumPids(jobs: seq<JobReading>): nat {
    if jobs == [] then 0 else SumPids(jobs[..|jobs| - 1]) + UnwrapOr(jobs[|jobs| - 1].pidsCurrent, 0)
  }

  function Capped(n: nat): u64 {
    if n <= U64_MAX then n else U64_MAX
  }

  /** Saturating step by step is the exact sum, capped once at the end. */
  lemma {:induction false} UsageIsCappedSum(jobs: seq<JobReading>)
    ensures JobsUsage(jobs) == Capacity(Capped(SumMemory(jobs)), 0, Capped(SumPids(jobs)))
    decreases |jobs|
  {
    if jobs != [] {
      UsageIsCappedSum(jobs[..|jobs| - 1]);
    }
  }

  /** A directory on the way up from the delegated cgroup; `snapshot` is `None` if one of its files cannot be read. */
  datatype Level = Level(hasControllers: bool, hasLimitFiles: bool, snapshot: Option<ResourceSnapshot>)

  /** The levels below and including the root of the hierarchy. */
  function InHierarchy(levels: seq<Level>): (n: nat)
    ensures n <= |levels| && (forall i :: 0 <= i < n ==> levels[i].hasControllers)
    ensures n < |levels| ==> !levels[n].hasControllers
  {
    if levels == [] || !levels[0].hasControllers then 0 else 1 + InHierarchy(levels[1..])
  }

  /** All of them count, except an outermost one that has no limits of its own. */
  function Counted(levels: seq<Level>): (n: nat)
    ensures n <= InHierarchy(levels)
    ensures forall i :: n <= i < InHierarchy(levels) ==> !levels[i].hasLimitFiles
  {
    var n := InHierarchy(levels);
    if n > 1 && !levels[n - 1].hasLimitFiles then n - 1 else n
  }

  /** The upward walk of `detect_admission_capacity`; `None` if a level cannot be read or there is none. */
  method DetectSnapshots(levels: seq<Level>) returns (r: Option<seq<ResourceSnapshot>>)
    ensures r.Some? <==> Counted(levels) > 0 && forall i :: 0 <= i < Counted(levels) ==> levels[i].snapshot.Some?
    ensures r.Some? ==> |r.value| == Counted(levels)
    ensures r.Some? ==> forall i :: 0 <= i < |r.value| ==> Some(r.value[i]) == levels[i].snapshot
  {
    var snapshots: seq<ResourceSnapshot> := [];
    var current := 0;
    while current < |levels|
      invariant current <= InHierarchy(levels) && current <= Counted(levels)
      invariant |snapshots| == current
      invariant forall i :: 0 <= i < current ==> Some(snapshots[i]) == levels[i].snapshot
      decreases |levels| - current
    {
      if !levels[current].hasControllers {
        break;
      }
      var hierarchyRoot := current + 1 == |levels| || !levels[current + 1].hasControllers;
      if snapshots != [] && hierarchyRoot && !levels[current].hasLimitFiles {
        break;
      }
      if levels[current].snapshot.None? {
        return None;
      }
      snapshots := snapshots + [levels[current].snapshot.value];
      current := current + 1;
    }
    return if snapshots == [] then None else Some(snapshots);
  }
}
