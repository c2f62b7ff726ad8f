/**
 Reservation accounting of native/src/scheduler.rs. The mutex makes each call atomic, so
 a call is one step on the shared `reserved` total.
 */
module Scheduling {
  import opened Wrappers
  import opened UInt64

  datatype Capacity = Capacity(memoryBytes: u64, cpuMillis: u64, pids: u64) {
    function CheckedAdd(other: Capacity): Option<Capacity> {
      match (UInt64.CheckedAdd(memoryBytes, other.memoryBytes),
             UInt64.CheckedAdd(cpuMillis, other.cpuMillis),
             UInt64.CheckedAdd(pids, other.pids))
      case (Some(memory), Some(cpu), Some(tasks)) => Some(Capacity(memory, cpu, tasks))
      case _ => None
    }

    predicate FitsWithin(limit: Capacity) {
      memoryBytes <= limit.memoryBytes && cpuMillis <= limit.cpuMillis && pids <= limit.pids
    }

    function SaturatingSub(other: Capacity): Capacity {
      Capacity(UInt64.SaturatingSub(memoryBytes, other.memoryBytes),
               UInt64.SaturatingSub(cpuMillis, other.cpuMillis),
               UInt64.SaturatingSub(pids, other.pids))
    }
  }

  const ZERO := Capacity(0, 0, 0)

  /** The intended sum, without any machine bound. */
  ghost predicate IsSum(total: Capacity, a: Capacity, b: Capacity) {
    && total.memoryBytes == a.memoryBytes + b.memoryBytes
    && total.cpuMillis == a.cpuMillis + b.cpuMillis
    && total.pids == a.pids + b.pids
  }

  /** What one dimension of admission means over the unbounded integers. */
  ghost predicate AdmitsOne(reserved: int, request: int, limit: int, headroom: int, own: int) {
    && reserved + request <= limit
    && request <= headroom
    && reserved - own + request <= headroom
  }

  /** A request is admitted iff every dimension fits, over the unbounded integers. */
  ghost predicate Admits(reserved: Capacity, request: Capacity, limit: Capacity, headroom: Capacity, own: Capacity) {
    && AdmitsOne(reserved.memoryBytes, request.memoryBytes, limit.memoryBytes, headroom.memoryBytes, own.memoryBytes)
    && AdmitsOne(reserved.cpuMillis, request.cpuMillis, limit.cpuMillis, headroom.cpuMillis, own.cpuMillis)
    && AdmitsOne(reserved.pids, request.pids, limit.pids, headroom.pids, own.pids)
  }

  /**
   The new total after a reservation attempt, `None` when refused. Checked and saturating
   machine arithmetic refuses exactly what the unbounded inequalities refuse.
   */
  function Reserve(reserved: Capacity, request: Capacity, limit: Capacity, headroom: Capacity, own: Capacity)
    : (total: Option<Capacity>)
    ensures total.Some? <==> Admits(reserved, request, limit, headroom, own)
    ensures total.Some? ==> IsSum(total.value, reserved, request)
  {
    match (reserved.CheckedAdd(request), reserved.SaturatingSub(own).CheckedAdd(request))
    case (Some(sum), Some(demand)) =>
      if !sum.FitsWithin(limit) || !demand.FitsWithin(headroom) then None else Some(sum)
    case _ => None
  }

  class Scheduler {
    const limit: Capacity
    var reserved: Capacity

    constructor (limit: Capacity)
      ensures this.limit == limit && reserved == ZERO
    {
      this.limit := limit;
      reserved := ZERO;
    }

    method ReserveWithLimit(request: Capacity, liveHeadroom: Capacity, ownLiveUsage: Capacity)
      returns (r: Option<Reservation>)
      modifies this
      ensures r.Some? <==> Admits(old(reserved), request, limit, liveHeadroom, ownLiveUsage)
      ensures r.Some? ==> fresh(r.value) && r.value.request == request && r.value.scheduler == this && !r.value.released
      ensures r.Some? ==> IsSum(reserved, old(reserved), request) && reserved.FitsWithin(limit)
      ensures r.None? ==> reserved == old(reserved)
    {
      var total := Reserve(reserved, request, limit, liveHeadroom, ownLiveUsage);
      if total.None? {
        return None;
      }
      reserved := total.value;
      var reservation := new Reservation(request, this);
      return Some(reservation);
    }

    function Available(): (free: Capacity)
      reads this
      ensures reserved.FitsWithin(limit) ==> IsSum(limit, free, reserved)
    {
      limit.SaturatingSub(reserved)
    }

    /** Against the static limit alone: admits exactly what `Available` reports as free. */
    method ReserveStatic(request: Capacity) returns (r: Option<Reservation>)
      requires reserved.FitsWithin(limit)
      modifies this
      ensures r.Some? <==> request.FitsWithin(old(Available()))
      ensures r.Some? ==> fresh(r.value) && r.value.request == request && r.value.scheduler == this && !r.value.released
      ensures if r.Some? then IsSum(reserved, old(reserved), request) else reserved == old(reserved)
      ensures reserved.FitsWithin(limit)
    {
      r := ReserveWithLimit(request, limit, ZERO);
    }
  }

  class Reservation {
    const request: Capacity
    const scheduler: Scheduler
    var released: bool

    constructor (request: Capacity, scheduler: Scheduler)
      ensures this.request == request && this.scheduler == scheduler && !released
    {
      this.request := request;
      this.scheduler := scheduler;
      released := false;
    }

    /** Explicit release and drop share this body, so releasing twice gives back once. */
    method Release()
      modifies this, scheduler
      ensures released
      ensures scheduler.reserved ==
              if old(released) then old(scheduler.reserved) else old(scheduler.reserved).SaturatingSub(request)
    {
      if released {
        return;
      }
      scheduler.reserved := scheduler.reserved.SaturatingSub(request);
      released := true;
    }
  }

  /** Releasing what was reserved is exact: the saturation is never reached. */
  lemma ReleaseUndoesReserve(reserved: Capacity, request: Capacity, total: Capacity)
    requires IsSum(total, reserved, request)
    ensures total.SaturatingSub(request) == reserved
  {
  }
}
