/// Admission of external work: the slot counter and the graph lease.  Where every
/// slot is, from the call that took it to its release, is in SlotConservation.
module Admission {
  import opened Wrappers

  datatype SchedulerState = Created | Starting | Running | Stopping | Stopped

  datatype Mode = NoMode | Graceful | Immediate

  datatype Status = Status(state: SchedulerState, mode: Mode)

  datatype Decision = Success | CapacityExhausted | DecidedStopping | DecidedStopped

  /// Until it stops the scheduler admits everybody, and a graceful stop still admits internal work.
  predicate Admits(status: Status, isInternal: bool) {
    !status.state.Stopped? && (status.state.Stopping? ==> isInternal && status.mode.Graceful?)
  }

  /// There are slots for the caller, or it needs none.
  predicate HasRoom(capacity: nat, pending: nat, count: nat, isInternal: bool) {
    isInternal || count == 0 || pending + count <= capacity
  }

  /// One pass of acquire under the lock: the decision (None: wait and try again) and the new count.
  function Attempt(status: Status, capacity: nat, pending: nat, count: nat, block: bool, isInternal: bool): (Option<Decision>, nat) {
    if status.state.Stopped? then (Some(DecidedStopped), pending)
    else if status.state.Stopping? then
      (Some(if isInternal && status.mode.Graceful? then Success else DecidedStopping), pending)
    else if count == 0 || isInternal then (Some(Success), pending)
    else if count > capacity then (Some(CapacityExhausted), pending)
    else if pending + count <= capacity then (Some(Success), pending + count)
    else if !block then (Some(CapacityExhausted), pending)
    else (None, pending)
  }

  function Released(pending: nat, count: nat): nat {
    if pending >= count then pending - count else 0
  }

  /// Internal work took no slots and gives none back.
  function GivenBack(pending: nat, count: nat, isInternal: bool): nat {
    if isInternal then pending else Released(pending, count)
  }

  class AdmissionController {
    const capacity: nat
    const blocks: bool           // the configured backpressure is to block
    var pending: nat

    constructor (capacity: nat, blocks: bool)
      ensures this.capacity == capacity && this.blocks == blocks && pending == 0
    {
      this.capacity, this.blocks := capacity, blocks;
      pending := 0;
    }

    /// acquire up to its decision or its next wait, for the status read under the lock: work is
    /// admitted exactly if the status admits it and there is room, and only then takes slots.
    method AcquireOnce(status: Status, count: nat, block: bool, isInternal: bool) returns (decision: Option<Decision>)
      modifies `pending
      ensures (decision, pending) == Attempt(status, capacity, old(pending), count, block && blocks, isInternal)
      ensures decision == Some(Success) <==> Admits(status, isInternal) && HasRoom(capacity, old(pending), count, isInternal)
      ensures decision == Some(DecidedStopped) <==> status.state.Stopped?
      ensures decision == Some(DecidedStopping) <==> status.state.Stopping? && !Admits(status, isInternal)
      ensures decision == Some(CapacityExhausted) <==>
        && Admits(status, isInternal) && !HasRoom(capacity, old(pending), count, isInternal)
        && (count > capacity || !block || !blocks)
      ensures pending == old(pending) + if decision == Some(Success) && !isInternal then count else 0
    {
      if count == 0 {
        if status.state == Stopped { return Some(DecidedStopped); }
        if status.state == Stopping && (!isInternal || status.mode != Graceful) { return Some(DecidedStopping); }
        return Some(Success);
      }
      if status.state == Stopped { return Some(DecidedStopped); }
      if status.state == Stopping {
        if isInternal && status.mode == Graceful { return Some(Success); }
        return Some(DecidedStopping);
      }
      if isInternal { return Some(Success); }
      if count > capacity { return Some(CapacityExhausted); }
      if pending + count <= capacity {
        pending := pending + count;
        return Some(Success);
      }
      if !block || !blocks { return Some(CapacityExhausted); }
      return None;
    }

    method Release(count: nat)
      modifies `pending
      ensures pending == Released(old(pending), count)
    {
      if count == 0 { return; }
      if pending >= count {
        pending := pending - count;
      } else {
        pending := 0;
      }
    }
  }

  /// The lease between a graph's admission and its first published node.
  class GraphAdmissionLease {
    var runtime: AdmissionController?
    const slotCount: nat
    const isInternal: bool

    constructor (runtime: AdmissionController, slotCount: nat, isInternal: bool)
      ensures this.runtime == runtime && this.slotCount == slotCount && this.isInternal == isInternal
    {
      this.runtime, this.slotCount, this.isInternal := runtime, slotCount, isInternal;
    }

    /// After commit the lease gives nothing back any more.
    method Commit()
      modifies this
      ensures runtime == null
    {
      runtime := null;
    }

    /// Gives all slots back, once; after commit or an earlier rollback it does nothing.
    method Rollback()
      modifies this, if runtime == null then {} else {runtime}
      ensures runtime == null
      ensures old(runtime) != null ==>
        old(runtime).pending == GivenBack(old(runtime.pending), slotCount, isInternal)
    {
      if runtime == null { return; }
      if !isInternal { runtime.Release(slotCount); }
      runtime := null;
    }
  }

  /// What one pass decides: success exactly if the status admits the caller and there is room, then
  /// with the slots taken; every other decision leaves the count alone.
  lemma AttemptDecides(status: Status, capacity: nat, pending: nat, count: nat, block: bool, isInternal: bool)
    ensures var (decision, pending') := Attempt(status, capacity, pending, count, block, isInternal);
      && (decision == Some(Success) <==> Admits(status, isInternal) && HasRoom(capacity, pending, count, isInternal))
      && (decision == Some(DecidedStopped) <==> status.state.Stopped?)
      && (decision == Some(DecidedStopping) <==> status.state.Stopping? && !Admits(status, isInternal))
      && (decision == Some(CapacityExhausted) <==>
            && Admits(status, isInternal) && !HasRoom(capacity, pending, count, isInternal)
            && (count > capacity || !block))
      && pending' == pending + if decision == Some(Success) && !isInternal then count else 0
  {
  }

  /// A caller waits only while the scheduler is not stopping and its slots are really not there;
  /// a count that can never fit is refused at once.
  lemma WaitsOnlyWhenFull(status: Status, capacity: nat, pending: nat, count: nat, block: bool, isInternal: bool)
    requires pending <= capacity
    ensures Attempt(status, capacity, pending, count, block, isInternal).0.None? <==>
      && !status.state.Stopped? && !status.state.Stopping?
      && !isInternal && block && 0 < count <= capacity && pending + count > capacity
  {
  }
}
