/** The disk state machine that gates durable ACKs (internal/ingest/disk.go). */
module Disk {

  datatype Policy = Policy(high: nat, critical: nat, emergency: nat, maxSegments: nat, maxBytes: nat)

  predicate PolicyValid(p: Policy) {
    0 < p.emergency < p.critical < p.high && (p.maxSegments == 0 <==> p.maxBytes == 0)
  }

  datatype Usage = Unavailable | Usage(free: nat, total: nat)

  datatype Class = Normal | High | Critical | Emergency

  datatype Reason = Clear | Unobserved | UsageUnavailable | HighWatermark | CriticalWatermark | EmergencyWatermark | Backlog | WalPoisoned

  datatype State = State(
    class_: Class, free: nat, total: nat, ackAllowed: bool, poisoned: bool, reason: Reason,
    pendingSegments: nat, pendingBytes: nat, workerPriority: bool)

  /** Durable ACKs are allowed: usage is known, above the critical mark, the backlog is small, nothing is poisoned. */
  predicate Ready(p: Policy, u: Usage, segments: nat, bytes: nat, poisoned: bool) {
    && u.Usage? && 0 < u.total && p.critical <= u.free <= u.total
    && (p.maxSegments == 0 || (segments < p.maxSegments && bytes < p.maxBytes))
    && !poisoned
  }

  class Machine {
    const policy: Policy
    var state: State
    var poisoned: bool

    constructor (policy: Policy)
      requires PolicyValid(policy)
      ensures this.policy == policy && !poisoned && !state.ackAllowed
      ensures state.pendingSegments == state.pendingBytes == 0
    {
      this.policy := policy;
      state := State(Emergency, 0, 0, false, false, Unobserved, 0, 0, false);
      poisoned := false;
    }

    static function Classify(free: nat, p: Policy): Class {
      if free >= p.high then Normal
      else if free >= p.critical then High
      else if free >= p.emergency then Critical
      else Emergency
    }

    predicate PendingOverLimit(segments: nat, bytes: nat) {
      policy.maxSegments != 0 && (segments >= policy.maxSegments || bytes >= policy.maxBytes)
    }

    method Refresh(usage: Usage) returns (result: State)
      requires PolicyValid(policy)
      modifies this`state
      ensures result == state
      ensures state.ackAllowed == Ready(policy, usage, old(state.pendingSegments), old(state.pendingBytes), poisoned)
      ensures state.pendingSegments == old(state.pendingSegments) && state.pendingBytes == old(state.pendingBytes)
      ensures state.poisoned == poisoned
      ensures state.ackAllowed ==> state.reason == (if usage.free >= policy.high then Clear else HighWatermark)
      ensures !state.ackAllowed ==> state.reason != Clear
      ensures poisoned && usage.Usage? && 0 < usage.total && usage.free <= usage.total ==> state.reason == WalPoisoned
      ensures state.workerPriority <==> state.class_ != Normal || PendingOverLimit(state.pendingSegments, state.pendingBytes)
    {
      if usage.Unavailable? || usage.total == 0 || usage.free > usage.total {
        state := State(Emergency, 0, 0, false, poisoned, UsageUnavailable, state.pendingSegments, state.pendingBytes, true);
        return state;
      }
      var c := Classify(usage.free, policy);
      var ready := c == Normal || c == High;
      var workerPriority := c != Normal;
      var reason := Clear;
      if c == High {
        reason := HighWatermark;
      } else if c == Critical {
        reason := CriticalWatermark;
      } else if c == Emergency {
        reason := EmergencyWatermark;
      }
      if PendingOverLimit(state.pendingSegments, state.pendingBytes) {
        ready := false;
        reason := Backlog;
        workerPriority := true;
      }
      if poisoned {
        ready := false;
        reason := WalPoisoned;
      }
      state := State(c, usage.free, usage.total, ready, poisoned, reason, state.pendingSegments, state.pendingBytes, workerPriority);
      return state;
    }

    method SetPendingPublication(segments: nat, bytes: nat, usage: Usage)
      requires PolicyValid(policy)
      modifies this`state
      ensures state.pendingSegments == segments && state.pendingBytes == bytes
      ensures state.ackAllowed == Ready(policy, usage, segments, bytes, poisoned)
    {
      state := state.(pendingSegments := segments, pendingBytes := bytes);
      var _ := Refresh(usage);
    }

    /** Sticky: from here on no refresh allows an ACK, however much space is free. */
    method MarkPoisoned(usage: Usage)
      requires PolicyValid(policy)
      modifies this
      ensures poisoned && !state.ackAllowed
      ensures state.pendingSegments == old(state.pendingSegments) && state.pendingBytes == old(state.pendingBytes)
    {
      poisoned := true;
      var _ := Refresh(usage);
    }

    method ReadyForAck(usage: Usage) returns (ready: bool)
      requires PolicyValid(policy)
      modifies this`state
      ensures ready == Ready(policy, usage, old(state.pendingSegments), old(state.pendingBytes), poisoned)
      ensures state.pendingSegments == old(state.pendingSegments) && state.pendingBytes == old(state.pendingBytes)
    {
      var s := Refresh(usage);
      return s.ackAllowed;
    }
  }
}
