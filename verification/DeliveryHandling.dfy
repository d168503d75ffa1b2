/**
 How one delivery is settled. The broker, the durable authority, the download and the engine answer
 as they like; between two awaits the connection may be lost and the worker may begin to stop.
 */
module DeliveryHandling {
  import opened Wrappers

  /** An answer of the durable authority. */
  datatype Reply = Reply(granted: bool, terminal: bool, cancelRequested: bool, applied: bool, ok: bool, hasLease: bool)

  datatype Request = Claim | Finish | ReleaseJob

  datatype Error = Cancelled | Control | TerminationFailed | Permanent | Retryable

  /** Why a delivery may be acknowledged. */
  datatype Reason = DeadLettered | Ended | Persisted | PersistedAndDeadLettered

  /** What the authority and the broker have confirmed during the current handling of the delivery. */
  datatype Evidence = Evidence(ended: bool, persisted: bool, deadLettered: bool)

  predicate Justifies(e: Evidence, reason: Reason) {
    match reason
    case DeadLettered => e.deadLettered
    case Ended => e.ended
    case Persisted => e.persisted
    case PersistedAndDeadLettered => e.persisted && e.deadLettered
  }

  /** Claims end a job that is over; finishing and releasing persist an outcome. */
  function Learned(e: Evidence, request: Request, reply: Reply): Evidence {
    match request
    case Claim => e.(ended := e.ended || reply.terminal || reply.cancelRequested)
    case _ => e.(persisted := e.persisted || reply.applied || reply.terminal)
  }

  const NOTHING := Evidence(false, false, false)

  class Delivery {
    /** The channel the delivery came on is still the coordinator's channel. */
    var current: bool
    var connected: bool
    var stopping: bool
    var settled: bool

    ghost var acks: seq<Reason>
    ghost var nacks: nat
    ghost var evidence: Evidence

    /** At most one acknowledgement of either kind, and only for a reason. */
    ghost predicate Valid()
      reads this
    {
      |acks| + nacks == if settled then 1 else 0
    }

    constructor ()
      ensures Valid() && current && connected && !settled && acks == [] && nacks == 0
    {
      current, connected, stopping, settled := true, true, false, false;
      acks, nacks, evidence := [], 0, NOTHING;
    }

    /** Other code runs: a lost channel never comes back, and stopping is final. */
    method Await()
      modifies this`current, this`connected, this`stopping
      ensures (current ==> old(current)) && (old(stopping) ==> stopping)
    {
      var lost: bool, disconnected: bool, stop: bool := *, *, *;
      current := current && !lost;
      connected := connected && !disconnected;
      stopping := stopping || stop;
    }

    method LoseConnection()
      modifies this`current, this`connected
      ensures !connected && (current ==> old(current) && !old(connected))
    {
      if connected {
        connected, current := false, false;
      }
    }

    /** The broker call may throw; then the delivery stays unsettled. */
    method Acknowledge(ghost reason: Reason) returns (done: bool)
      requires Valid() && Justifies(evidence, reason)
      modifies this`settled, this`acks
      ensures Valid()
      ensures done ==> old(current) && !old(settled) && settled && acks == old(acks) + [reason]
      ensures !done ==> settled == old(settled) && acks == old(acks)
    {
      if !current || settled {
        return false;
      }
      var threw: bool := *;
      if threw {
        return false;
      }
      settled := true;
      acks := acks + [reason];
      return true;
    }

    method NegativeAcknowledge() returns (done: bool)
      requires Valid()
      modifies this`settled, this`nacks
      ensures Valid()
      ensures done ==> old(current) && !old(settled) && settled && nacks == old(nacks) + 1
      ensures !done ==> settled == old(settled) && nacks == old(nacks)
    {
      if !current || settled {
        return false;
      }
      var threw: bool := *;
      if threw {
        return false;
      }
      settled, nacks := true, nacks + 1;
      return true;
    }

    method Ask(request: Request) returns (r: Result<Reply, Error>)
      modifies this`current, this`connected, this`stopping, this`evidence
      ensures (current ==> old(current)) && (old(stopping) ==> stopping)
      ensures evidence == if r.Success? then Learned(old(evidence), request, r.value) else old(evidence)
      ensures r.Failure? ==> r.error == Control
    {
      Await();
      var answered: bool := *;
      if !answered {
        return Failure(Control);
      }
      var reply: Reply := *;
      evidence := Learned(evidence, request, reply);
      return Success(reply);
    }

    /** Waits for the broker to confirm the dead letter. */
    method PublishDeadLetter() returns (confirmed: bool)
      modifies this`current, this`connected, this`stopping, this`evidence
      ensures (current ==> old(current)) && (old(stopping) ==> stopping)
      ensures evidence == if confirmed then old(evidence).(deadLettered := true) else old(evidence)
    {
      if !current {
        return false;
      }
      Await();
      confirmed := *;
      if confirmed {
        evidence := evidence.(deadLettered := true);
      }
    }

    /** A waiting job was cancelled or has expired: only the authority can say whether it is over. */
    method RecheckWaitingJob() returns (r: Result<bool, Error>)
      modifies this`current, this`connected, this`stopping, this`evidence
      ensures (current ==> old(current)) && (old(stopping) ==> stopping)
      ensures r == Success(true) ==> evidence.ended || evidence.persisted
    {
      var claim := Ask(Claim);
      if claim.Failure? {
        return Failure(claim.error);
      }
      if claim.value.terminal || claim.value.cancelRequested {
        return Success(true);
      }
      if !claim.value.granted {
        return if claim.value.ok then Success(false) else Failure(Control);
      }
      var reply := Ask(ReleaseJob);
      if reply.Failure? {
        return Failure(reply.error);
      }
      if !reply.value.applied && !reply.value.terminal {
        return Failure(Control);
      }
      return Success(true);
    }

    /** The work on a claimed job: checks, download, loading and the engine, any of which may fail. */
    method Work(hasLease: bool) returns (r: Result<bool, Error>)
      modifies this`current, this`connected, this`stopping
      ensures (current ==> old(current)) && (old(stopping) ==> stopping)
    {
      if !hasLease {
        return Failure(Retryable);
      }
      Await();
      r := *;
    }

    /** Persists an outcome; an answer that is neither applied nor terminal is an error. */
    method Persist(request: Request) returns (r: Result<Reply, Error>)
      requires request != Claim
      modifies this`current, this`connected, this`stopping, this`evidence
      ensures (current ==> old(current)) && (old(stopping) ==> stopping)
      ensures r.Success? ==> evidence.persisted
    {
      r := Ask(request);
      if r.Success? && !r.value.applied && !r.value.terminal {
        return Failure(Control);
      }
    }

    /** What follows an error: nothing is acknowledged unless its outcome is persisted. */
    method Recover(error: Error, executing: bool)
      requires Valid()
      modifies this
      ensures Valid() && (old(settled) ==> acks == old(acks) && nacks == old(nacks))
      ensures |old(acks)| <= |acks| <= |old(acks)| + 1 && old(acks) <= acks
      ensures |acks| > |old(acks)| ==> evidence.persisted && Justifies(evidence, acks[|acks| - 1])
      ensures |acks| > |old(acks)| && error == Permanent ==> evidence.deadLettered
    {
      if error == TerminationFailed {
        stopping := true;
        return;
      }
      Await();
      var cancelFailed: bool := *;
      if cancelFailed || stopping || !current {
        return;
      }
      if !executing || error == Control {
        LoseConnection();
        Await();
        if !connected && current {
          var _ := NegativeAcknowledge();
        }
        return;
      }
      var permanent := error == Cancelled || error == Permanent;
      var reply := Persist(if permanent then Finish else ReleaseJob);
      if reply.Success? {
        if permanent && error != Cancelled {
          var confirmed := PublishDeadLetter();
          if confirmed {
            var _ := Acknowledge(PersistedAndDeadLettered);
            return;
          }
        } else {
          var _ := Acknowledge(Persisted);
          return;
        }
      }
      LoseConnection();
    }

    /**
     Handles the delivery once. If it is acknowledged now, the authority has answered that the job is
     over or that its outcome is applied, or the dead letter is confirmed; a permanent failure needs both.
     */
    method Handle() returns (deferred: bool)
      requires Valid()
      modifies this
      ensures Valid() && |old(acks)| <= |acks| <= |old(acks)| + 1 && old(acks) <= acks
      ensures old(settled) ==> acks == old(acks) && nacks == old(nacks)
      ensures |acks| > |old(acks)| ==> Justifies(evidence, acks[|acks| - 1])
      ensures deferred ==> acks == old(acks) && nacks == old(nacks)
    {
      evidence := NOTHING;
      deferred := false;
      if !current {
        return;
      }
      var readable: bool := *;
      if !readable {
        var confirmed := PublishDeadLetter();
        if confirmed {
          var _ := Acknowledge(DeadLettered);
        }
        return;
      }
      Await();
      var resident: bool, recheck: bool, cancelled: bool := *, *, *;
      if !resident {
        if cancelled && recheck && !stopping && current {
          var outcome := RecheckWaitingJob();
          match outcome {
            case Success(over) =>
              if over {
                var _ := Acknowledge(if evidence.ended then Ended else Persisted);
              }
              deferred := !over;
            case Failure(error) =>
              Recover(error, false);
          }
          return;
        }
        Recover(if cancelled then Cancelled else Retryable, false);
        return;
      }
      deferred := HandleResident();
    }

    /** The part of the handling after residency is ensured. */
    method HandleResident() returns (deferred: bool)
      requires Valid()
      modifies this
      ensures Valid() && (old(settled) ==> acks == old(acks) && nacks == old(nacks))
      ensures |old(acks)| <= |acks| <= |old(acks)| + 1 && old(acks) <= acks
      ensures |acks| > |old(acks)| ==> Justifies(evidence, acks[|acks| - 1])
      ensures deferred ==> acks == old(acks) && nacks == old(nacks)
    {
      deferred := false;
      var claim := Ask(Claim);
      if claim.Failure? {
        Recover(claim.error, false);
        return;
      }
      if !claim.value.granted {
        if claim.value.terminal || claim.value.cancelRequested {
          var _ := Acknowledge(Ended);
          return;
        }
        if !claim.value.ok {
          Recover(Control, false);
          return;
        }
        return true;
      }
      var part := Work(claim.value.hasLease);
      if part.Failure? {
        Recover(part.error, true);
        return;
      }
      var reply := Persist(if part.value then Finish else ReleaseJob);
      if reply.Failure? {
        Recover(Control, true);
        return;
      }
      var _ := Acknowledge(Persisted);
    }

    /**
     The life of a delivery: handled again as long as it is deferred. However often that is, it is
     acked or nacked at most once, and acked only with evidence from the handling that acks it.
     */
    method Settle(times: nat)
      requires Valid() && !settled && acks == [] && nacks == 0
      modifies this
      ensures Valid() && |acks| + nacks <= 1
      ensures acks != [] ==> Justifies(evidence, acks[0])
    {
      var left := times;
      var deferred := true;
      while left > 0 && deferred
        invariant Valid() && (deferred ==> acks == [])
        invariant acks != [] ==> Justifies(evidence, acks[0])
        decreases left
      {
        deferred := Handle();
        left := left - 1;
      }
    }
  }
}
