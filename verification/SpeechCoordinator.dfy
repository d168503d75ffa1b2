/**
 The coordinator object: its methods are the code of the speech coordinator between two awaits, and
 each one takes exactly one step of the residency protocol.
 */
module SpeechCoordinators {
  import opened Wrappers
  import opened Residency

  lemma {:induction false} GrantKeeps(s: State, i: nat, slot: nat)
    requires Possible(s, i, Grant(slot))
    ensures Invariant(s) ==> Invariant(Next(s, i, Grant(slot))) && s.coordinators[i].open == {}
  {
    hide LocalInvariant, Step, SlotsAfter;
    if Invariant(s) {
      StepKeeps(s, i, Grant(slot));
      assert LocalInvariant(s.coordinators[i]);
      NoModelIsLeft(s.coordinators[i]);
    }
  }

  lemma {:induction false} NoModelIsLeft(c: Coordinator)
    requires LocalInvariant(c) && (c.acquiring != NotAcquiring || c.release.Returning? || c.stop.StopReturning?)
    ensures c.open == {}
  {
    hide OneModel, Leases, Tasks;
  }

  /** One round of acquire, asking for queue after queue: the first slot that the broker can grant, if there is one. */
  method FirstFreeSlot(s: State, i: nat) returns (slot: Option<nat>)
    requires i in s.coordinators && s.coordinators[i].acquiring.Asking?
      && Alive(s.coordinators[i], s.coordinators[i].acquiring.conn)
    ensures slot.Some? ==>
      Possible(s, i, Grant(slot.value)) && forall k: nat :: k < slot.value ==> !Possible(s, i, Grant(k))
    ensures slot.None? ==> forall k: nat :: !Possible(s, i, Grant(k))
    ensures slot.Some? && Invariant(s) ==> Invariant(Next(s, i, Grant(slot.value)))
    ensures slot.Some? && Invariant(s) ==> s.coordinators[i].open == {}
  {
    var k := 0;
    while k < s.globalConcurrency
      invariant k <= s.globalConcurrency && forall j: nat :: j < k ==> j in s.slots
    {
      if k !in s.slots {
        GrantKeeps(s, i, k);
        return Some(k);
      }
      k := k + 1;
    }
    return None;
  }

  lemma {:induction false} NothingToConnect(c: Coordinator)
    requires Enabled(c, Connect)
    ensures LocalInvariant(c) ==> c.open == {}
  {
    hide OneModel, Tasks;
  }

  lemma {:induction false} NothingAcquired(c: Coordinator)
    requires c.acquiring.Granted?
    ensures LocalInvariant(c) ==> c.open == {}
  {
    hide LocalInvariant;
    if LocalInvariant(c) {
      NoModelIsLeft(c);
    }
  }

  lemma {:induction false} StartsEmpty(c: Coordinator)
    ensures LocalInvariant(c) && c.acquiring != NotAcquiring ==> c.open == {}
    ensures LocalInvariant(c) && Enabled(c, StartAcquire) ==> c.open == {}
  {
    hide OneModel, Tasks;
  }

  /** A model is only ever started by a coordinator that holds a lease. */
  lemma {:induction false} LoadsUnderLease(c: Coordinator, a: Action)
    requires Enabled(c, a) && (a.BeginLoad? || a.ResumeLoad?)
    ensures LocalInvariant(c) && Step(c, a).load.Warming? ==> c.lease.Some?
  {
    hide OneModel, Leases, Unloads;
  }

  /** A lease goes back to the broker only with no model left. */
  lemma {:induction false} ReturnsEmpty(c: Coordinator, a: Action)
    requires Enabled(c, a) && (a.ReleaseContinue? || a.StopReturn? || a.StopReturned?)
    ensures var d := Step(c, a);
      LocalInvariant(c) && (d.release.Returning? || d.stop.StopReturning? || a.StopReturned?) ==> d.open == {}
  {
    hide OneModel, Leases, Tasks;
  }

  lemma {:induction false} LocalStep(c: Coordinator, a: Action)
    requires Enabled(c, a)
    ensures LocalInvariant(c) && Guarded(c, a) ==> LocalInvariant(Step(c, a))
  {
    hide LocalInvariant, Enabled, Guarded, Step;
    if LocalInvariant(c) && Guarded(c, a) {
      StepKeepsLocal(c, a);
    }
  }

  class SpeechCoordinator {
    var epoch: nat
    var connection: Option<nat>
    var residentLease: Option<Lease>
    var residencyAcquiring: Acquiring
    var provider: Option<Model>
    var providerUnloadTask: Option<Model>
    var loading: Load
    var active: Task
    var residencyReleaseTask: Release
    var lossBarrier: Barrier
    var stopTask: Stop
    var stopping: bool

    ghost var dropped: bool
    ghost var broken: bool
    ghost var open: set<Model>

    ghost function View(): Coordinator
      reads this
    {
      Coordinator(epoch, connection, dropped, residentLease, residencyAcquiring, provider, providerUnloadTask, loading,
        active,
        residencyReleaseTask, lossBarrier, stopTask, stopping, broken, open)
    }

    /** Kept by every step of the protocol whose guard holds; see `ResidencySafety.GuardIsExact` for the others. */
    ghost predicate Valid()
      reads this
    {
      LocalInvariant(View())
    }

    constructor ()
      ensures Valid() && View() == STANDBY
    {
      epoch, connection, residentLease, residencyAcquiring := 0, None, None, NotAcquiring;
      provider, providerUnloadTask, loading, active := None, None, NotLoading, Idle;
      residencyReleaseTask, lossBarrier, stopTask, stopping := NotReleasing, NoBarrier, NotStopped, false;
      dropped, broken, open := false, false, {};
    }

    // ---------------------------------------------------------------- connecting and acquiring

    method Connected()
      requires Enabled(View(), Connect)
      modifies this
      ensures View() == Step(old(View()), Connect)
      ensures old(Valid()) ==> Valid()
      ensures old(Valid()) ==> open == {}
    {
      hide LocalInvariant, Unwatched, Oblivious;
      LocalStep(View(), Connect);
      NothingToConnect(View());
      connection, epoch := Some(epoch), epoch + 1;
      dropped := false;
    }

    /** Once no release is in progress: the lease held, the acquisition in progress, or a new one. */
    method EnsureResidency() returns (lease: Option<Lease>)
      requires connection.Some? && residencyReleaseTask == NotReleasing && !stopping
      modifies this
      ensures lease == old(residentLease)
      ensures View() == if Enabled(old(View()), StartAcquire) then Step(old(View()), StartAcquire) else old(View())
      ensures old(Valid()) ==> Valid()
      ensures old(Valid()) && residencyAcquiring != NotAcquiring ==> open == {}
    {
      hide LocalInvariant, Unwatched, Oblivious;
      if Enabled(View(), StartAcquire) {
        LocalStep(View(), StartAcquire);
      }
      StartsEmpty(View());
      if residentLease.Some? {
        return residentLease;
      }
      if residencyAcquiring == NotAcquiring {
        residencyAcquiring := Asking(connection.value);
      }
      return None;
    }

    /** The broker granted a slot; a cancelled acquisition gives it back instead of keeping it. */
    method Acquired(interrupted: bool) returns (kept: bool)
      requires Enabled(View(), FinishAcquire(interrupted))
      modifies this
      ensures View() == Step(old(View()), FinishAcquire(interrupted))
      ensures kept ==> residentLease == Some(old(residencyAcquiring).lease) && !stopping
      ensures old(Valid()) ==> Valid()
      ensures old(Valid()) ==> open == {}
    {
      hide LocalInvariant, Unwatched, Oblivious;
      LocalStep(View(), FinishAcquire(interrupted));
      NothingAcquired(View());
      var lease := residencyAcquiring.lease;
      if interrupted || stopping || connection != Some(lease.conn) {
        residencyAcquiring := GivingBack(lease);
        return false;
      }
      residencyAcquiring, residentLease := NotAcquiring, Some(lease);
      return true;
    }

    // ---------------------------------------------------------------- loading and unloading

    method UnloadProvider()
      modifies this
      ensures View() == Unload(old(View()))
    {
      if providerUnloadTask.Some? {
        return;
      }
      providerUnloadTask, provider := provider, None;
    }

    /** Takes the provider, or creates one, and starts warming it up. */
    method WarmUp(model: Model)
      modifies this
      ensures View() == Create(old(View()), model)
    {
      if provider.None? {
        provider := Some(model);
        open := open + {model};
      }
      loading := Warming(provider.value);
    }

    method LoadProvider(model: Model)
      requires Enabled(View(), BeginLoad(model))
      modifies this
      ensures View() == Step(old(View()), BeginLoad(model))
      ensures old(Valid()) ==> Valid()
      ensures old(Valid()) && loading.Warming? ==> residentLease.Some?
    {
      hide LocalInvariant, Unwatched, Oblivious;
      LocalStep(View(), BeginLoad(model));
      LoadsUnderLease(View(), BeginLoad(model));
      if providerUnloadTask.Some? {
        loading := AwaitingUnload;
        return;
      }
      if stopping {
        return;
      }
      WarmUp(model);
    }

    /** The unload that the load waited for has ended: only `stopping` is checked again. */
    method ContinueLoading(model: Model)
      requires Enabled(View(), ResumeLoad(model))
      modifies this
      ensures View() == Step(old(View()), ResumeLoad(model))
      ensures old(Valid()) ==> Valid()
      ensures old(Valid()) && loading.Warming? ==> residentLease.Some?
    {
      hide LocalInvariant, Unwatched, Oblivious;
      LocalStep(View(), ResumeLoad(model));
      LoadsUnderLease(View(), ResumeLoad(model));
      if stopping {
        loading := NotLoading;
        return;
      }
      WarmUp(model);
    }

    /** The warmup ended: the provider is kept only if it is still this coordinator's provider. */
    method WarmedUp(succeeded: bool) returns (loaded: bool)
      requires loading.Warming? && (succeeded ==> loading.model in open)
      modifies this
      ensures loaded <==> succeeded && old(Enabled(View(), LoadReady))
      ensures View() == if loaded then Step(old(View()), LoadReady) else Step(old(View()), LoadFail)
      ensures old(Valid()) ==> Valid()
    {
      hide LocalInvariant, Unwatched, Oblivious;
      LocalStep(View(), LoadFail);
      if Enabled(View(), LoadReady) {
        LocalStep(View(), LoadReady);
      }
      var model := loading.model;
      if succeeded && !stopping && provider == Some(model) {
        loading := NotLoading;
        return true;
      }
      if provider == Some(model) {
        provider := None;
      }
      loading := Terminating(model);
      return false;
    }

    method FailedLoadTerminated(ok: bool)
      requires Enabled(View(), LoadTerminated(ok))
      modifies this
      ensures View() == Step(old(View()), LoadTerminated(ok))
      ensures old(Valid()) ==> Valid()
    {
      hide LocalInvariant, Unwatched, Oblivious;
      LocalStep(View(), LoadTerminated(ok));
      var model := loading.model;
      if ok {
        open := open - {model};
      } else {
        provider := Some(model);
        broken := true;
      }
      loading := NotLoading;
    }

    method UnloadSucceeded()
      requires providerUnloadTask.Some?
      modifies this
      ensures View() == DoUnloadDone(old(View()), true)
      ensures old(Valid()) && !old(broken) ==> Valid()
    {
      hide LocalInvariant, Unwatched, Oblivious;
      if !broken {
        LocalStep(View(), UnloadDone(true));
      }
      ghost var model := providerUnloadTask.value;
      providerUnloadTask := None;
      open := open - {model};
    }

    /** The idle timer fired: nothing but the model is given up. */
    method UnloadIdle()
      requires Enabled(View(), IdleUnload)
      modifies this
      ensures View() == Step(old(View()), IdleUnload)
      ensures old(Valid()) ==> Valid()
      ensures residentLease == old(residentLease)
    {
      hide LocalInvariant, Unwatched, Oblivious;
      LocalStep(View(), IdleUnload);
      UnloadProvider();
    }

    method RejectWaiters()
      modifies this
      ensures View() == FailWaiters(old(View()))
    {
      residencyReleaseTask := if residencyReleaseTask.Unloading? then NotReleasing else residencyReleaseTask;
      stopTask := if stopTask == StopUnloading then StopFailed else stopTask;
      loading := if loading == AwaitingUnload then NotLoading else loading;
    }

    /** Everything that waited for the unload fails, and the provider is kept. */
    method UnloadFailed()
      requires providerUnloadTask.Some?
      modifies this
      ensures View() == DoUnloadDone(old(View()), false)
      ensures old(Valid()) ==> Valid()
    {
      hide LocalInvariant, Unwatched, Oblivious;
      LocalStep(View(), UnloadDone(false));
      RejectWaiters();
      provider, providerUnloadTask, broken := providerUnloadTask, None, true;
      stopping := stopping || lossBarrier.Closing?;
      lossBarrier := if lossBarrier.Closing? then Stuck else lossBarrier;
    }

    // ---------------------------------------------------------------- releasing

    method ReleaseResidency()
      requires Enabled(View(), BeginRelease)
      modifies this
      ensures View() == Step(old(View()), BeginRelease)
      ensures old(Valid() && Guarded(View(), BeginRelease)) ==> Valid()
    {
      hide LocalInvariant, Guarded;
      LocalStep(View(), BeginRelease);
      residencyReleaseTask := Unloading(residentLease.value);
      UnloadProvider();
    }

    /** After the unload: the lease is returned only if it is still this connection's lease. */
    method ContinueRelease()
      requires Enabled(View(), ReleaseContinue)
      modifies this
      ensures View() == Step(old(View()), ReleaseContinue)
      ensures old(Valid()) ==> Valid()
      ensures old(Valid()) && residencyReleaseTask.Returning? ==> open == {}
    {
      hide LocalInvariant, Unwatched, Oblivious;
      LocalStep(View(), ReleaseContinue);
      ReturnsEmpty(View(), ReleaseContinue);
      var lease := residencyReleaseTask.lease;
      if residentLease != Some(lease) || connection != Some(lease.conn) {
        residencyReleaseTask := NotReleasing;
        return;
      }
      residentLease, residencyReleaseTask := None, Returning(lease);
    }

    /** Only the notification of the current connection counts. */
    method OnConnectionLost(lost: nat)
      modifies this
      ensures View() == if old(connection) == Some(lost) then Step(old(View()), LossNoticed) else old(View())
      ensures old(Valid() && (connection == Some(lost) ==> Guarded(View(), LossNoticed))) ==> Valid()
    {
      hide LocalInvariant, Guarded;
      if connection == Some(lost) {
        LocalStep(View(), LossNoticed);
      }
      if connection != Some(lost) {
        return;
      }
      connection, residentLease, lossBarrier := None, None, Closing(lost);
      active := Abort(active);
      UnloadProvider();
    }

    // ---------------------------------------------------------------- stopping

    method BeginStopping()
      requires Enabled(View(), BeginStop)
      modifies this
      ensures View() == Step(old(View()), BeginStop)
      ensures old(Valid()) ==> Valid()
    {
      hide LocalInvariant, Unwatched, Oblivious;
      LocalStep(View(), BeginStop);
      stopTask, stopping := Draining, true;
    }

    /** The running job has settled, or its grace period is over and it is aborted. */
    method StopProvider(forced: bool)
      requires Enabled(View(), StopUnload(forced))
      modifies this
      ensures View() == Step(old(View()), StopUnload(forced))
      ensures old(Valid() && Guarded(View(), StopUnload(forced))) ==> Valid()
    {
      hide LocalInvariant, Guarded;
      LocalStep(View(), StopUnload(forced));
      stopTask := StopUnloading;
      active := Abort(active);
      UnloadProvider();
    }

    method ReturnLease()
      requires Enabled(View(), StopReturn)
      modifies this
      ensures View() == Step(old(View()), StopReturn)
      ensures old(Valid()) ==> Valid()
      ensures old(Valid()) && stopTask.StopReturning? ==> open == {}
    {
      hide LocalInvariant, Unwatched, Oblivious;
      LocalStep(View(), StopReturn);
      ReturnsEmpty(View(), StopReturn);
      stopTask := if residentLease.Some? then StopReturning(residentLease.value) else StopEnded;
    }

    method LeaseReturned()
      requires Enabled(View(), StopReturned)
      modifies this
      ensures View() == Step(old(View()), StopReturned)
      ensures old(Valid()) ==> Valid()
      ensures old(Valid()) ==> open == {}
    {
      hide LocalInvariant, Unwatched, Oblivious;
      LocalStep(View(), StopReturned);
      ReturnsEmpty(View(), StopReturned);
      stopTask, residentLease := StopEnded, None;
    }
  }
}
