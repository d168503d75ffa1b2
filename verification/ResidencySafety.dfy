/**
 What the residency protocol guarantees over every run, and exactly when: the three steps that give
 up a slot are safe if and only if the guard of their branch holds.
 */
module ResidencySafety {
  import opened Wrappers
  import opened Residency

  /** A pool in which no coordinator has connected yet. */
  ghost predicate Initial(s: State) {
    s.slots == map[] && forall i :: i in s.coordinators ==> s.coordinators[i] == STANDBY
  }

  lemma {:induction false} InitialIsSound(s: State)
    requires Initial(s)
    ensures Invariant(s)
  {
  }

  lemma {:induction false} GuardedRunKeeps(s: State, events: seq<Event>, t: State)
    requires Invariant(s) && GuardedRun(s, events, t)
    ensures Invariant(t) && t.globalConcurrency == s.globalConcurrency
    decreases |events|
  {
    hide Invariant, Possible, Guarded, Step, SlotsAfter;
    if events != [] {
      StepKeeps(s, events[0].coordinator, events[0].action);
      GuardedRunKeeps(Next(s, events[0].coordinator, events[0].action), events[1..], t);
    }
  }

  /** Every live model belongs to a coordinator that owns a slot, unless its connection is being lost. */
  lemma {:induction false} LiveModelsAreLeased(s: State, events: seq<Event>, t: State, i: nat)
    requires Initial(s) && GuardedRun(s, events, t) && i in t.coordinators
    ensures Safe(t, i)
  {
    hide GuardedRun, Initial;
    InitialIsSound(s);
    GuardedRunKeeps(s, events, t);
    InvariantIsSafe(t, i);
  }

  lemma {:induction false} InvariantIsSafe(t: State, i: nat)
    requires Invariant(t) && i in t.coordinators
    ensures Safe(t, i)
  {
    hide OneModel, Tasks, Owns;
  }

  // ---------------------------------------------------------------- at most globalConcurrency models

  /** No coordinator is dealing with a lost connection. */
  ghost predicate Undisturbed(s: State) {
    forall i :: i in s.coordinators ==> !s.coordinators[i].dropped && s.coordinators[i].barrier == NoBarrier
  }

  ghost function LiveCoordinators(s: State): set<nat> {
    set i | i in s.coordinators && s.coordinators[i].open != {}
  }

  ghost predicate Injective(ids: set<nat>, slot: map<nat, nat>, limit: nat) {
    && (forall i :: i in ids ==> i in slot && slot[i] < limit)
    && (forall i, j :: i in ids && j in ids && i != j ==> slot[i] != slot[j])
  }

  lemma {:induction false} Pigeonhole(ids: set<nat>, slot: map<nat, nat>, limit: nat)
    requires Injective(ids, slot, limit)
    ensures |ids| <= limit
    decreases limit
  {
    if i: nat :| i in ids && slot[i] == limit - 1 {
      assert Injective(ids - {i}, slot, limit - 1);
      Pigeonhole(ids - {i}, slot, limit - 1);
    } else if limit > 0 {
      assert Injective(ids, slot, limit - 1);
      Pigeonhole(ids, slot, limit - 1);
    } else {
      assert forall i :: i !in ids;
      assert ids == {};
    }
  }

  /** In a run without a lost connection at most globalConcurrency models are live, one per coordinator. */
  lemma {:induction false} LiveModelsAreBounded(s: State, events: seq<Event>, t: State)
    requires Initial(s) && GuardedRun(s, events, t) && Undisturbed(t)
    ensures |LiveCoordinators(t)| <= s.globalConcurrency
    ensures forall i, m, n :: i in t.coordinators && m in t.coordinators[i].open && n in t.coordinators[i].open ==>
      m == n
  {
    hide GuardedRun, Initial, OneModel, Tasks, Leases, Unloads;
    InitialIsSound(s);
    GuardedRunKeeps(s, events, t);
    var slot := map i | i in LiveCoordinators(t) :: SlotOf(t, i);
    forall i | i in LiveCoordinators(t)
      ensures slot[i] in t.slots && t.slots[slot[i]].coordinator == i
    {
      InvariantIsSafe(t, i);
    }
    assert Injective(LiveCoordinators(t), slot, t.globalConcurrency);
    Pigeonhole(LiveCoordinators(t), slot, t.globalConcurrency);
    forall i, m, n | i in t.coordinators && m in t.coordinators[i].open && n in t.coordinators[i].open
      ensures m == n
    {
      OnlyOne(t.coordinators[i], m, n);
    }
  }

  ghost function SlotOf(t: State, i: nat): nat
    requires i in t.coordinators
  {
    if t.coordinators[i].lease.Some? then t.coordinators[i].lease.value.slot else 0
  }

  lemma {:induction false} OnlyOne(c: Coordinator, m: Model, n: Model)
    requires LocalInvariant(c) && m in c.open && n in c.open
    ensures m == n
  {
    hide Leases, Tasks, Unloads;
  }

  // ---------------------------------------------------------------- what giving up and coming back imply

  /** A coordinator gives up a slot, or closes the connection that holds it, only with no model left. */
  lemma {:induction false} SlotsAreGivenUpEmpty(s: State, events: seq<Event>, t: State, i: nat, a: Action)
    requires Initial(s) && GuardedRun(s, events, t) && Possible(t, i, a)
    requires a.GaveBack? || a.ReleaseReturned? || a.BarrierDone? || a.StopReturned?
    ensures t.coordinators[i].open == {}
  {
    hide GuardedRun, Initial;
    InitialIsSound(s);
    GuardedRunKeeps(s, events, t);
    GivenUpEmpty(t.coordinators[i], a);
  }

  lemma {:induction false} GivenUpEmpty(c: Coordinator, a: Action)
    requires LocalInvariant(c) && Enabled(c, a)
    requires a.GaveBack? || a.ReleaseReturned? || a.BarrierDone? || a.StopReturned?
    ensures c.open == {}
  {
    hide OneModel, Leases, Tasks;
  }

  /** After a loss a coordinator reconnects and acquires again only with its old model confirmed dead. */
  lemma {:induction false} ComesBackEmpty(s: State, events: seq<Event>, t: State, i: nat, a: Action)
    requires Initial(s) && GuardedRun(s, events, t) && Possible(t, i, a)
    requires a.Connect? || a.StartAcquire? || a.Grant? || a.FinishAcquire?
    ensures t.coordinators[i].open == {}
  {
    hide GuardedRun, Initial;
    InitialIsSound(s);
    GuardedRunKeeps(s, events, t);
    BackEmpty(t.coordinators[i], a);
  }

  lemma {:induction false} BackEmpty(c: Coordinator, a: Action)
    requires LocalInvariant(c) && Enabled(c, a) && (a.Connect? || a.StartAcquire? || a.Grant? || a.FinishAcquire?)
    ensures c.open == {}
  {
    hide OneModel, Tasks;
  }

  // ---------------------------------------------------------------- the guard is exact

  /** Guarded steps alone lead from here to a live model that no slot and no loss in progress accounts for. */
  ghost predicate CanGoWrong(s: State, i: nat) {
    exists events, t :: GuardedRun(s, events, t) && i in t.coordinators && !Safe(t, i)
  }

  lemma {:induction false} OneStepGoesWrong(s: State, i: nat, a: Action)
    requires Possible(s, i, a) && Guarded(s.coordinators[i], a) && !Safe(Next(s, i, a), i)
    ensures CanGoWrong(s, i)
  {
    var events := [Event(i, a)];
    assert events[1..] == [];
    assert GuardedRun(Next(s, i, a), [], Next(s, i, a));
    assert GuardedRun(s, events, Next(s, i, a));
  }

  lemma {:induction false} LaterGoesWrong(s: State, i: nat, a: Action)
    requires Possible(s, i, a) && Guarded(s.coordinators[i], a) && CanGoWrong(Next(s, i, a), i)
    ensures CanGoWrong(s, i)
  {
    hide Possible, Guarded, Safe, Step, SlotsAfter;
    var next := Next(s, i, a);
    var events, t :| GuardedRun(next, events, t) && i in t.coordinators && !Safe(t, i);
    assert ([Event(i, a)] + events)[1..] == events;
    assert GuardedRun(s, [Event(i, a)] + events, t);
  }

  /** A hand-off while a failed load is still stopping its model gives the slot away under it. */
  lemma {:induction false} UnwatchedReleaseGoesWrong(s: State, i: nat)
    requires Invariant(s) && Possible(s, i, BeginRelease) && Unwatched(s.coordinators[i])
    ensures CanGoWrong(Next(s, i, BeginRelease), i)
  {
    hide CanGoWrong, Tasks;
    var next := Next(s, i, BeginRelease);
    NothingWatches(s.coordinators[i]);
    assert Possible(next, i, ReleaseContinue);
    OneStepGoesWrong(next, i, ReleaseContinue);
  }

  lemma {:induction false} NothingWatches(c: Coordinator)
    requires LocalInvariant(c) && Unwatched(c)
    ensures c.provider.None? && c.unload.None? && c.open != {} && c.acquiring == NotAcquiring
    ensures !c.release.Unloading? && !c.release.Returning? && !c.barrier.Closing?
  {
    hide Tasks;
    assert c.load.model in c.open;
  }

  /** A forced stop while a failed load is still stopping its model returns the slot under it. */
  lemma {:induction false} UnwatchedStopGoesWrong(s: State, i: nat, forced: bool)
    requires Invariant(s) && Possible(s, i, StopUnload(forced)) && s.coordinators[i].lease.Some?
      && Unwatched(s.coordinators[i])
    ensures CanGoWrong(Next(s, i, StopUnload(forced)), i)
  {
    hide CanGoWrong, LocalInvariant;
    assert LocalInvariant(s.coordinators[i]);
    hide Invariant;
    NothingWatches(s.coordinators[i]);
    LeaseIsCurrent(s.coordinators[i]);
    var next := Next(s, i, StopUnload(forced));
    StopGoesWrong(next, i);
  }

  lemma {:induction false} LeaseIsCurrent(c: Coordinator)
    requires LocalInvariant(c) && c.lease.Some?
    ensures c.barrier == NoBarrier
  {
    hide OneModel, Tasks, Unloads;
  }

  lemma {:induction false} StopGoesWrong(s: State, i: nat)
    requires i in s.coordinators
    requires var c := s.coordinators[i];
      && c.stop == StopUnloading && c.unload.None? && c.release == NotReleasing && c.lease.Some?
      && c.open != {} && c.barrier == NoBarrier
    ensures CanGoWrong(s, i)
  {
    hide CanGoWrong;
    assert Possible(s, i, StopReturn);
    var later := Next(s, i, StopReturn);
    assert Possible(later, i, StopReturned);
    OneStepGoesWrong(later, i, StopReturned);
    LaterGoesWrong(s, i, StopReturn);
  }

  /** A loss while a failed load is still stopping its model ends the barrier at once. */
  lemma {:induction false} UnwatchedLossGoesWrong(s: State, i: nat)
    requires Invariant(s) && Possible(s, i, LossNoticed) && Unwatched(s.coordinators[i])
    ensures CanGoWrong(Next(s, i, LossNoticed), i)
  {
    hide CanGoWrong, Tasks;
    var next := Next(s, i, LossNoticed);
    NothingWatches(s.coordinators[i]);
    assert Possible(next, i, BarrierDone);
    OneStepGoesWrong(next, i, BarrierDone);
  }

  /** A loss while a load waits for an unload: the load goes on to start a model without a lease. */
  lemma {:induction false} ObliviousLossGoesWrong(s: State, i: nat)
    requires Invariant(s) && Possible(s, i, LossNoticed) && Oblivious(s.coordinators[i])
    ensures CanGoWrong(Next(s, i, LossNoticed), i)
  {
    hide CanGoWrong, Unloads;
    var next := Next(s, i, LossNoticed);
    var c := next.coordinators[i];
    assert c.load == AwaitingUnload && !c.stopping && !c.broken && c.provider.None? && c.barrier.Closing?
      && c.lease.None?;
    if c.unload.Some? {
      assert Possible(next, i, UnloadDone(true));
      WaitingLoadGoesWrong(Next(next, i, UnloadDone(true)), i);
      LaterGoesWrong(next, i, UnloadDone(true));
    } else {
      WaitingLoadGoesWrong(next, i);
    }
  }

  lemma {:induction false} WaitingLoadGoesWrong(s: State, i: nat)
    requires i in s.coordinators
    requires var c := s.coordinators[i];
      c.load == AwaitingUnload && !c.stopping && c.provider.None? && c.unload.None? && c.barrier.Closing?
        && c.lease.None?
    ensures CanGoWrong(s, i)
  {
    hide CanGoWrong;
    var a := ResumeLoad(Model(0));
    assert Possible(s, i, a);
    var later := Next(s, i, a);
    var c := later.coordinators[i];
    assert Model(0) in c.open && c.provider == Some(Model(0));
    // The barrier does not know this model: it is still waiting for nothing.
    assert Possible(later, i, BarrierDone);
    OneStepGoesWrong(later, i, BarrierDone);
    LaterGoesWrong(s, i, a);
  }

  lemma {:induction false} SoundNeverGoesWrong(s: State, i: nat)
    requires Invariant(s)
    ensures !CanGoWrong(s, i)
  {
    hide Invariant, Safe, GuardedRun;
    if CanGoWrong(s, i) {
      var events, t :| GuardedRun(s, events, t) && i in t.coordinators && !Safe(t, i);
      GuardedRunKeeps(s, events, t);
      InvariantIsSafe(t, i);
    }
  }

  /** Everything stays safe after a step, as long as later steps keep their guard, exactly if its own guard holds. */
  lemma {:induction false} GuardIsExact(s: State, i: nat, a: Action)
    requires Invariant(s) && Possible(s, i, a)
    ensures Guarded(s.coordinators[i], a) <==> !CanGoWrong(Next(s, i, a), i)
  {
    var c := s.coordinators[i];
    hide Invariant, Possible, CanGoWrong, Unwatched, Oblivious, Step, SlotsAfter;
    if Guarded(c, a) {
      StepKeeps(s, i, a);
      SoundNeverGoesWrong(Next(s, i, a), i);
    } else if a.BeginRelease? {
      UnwatchedReleaseGoesWrong(s, i);
    } else if a.StopUnload? {
      UnwatchedStopGoesWrong(s, i, a.forced);
    } else if Unwatched(c) {
      UnwatchedLossGoesWrong(s, i);
    } else {
      ObliviousLossGoesWrong(s, i);
    }
  }

  // ---------------------------------------------------------------- the failing branches are reachable

  ghost predicate Reaches(s: State, t: State) {
    exists events :: GuardedRun(s, events, t)
  }

  /** A run within the guard leads from `s` to `t`, where the step gives the slot away under a live model. */
  ghost predicate Strands(s: State, t: State, i: nat, a: Action) {
    Reaches(s, t) && Possible(t, i, a) && CanGoWrong(Next(t, i, a), i)
  }

  lemma {:induction false} ReachesItself(s: State)
    ensures Reaches(s, s)
  {
    assert GuardedRun(s, [], s);
  }

  lemma {:induction false} ReachesAfter(s: State, i: nat, a: Action, t: State)
    requires Possible(s, i, a) && Guarded(s.coordinators[i], a) && Reaches(Next(s, i, a), t)
    ensures Reaches(s, t)
  {
    hide Possible, Guarded, Step, SlotsAfter;
    var next := Next(s, i, a);
    var events :| GuardedRun(next, events, t);
    assert ([Event(i, a)] + events)[1..] == events;
    assert GuardedRun(s, [Event(i, a)] + events, t);
  }

  /** A pool whose coordinator i is `c` and whose slots are `slots`. */
  function At(s: State, i: nat, c: Coordinator, slots: Slots): State {
    s.(coordinators := s.coordinators[i := c], slots := slots)
  }

  /** Connected, leased, working, and the load of model 0 has failed; its stop() is outstanding. */
  const FAILED_LOAD := Coordinator(1, Some(0), false, Some(Lease(0, 0)), NotAcquiring, None, None,
    Terminating(Model(0)),
    Working(false), NotReleasing, NoBarrier, NotStopped, false, false, {Model(0)})

  lemma {:induction false} LeaseIsReachable(s: State, i: nat, t: State)
    requires Initial(s) && i in s.coordinators && s.globalConcurrency > 0
    requires Reaches(At(s, i, STANDBY.(epoch := 1, connection := Some(0), lease := Some(Lease(0, 0))),
      map[0 := Owner(i, 0)]), t)
    ensures Reaches(s, t)
  {
    hide Reaches;
    var connected := STANDBY.(epoch := 1, connection := Some(0));
    var asking := connected.(acquiring := Asking(0));
    var granted := connected.(acquiring := Granted(Lease(0, 0)));
    var owned: Slots := map[0 := Owner(i, 0)];
    var s1, s2, s3 := At(s, i, connected, map[]), At(s, i, asking, map[]), At(s, i, granted, owned);
    assert Next(s3, i, FinishAcquire(false)) == At(s, i, connected.(lease := Some(Lease(0, 0))), owned);
    ReachesAfter(s3, i, FinishAcquire(false), t);
    assert Next(s2, i, Grant(0)) == s3;
    ReachesAfter(s2, i, Grant(0), t);
    assert Next(s1, i, StartAcquire) == s2;
    ReachesAfter(s1, i, StartAcquire, t);
    assert Next(s, i, Connect) == s1;
    ReachesAfter(s, i, Connect, t);
  }

  lemma {:induction false} FailedLoadIsReachable(s: State, i: nat)
    requires Initial(s) && i in s.coordinators && s.globalConcurrency > 0
    ensures Reaches(s, At(s, i, FAILED_LOAD, map[0 := Owner(i, 0)]))
  {
    hide Reaches;
    var owned: Slots := map[0 := Owner(i, 0)];
    var leased := STANDBY.(epoch := 1, connection := Some(0), lease := Some(Lease(0, 0)));
    var working := leased.(task := Working(false));
    var warming := working.(load := Warming(Model(0)), provider := Some(Model(0)), open := {Model(0)});
    var t := At(s, i, FAILED_LOAD, owned);
    ReachesItself(t);
    assert Next(At(s, i, warming, owned), i, LoadFail) == t;
    ReachesAfter(At(s, i, warming, owned), i, LoadFail, t);
    assert Next(At(s, i, working, owned), i, BeginLoad(Model(0))) == At(s, i, warming, owned) by {
      assert {} + {Model(0)} == {Model(0)};
    }
    ReachesAfter(At(s, i, working, owned), i, BeginLoad(Model(0)), t);
    assert Next(At(s, i, leased, owned), i, BeginTask) == At(s, i, working, owned);
    ReachesAfter(At(s, i, leased, owned), i, BeginTask, t);
    LeaseIsReachable(s, i, t);
  }

  /** From every initial pool a connection lost at the wrong moment can strand a live model. */
  lemma {:induction false} LossCanStrandAModel(s: State, i: nat)
    requires Initial(s) && i in s.coordinators && s.globalConcurrency > 0
    ensures exists t :: Strands(s, t, i, LossNoticed) && Unwatched(t.coordinators[i])
  {
    var t := At(s, i, FAILED_LOAD, map[0 := Owner(i, 0)]);
    assert Possible(t, i, LossNoticed) && Unwatched(t.coordinators[i]);
    hide Reaches, CanGoWrong, Step, SlotsAfter, Unwatched, Invariant, Initial, Possible;
    FailedLoadIsReachable(s, i);
    ReachableIsSound(s, t);
    UnwatchedLossGoesWrong(t, i);
    assert Strands(s, t, i, LossNoticed);
  }

  /** So can a stop whose grace period ends at the wrong moment, with no connection lost at all. */
  lemma {:induction false} StopCanStrandAModel(s: State, i: nat)
    requires Initial(s) && i in s.coordinators && s.globalConcurrency > 0
    ensures exists t :: Strands(s, t, i, StopUnload(true)) && Unwatched(t.coordinators[i])
  {
    var owned: Slots := map[0 := Owner(i, 0)];
    var t, draining := At(s, i, FAILED_LOAD, owned), At(s, i, FAILED_LOAD.(stop := Draining, stopping := true), owned);
    assert Possible(t, i, BeginStop) && Guarded(t.coordinators[i], BeginStop) && Next(t, i, BeginStop) == draining;
    var c := draining.coordinators[i];
    assert Possible(draining, i, StopUnload(true)) && Unwatched(c) && c.lease.Some?;
    hide Reaches, CanGoWrong, Step, SlotsAfter, Unwatched, Invariant, Initial, Possible, Guarded;
    FailedLoadIsReachable(s, i);
    ReachesFurther(s, t, i, BeginStop);
    ReachableIsSound(s, draining);
    UnwatchedStopGoesWrong(draining, i, true);
    assert Strands(s, draining, i, StopUnload(true));
  }

  /** Prewarmed, the load of model 0 has failed and its stop() is outstanding; no job runs. */
  const FAILED_PREWARM := FAILED_LOAD.(task := Idle)

  lemma {:induction false} FailedPrewarmIsReachable(s: State, i: nat)
    requires Initial(s) && i in s.coordinators && s.globalConcurrency > 0
    ensures Reaches(s, At(s, i, FAILED_PREWARM, map[0 := Owner(i, 0)]))
  {
    hide Reaches;
    var owned: Slots := map[0 := Owner(i, 0)];
    var leased := STANDBY.(epoch := 1, connection := Some(0), lease := Some(Lease(0, 0)));
    var warming := leased.(load := Warming(Model(0)), provider := Some(Model(0)), open := {Model(0)});
    var t := At(s, i, FAILED_PREWARM, owned);
    ReachesItself(t);
    assert Next(At(s, i, warming, owned), i, LoadFail) == t;
    ReachesAfter(At(s, i, warming, owned), i, LoadFail, t);
    assert Next(At(s, i, leased, owned), i, Prewarm(Model(0))) == At(s, i, warming, owned) by {
      assert {} + {Model(0)} == {Model(0)};
    }
    ReachesAfter(At(s, i, leased, owned), i, Prewarm(Model(0)), t);
    LeaseIsReachable(s, i, t);
  }

  /** So can a hand-off after a failed prewarm. */
  lemma {:induction false} HandOffCanStrandAModel(s: State, i: nat)
    requires Initial(s) && i in s.coordinators && s.globalConcurrency > 0
    ensures exists t :: Strands(s, t, i, BeginRelease) && Unwatched(t.coordinators[i])
  {
    var t := At(s, i, FAILED_PREWARM, map[0 := Owner(i, 0)]);
    assert Possible(t, i, BeginRelease) && Unwatched(t.coordinators[i]);
    hide Reaches, CanGoWrong, Step, SlotsAfter, Unwatched, Invariant, Initial, Possible;
    FailedPrewarmIsReachable(s, i);
    ReachableIsSound(s, t);
    UnwatchedReleaseGoesWrong(t, i);
    assert Strands(s, t, i, BeginRelease);
  }

  /** The second job waits for the unload of model 0, which the idle timer began after the first one. */
  const WAITING_LOAD := Coordinator(1, Some(0), false, Some(Lease(0, 0)), NotAcquiring, None, Some(Model(0)),
    AwaitingUnload,
    Working(false), NotReleasing, NoBarrier, NotStopped, false, false, {Model(0)})

  lemma {:induction false} WaitingLoadIsReachable(s: State, i: nat)
    requires Initial(s) && i in s.coordinators && s.globalConcurrency > 0
    ensures Reaches(s, At(s, i, WAITING_LOAD, map[0 := Owner(i, 0)]))
  {
    hide Reaches;
    var owned: Slots := map[0 := Owner(i, 0)];
    var loaded := STANDBY.(epoch := 1, connection := Some(0), lease := Some(Lease(0, 0)), task := Working(false),
      provider := Some(Model(0)), open := {Model(0)});
    var idle := loaded.(task := Idle);
    var unloading := idle.(provider := None, unload := Some(Model(0)));
    var again := unloading.(task := Working(false));
    var t := At(s, i, WAITING_LOAD, owned);
    ReachesItself(t);
    assert Next(At(s, i, again, owned), i, BeginLoad(Model(1))) == t;
    ReachesAfter(At(s, i, again, owned), i, BeginLoad(Model(1)), t);
    assert Next(At(s, i, unloading, owned), i, BeginTask) == At(s, i, again, owned);
    ReachesAfter(At(s, i, unloading, owned), i, BeginTask, t);
    assert Next(At(s, i, idle, owned), i, IdleUnload) == At(s, i, unloading, owned);
    ReachesAfter(At(s, i, idle, owned), i, IdleUnload, t);
    assert Next(At(s, i, loaded, owned), i, EndTask) == At(s, i, idle, owned);
    ReachesAfter(At(s, i, loaded, owned), i, EndTask, t);
    LoadedIsReachable(s, i, t);
  }

  lemma {:induction false} LoadedIsReachable(s: State, i: nat, t: State)
    requires Initial(s) && i in s.coordinators && s.globalConcurrency > 0
    requires Reaches(At(s, i,
      STANDBY.(epoch := 1, connection := Some(0), lease := Some(Lease(0, 0)), task := Working(false),
      provider := Some(Model(0)), open := {Model(0)}), map[0 := Owner(i, 0)]), t)
    ensures Reaches(s, t)
  {
    hide Reaches;
    var owned: Slots := map[0 := Owner(i, 0)];
    var leased := STANDBY.(epoch := 1, connection := Some(0), lease := Some(Lease(0, 0)));
    var working := leased.(task := Working(false));
    var warming := working.(load := Warming(Model(0)), provider := Some(Model(0)), open := {Model(0)});
    assert Next(At(s, i, warming, owned), i, LoadReady) == At(s, i, warming.(load := NotLoading), owned);
    ReachesAfter(At(s, i, warming, owned), i, LoadReady, t);
    assert Next(At(s, i, working, owned), i, BeginLoad(Model(0))) == At(s, i, warming, owned) by {
      assert {} + {Model(0)} == {Model(0)};
    }
    ReachesAfter(At(s, i, working, owned), i, BeginLoad(Model(0)), t);
    assert Next(At(s, i, leased, owned), i, BeginTask) == At(s, i, working, owned);
    ReachesAfter(At(s, i, leased, owned), i, BeginTask, t);
    LeaseIsReachable(s, i, t);
  }

  /** So can a connection lost while a job waits for the unload of the model before it. */
  lemma {:induction false} WaitingLoadCanStrandAModel(s: State, i: nat)
    requires Initial(s) && i in s.coordinators && s.globalConcurrency > 0
    ensures exists t :: Strands(s, t, i, LossNoticed) && Oblivious(t.coordinators[i])
  {
    var t := At(s, i, WAITING_LOAD, map[0 := Owner(i, 0)]);
    assert Possible(t, i, LossNoticed) && Oblivious(t.coordinators[i]);
    hide Reaches, CanGoWrong, Step, SlotsAfter, Oblivious, Invariant, Initial, Possible;
    WaitingLoadIsReachable(s, i);
    ReachableIsSound(s, t);
    ObliviousLossGoesWrong(t, i);
    assert Strands(s, t, i, LossNoticed);
  }

  /** A coordinator that is stopping stays so over every run: it keeps no new lease and takes no new job. */
  lemma {:induction false} StoppingIsFinal(s: State, events: seq<Event>, t: State, i: nat, a: Action)
    requires Run(s, events, t) && i in s.coordinators && s.coordinators[i].stopping
    ensures i in t.coordinators && t.coordinators[i].stopping
    ensures a.Connect? || a.StartAcquire? || a.BeginTask? || a.Prewarm? ==> !Enabled(t.coordinators[i], a)
    ensures a.FinishAcquire? && Enabled(t.coordinators[i], a) ==>
      Step(t.coordinators[i], a).lease == t.coordinators[i].lease
    ensures (a.BeginLoad? || a.ResumeLoad?) && Enabled(t.coordinators[i], a) ==>
      Step(t.coordinators[i], a).open == t.coordinators[i].open
    decreases |events|
  {
    if events != [] {
      var next := Next(s, events[0].coordinator, events[0].action);
      assert next.coordinators[i].stopping;
      hide Step, SlotsAfter, Possible, Enabled;
      StoppingIsFinal(next, events[1..], t, i, a);
    }
  }

  lemma {:induction false} ReachableIsSound(s: State, t: State)
    requires Initial(s) && Reaches(s, t)
    ensures Invariant(t)
  {
    hide Initial, GuardedRun, Invariant;
    InitialIsSound(s);
    var events :| GuardedRun(s, events, t);
    GuardedRunKeeps(s, events, t);
  }

  lemma {:induction false} ReachesFurther(s: State, t: State, i: nat, a: Action)
    requires Reaches(s, t) && Possible(t, i, a) && Guarded(t.coordinators[i], a)
    ensures Reaches(s, Next(t, i, a))
  {
    hide Possible, Guarded, Step, SlotsAfter;
    var events :| GuardedRun(s, events, t);
    RunExtends(s, events, t, i, a);
  }

  lemma {:induction false} RunExtends(s: State, events: seq<Event>, t: State, i: nat, a: Action)
    requires GuardedRun(s, events, t) && Possible(t, i, a) && Guarded(t.coordinators[i], a)
    ensures GuardedRun(s, events + [Event(i, a)], Next(t, i, a))
    decreases |events|
  {
    hide Possible, Guarded, Step, SlotsAfter;
    if events == [] {
      assert [Event(i, a)][1..] == [];
      assert GuardedRun(Next(t, i, a), [], Next(t, i, a));
      assert events + [Event(i, a)] == [Event(i, a)];
    } else {
      RunExtends(Next(s, events[0].coordinator, events[0].action), events[1..], t, i, a);
      assert (events + [Event(i, a)])[1..] == events[1..] + [Event(i, a)];
    }
  }
}
