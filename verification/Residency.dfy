/**
 The residency hand-off: coordinators share a fixed number of exclusive broker queues, and a native
 model may only run while its coordinator owns one. Each step is the code between two awaits.
 */
module Residency {
  import opened Wrappers

  datatype Model = Model(id: nat)

  /** A slot owned through one broker connection; the broker frees it when that connection closes. */
  datatype Lease = Lease(slot: nat, conn: nat)

  datatype Acquiring = NotAcquiring | Asking(conn: nat) | Granted(lease: Lease) | GivingBack(lease: Lease)

  /** Where loadProvider is: waiting for an unload, warming up, or stopping the model of a failed load. */
  datatype Load = NotLoading | AwaitingUnload | Warming(model: Model) | Terminating(model: Model)

  /** A claimed job; `aborted` once its context has been aborted. */
  datatype Task = Idle | Working(aborted: bool)

  datatype Release = NotReleasing | Unloading(lease: Lease) | Returning(lease: Lease)

  /** The loss barrier; `Stuck` once the termination it waited for has failed. */
  datatype Barrier = NoBarrier | Closing(conn: nat) | Stuck

  datatype Stop = NotStopped | Draining | StopUnloading | StopReturning(lease: Lease) | StopEnded | StopFailed

  /** `epoch` counts the connections made; `open` holds the models whose native process is not confirmed dead,
      and `broken` is set once stopping one has failed: a client that failed to stop never stops later. */
  datatype Coordinator = Coordinator(
    epoch: nat,
    connection: Option<nat>,
    dropped: bool,
    lease: Option<Lease>,
    acquiring: Acquiring,
    provider: Option<Model>,
    unload: Option<Model>,
    load: Load,
    task: Task,
    release: Release,
    barrier: Barrier,
    stop: Stop,
    stopping: bool,
    broken: bool,
    open: set<Model>
  )

  const STANDBY := Coordinator(0, None, false, None, NotAcquiring, None, None, NotLoading, Idle, NotReleasing,
    NoBarrier, NotStopped, false, false, {})

  datatype Owner = Owner(coordinator: nat, conn: nat)
  type Slots = map<nat, Owner>

  /** The whole pool: the coordinators and the broker's exclusive queues. */
  datatype State = State(coordinators: map<nat, Coordinator>, slots: Slots, globalConcurrency: nat)

  datatype Action =
    | Connect
    | StartAcquire
    | Grant(slot: nat)
    | FinishAcquire(interrupted: bool)
    | CancelAcquire
    | GaveBack
    | BeginTask
    | EndTask
    | BeginLoad(model: Model)
    | Prewarm(model: Model)
    | ResumeLoad(model: Model)
    | LoadReady
    | LoadFail
    | LoadTerminated(ok: bool)
    | IdleUnload
    | UnloadDone(ok: bool)
    | BeginRelease
    | ReleaseContinue
    | ReleaseReturned
    | BrokerDrops
    | LossNoticed
    | BarrierDone
    | Fail
    | BeginStop
    | StopUnload(forced: bool)
    | StopReturn
    | StopReturned

  /** The broker still knows the connection. */
  predicate Alive(c: Coordinator, conn: nat) {
    !c.dropped && (c.connection == Some(conn) || c.barrier == Closing(conn))
  }

  predicate Cancelled(c: Coordinator, conn: nat) {
    c.stopping || c.connection != Some(conn)
  }

  predicate Enabled(c: Coordinator, a: Action) {
    match a
    case Connect => c.connection.None? && c.barrier == NoBarrier && !c.stopping
    case StartAcquire => c.connection.Some? && c.lease.None? && c.acquiring == NotAcquiring && c.release == NotReleasing
      && !c.stopping
    case Grant(_) => c.acquiring.Asking? && Alive(c, c.acquiring.conn)
    case FinishAcquire(_) => c.acquiring.Granted?
    case CancelAcquire => c.acquiring.Asking?
    case GaveBack => c.acquiring.GivingBack?
    case BeginTask => c.task == Idle && c.load == NotLoading && c.lease.Some? && c.release == NotReleasing
      && !c.stopping
    case EndTask => c.task.Working? && c.load == NotLoading
    case BeginLoad(_) => c.task == Working(false) && c.load == NotLoading
    case Prewarm(_) =>
      && c.task != Working(false) && c.load == NotLoading && c.lease.Some? && c.release == NotReleasing && !c.stopping
      && c.provider.None? && c.unload.None?
    case ResumeLoad(_) => c.load == AwaitingUnload && c.unload.None?
    case LoadReady => c.load.Warming? && c.load.model in c.open && c.provider == Some(c.load.model) && !c.stopping
    case LoadFail => c.load.Warming?
    case LoadTerminated(ok) => c.load.Terminating? && (ok ==> !c.broken)
    case IdleUnload => c.task == Idle
    case UnloadDone(ok) => c.unload.Some? && (ok ==> !c.broken)
    case BeginRelease => c.lease.Some? && c.release == NotReleasing && c.task == Idle
    case ReleaseContinue => c.release.Unloading? && c.unload.None?
    case ReleaseReturned => c.release.Returning?
    case BrokerDrops => c.connection.Some?
    case LossNoticed => c.connection.Some?
    case BarrierDone => c.barrier.Closing? && c.unload.None?
    case Fail => true
    case BeginStop => c.stop == NotStopped
    case StopUnload(forced) => c.stop == Draining && (c.task == Idle || forced)
    case StopReturn => c.stop == StopUnloading && c.unload.None? && c.release == NotReleasing
    case StopReturned => c.stop.StopReturning?
  }

  /** unloadProvider up to its first await: joins an unload in progress or starts one. */
  function Unload(c: Coordinator): Coordinator {
    if c.unload.Some? then c else c.(unload := c.provider, provider := None)
  }

  /** The part of loadProvider that takes the provider or creates one and starts warming it up. */
  function Create(c: Coordinator, model: Model): Coordinator {
    if c.provider.Some? then c.(load := Warming(c.provider.value))
    else c.(provider := Some(model), load := Warming(model), open := c.open + {model})
  }

  function Abort(task: Task): Task {
    if task.Working? then Working(true) else Idle
  }

  /** Everything but the loss barrier that waits for an unload which failed. */
  function FailWaiters(c: Coordinator): Coordinator {
    c.(release := if c.release.Unloading? then NotReleasing else c.release,
       stop := if c.stop == StopUnloading then StopFailed else c.stop,
       load := if c.load == AwaitingUnload then NotLoading else c.load)
  }

  function DoUnloadDone(c: Coordinator, ok: bool): Coordinator
    requires c.unload.Some?
  {
    if ok then c.(unload := None, open := c.open - {c.unload.value})
    else
      FailWaiters(c).(unload := None, provider := c.unload, broken := true,
                      stopping := c.stopping || c.barrier.Closing?,
                      barrier := if c.barrier.Closing? then Stuck else c.barrier)
  }

  function DoLossNoticed(c: Coordinator): Coordinator
    requires c.connection.Some?
  {
    Unload(c.(connection := None, lease := None, barrier := Closing(c.connection.value), task := Abort(c.task)))
  }

  function DoReleaseContinue(c: Coordinator): Coordinator
    requires c.release.Unloading?
  {
    var lease := c.release.lease;
    if c.lease == Some(lease) && c.connection == Some(lease.conn) then c.(lease := None, release := Returning(lease))
    else c.(release := NotReleasing)
  }

  function Step(c: Coordinator, a: Action): Coordinator
    requires Enabled(c, a)
  {
    match a
    case Connect => c.(connection := Some(c.epoch), epoch := c.epoch + 1, dropped := false)
    case StartAcquire => c.(acquiring := Asking(c.connection.value))
    case Grant(slot) => c.(acquiring := Granted(Lease(slot, c.acquiring.conn)))
    case FinishAcquire(interrupted) =>
      if interrupted || Cancelled(c, c.acquiring.lease.conn) then c.(acquiring := GivingBack(c.acquiring.lease))
      else c.(acquiring := NotAcquiring, lease := Some(c.acquiring.lease))
    case CancelAcquire => c.(acquiring := NotAcquiring)
    case GaveBack => c.(acquiring := NotAcquiring)
    case BeginTask => c.(task := Working(false))
    case EndTask => c.(task := Idle)
    case BeginLoad(model) =>
      if c.unload.Some? then c.(load := AwaitingUnload) else if c.stopping then c else Create(c, model)
    case Prewarm(model) => Create(c, model)
    case ResumeLoad(model) => if c.stopping then c.(load := NotLoading) else Create(c, model)
    case LoadReady => c.(load := NotLoading)
    case LoadFail =>
      c.(provider := if c.provider == Some(c.load.model) then None else c.provider, load := Terminating(c.load.model))
    case LoadTerminated(ok) =>
      if ok then c.(load := NotLoading, open := c.open - {c.load.model})
      else c.(load := NotLoading, provider := Some(c.load.model), broken := true)
    case IdleUnload => Unload(c)
    case UnloadDone(ok) => DoUnloadDone(c, ok)
    case BeginRelease => Unload(c.(release := Unloading(c.lease.value)))
    case ReleaseContinue => DoReleaseContinue(c)
    case ReleaseReturned => c.(release := NotReleasing)
    case BrokerDrops => c.(dropped := true)
    case LossNoticed => DoLossNoticed(c)
    case BarrierDone => c.(barrier := NoBarrier)
    case Fail => c.(stopping := true)
    case BeginStop => c.(stop := Draining, stopping := true)
    case StopUnload(forced) => Unload(c.(stop := StopUnloading, task := Abort(c.task)))
    case StopReturn => c.(stop := if c.lease.Some? then StopReturning(c.lease.value) else StopEnded)
    case StopReturned => c.(stop := StopEnded, lease := None)
  }

  function FreeConnection(slots: Slots, i: nat, conn: nat): Slots {
    map k | k in slots && slots[k] != Owner(i, conn) :: slots[k]
  }

  function FreeLease(slots: Slots, i: nat, lease: Lease): Slots {
    map k | k in slots && !(k == lease.slot && slots[k] == Owner(i, lease.conn)) :: slots[k]
  }

  /** What a step does to the broker's exclusive queues. */
  function SlotsAfter(slots: Slots, i: nat, c: Coordinator, a: Action): Slots
    requires Enabled(c, a)
  {
    match a
    case Grant(slot) => slots[slot := Owner(i, c.acquiring.conn)]
    case GaveBack => FreeLease(slots, i, c.acquiring.lease)
    case ReleaseReturned => FreeLease(slots, i, c.release.lease)
    case BrokerDrops => FreeConnection(slots, i, c.connection.value)
    case BarrierDone => FreeConnection(slots, i, c.barrier.conn)
    case StopReturned => FreeLease(slots, i, c.stop.lease)
    case _ => slots
  }

  /** The broker grants only queues that nobody owns. */
  predicate Possible(s: State, i: nat, a: Action) {
    && i in s.coordinators && Enabled(s.coordinators[i], a)
    && (a.Grant? ==> a.slot < s.globalConcurrency && a.slot !in s.slots)
  }

  function Next(s: State, i: nat, a: Action): State
    requires Possible(s, i, a)
  {
    var c := s.coordinators[i];
    s.(coordinators := s.coordinators[i := Step(c, a)], slots := SlotsAfter(s.slots, i, c, a))
  }

  datatype Event = Event(coordinator: nat, action: Action)

  // ---------------------------------------------------------------- where the protocol holds, exactly

  /** A failed load is still stopping its model, and no unload and no provider field remembers it. */
  predicate Unwatched(c: Coordinator) {
    && c.load.Terminating? && c.load.model in c.open
    && c.unload != Some(c.load.model) && c.provider != Some(c.load.model)
  }

  /** A load is waiting for an unload and will create a model without asking for the lease again. */
  predicate Oblivious(c: Coordinator) {
    c.load == AwaitingUnload && !c.stopping && !c.broken
  }

  /** The guard of the three steps that give up a slot; every other step is unconditional. */
  predicate Guarded(c: Coordinator, a: Action) {
    && (a.BeginRelease? || (a.StopUnload? && c.lease.Some?) ==> !Unwatched(c))
    && (a.LossNoticed? ==> !Unwatched(c) && !Oblivious(c))
  }

  ghost predicate Run(s: State, events: seq<Event>, t: State)
    decreases |events|
  {
    if events == [] then s == t
    else
      && Possible(s, events[0].coordinator, events[0].action)
      && Run(Next(s, events[0].coordinator, events[0].action), events[1..], t)
  }

  ghost predicate GuardedRun(s: State, events: seq<Event>, t: State)
    decreases |events|
  {
    if events == [] then s == t
    else
      && Possible(s, events[0].coordinator, events[0].action)
      && Guarded(s.coordinators[events[0].coordinator], events[0].action)
      && GuardedRun(Next(s, events[0].coordinator, events[0].action), events[1..], t)
  }

  /** The broker grants the coordinator its slot. */
  predicate Owns(slots: Slots, i: nat, lease: Lease) {
    lease.slot in slots && slots[lease.slot] == Owner(i, lease.conn)
  }

  /**
   A live model belongs to a coordinator that owns a slot; only while a lost connection is being
   dealt with may the broker already have taken the slot away.
   */
  predicate Safe(s: State, i: nat)
    requires i in s.coordinators
  {
    var c := s.coordinators[i];
    || c.open == {}
    || c.barrier != NoBarrier
    || (c.lease.Some? && c.connection == Some(c.lease.value.conn) && (c.dropped || Owns(s.slots, i, c.lease.value)))
  }

  // ---------------------------------------------------------------- what every guarded step keeps

  function Watched(model: Option<Model>): set<Model> {
    if model.Some? then {model.value} else {}
  }

  predicate Same(a: Option<Model>, b: Option<Model>) {
    a.Some? && b.Some? ==> a == b
  }

  function LoadModel(load: Load): Option<Model> {
    match load
    case Warming(m) => Some(m)
    case Terminating(m) => Some(m)
    case _ => None
  }

  /** There is one model at most, and some field remembers it. */
  predicate OneModel(c: Coordinator) {
    && Same(c.provider, c.unload) && Same(c.provider, LoadModel(c.load)) && Same(c.unload, LoadModel(c.load))
    && (c.open <= Watched(c.provider) || c.open <= Watched(c.unload)
      || (c.load.Terminating? && c.open <= {c.load.model}))
  }

  predicate Leases(c: Coordinator) {
    && (c.lease.Some? ==> c.connection == Some(c.lease.value.conn) && c.acquiring == NotAcquiring)
    && (c.connection.Some? ==> c.connection.value < c.epoch)
    && (c.acquiring.Asking? ==> c.acquiring.conn < c.epoch)
    && (c.acquiring.Granted? ==> c.acquiring.lease.conn < c.epoch)
    && (c.release != NotReleasing || c.stop.StopReturning? ==> c.acquiring == NotAcquiring)
    && (c.barrier != NoBarrier ==> c.connection.None?)
    && (c.barrier == Stuck ==> c.stopping)
    && (c.stop != NotStopped ==> c.stopping)
  }

  /** Who may still create a model. */
  predicate Tasks(c: Coordinator) {
    && (c.task == Working(false) ==> c.lease.Some? && c.release == NotReleasing)
    && (c.load == AwaitingUnload ==> c.task.Working? && (c.lease.Some? || c.stopping || c.broken))
    && (c.load == AwaitingUnload && c.broken ==> c.unload.Some?)
    && (c.provider.Some? && c.unload.Some? ==> c.broken)
    && (c.release.Unloading? ==> c.task == Idle && (c.lease.Some? ==> c.lease == Some(c.release.lease)))
    && (c.release.Returning? ==> c.task == Idle && c.lease.None?)
    && (c.stop.StopReturning? ==> c.lease.None? || c.lease == Some(c.stop.lease))
    && (c.stop != NotStopped && c.stop != Draining ==> c.task != Working(false))
  }

  /** What the waiters for an unload rely on: once it has succeeded no model is left. */
  predicate Unloads(c: Coordinator) {
    && (c.release.Unloading? ==> c.open <= Watched(c.unload))
    && (c.barrier.Closing? ==> c.open <= Watched(c.unload))
    && (c.stop == StopUnloading && c.lease.Some? ==> c.open <= Watched(c.unload))
    && (c.release.Returning? || c.stop.StopReturning? || c.acquiring != NotAcquiring ==> c.open == {})
    && (c.open != {} ==> c.barrier != NoBarrier || c.lease.Some?)
  }

  predicate LocalInvariant(c: Coordinator) {
    OneModel(c) && Leases(c) && Tasks(c) && Unloads(c)
  }

  predicate HoldsItsSlot(slots: Slots, i: nat, c: Coordinator) {
    c.lease.Some? && !c.dropped ==> Owns(slots, i, c.lease.value)
  }

  /** A granted slot belongs to the coordinator that is about to take it. */
  predicate HoldsItsGrant(slots: Slots, i: nat, c: Coordinator) {
    c.acquiring.Granted? && c.connection == Some(c.acquiring.lease.conn) && !c.dropped ==>
      Owns(slots, i, c.acquiring.lease)
  }

  ghost predicate Invariant(s: State) {
    && (forall i :: i in s.coordinators ==>
          LocalInvariant(s.coordinators[i]) && HoldsItsSlot(s.slots, i, s.coordinators[i])
            && HoldsItsGrant(s.slots, i, s.coordinators[i]))
    && (forall k :: k in s.slots ==> k < s.globalConcurrency)
  }

  lemma {:induction false} SameModels(c: Coordinator, d: Coordinator)
    requires OneModel(c) && d.provider == c.provider && d.unload == c.unload && d.open == c.open
    requires d.load == c.load || (LoadModel(c.load).None? && LoadModel(d.load).None?)
      || (c.load.Warming? && d.load == NotLoading)
    ensures OneModel(d)
  {
  }

  lemma {:induction false} UnloadKeepsOneModel(c: Coordinator)
    requires OneModel(c)
    ensures OneModel(Unload(c))
    ensures !Unwatched(c) ==> Unload(c).open <= Watched(Unload(c).unload)
  {
  }

  lemma {:induction false} CreateKeepsOneModel(c: Coordinator, model: Model)
    requires OneModel(c) && c.unload.None? && LoadModel(c.load).None?
    ensures OneModel(Create(c, model))
  {
  }

  lemma {:induction false} LoadsKeepOneModel(c: Coordinator, a: Action)
    requires OneModel(c) && Enabled(c, a) && (a.LoadFail? || a.LoadTerminated? || a.UnloadDone?)
    ensures OneModel(Step(c, a))
  {
  }

  lemma {:induction false} StepKeepsOneModel(c: Coordinator, a: Action)
    requires LocalInvariant(c) && Enabled(c, a)
    ensures OneModel(Step(c, a))
  {
    hide OneModel, Leases, Tasks, Unloads, Unload;
    match a
    case BeginLoad(model) =>
      if c.unload.None? && !c.stopping {
        CreateKeepsOneModel(c, model);
      } else {
        SameModels(c, Step(c, a));
      }
    case Prewarm(model) => CreateKeepsOneModel(c, model);
    case ResumeLoad(model) =>
      if c.stopping {
        SameModels(c, Step(c, a));
      } else {
        CreateKeepsOneModel(c, model);
      }
    case LoadFail => LoadsKeepOneModel(c, a);
    case LoadTerminated(_) => LoadsKeepOneModel(c, a);
    case UnloadDone(_) => LoadsKeepOneModel(c, a);
    case IdleUnload => UnloadKeepsOneModel(c);
    case BeginRelease => UnloadStep(c, c.(release := Unloading(c.lease.value)));
    case LossNoticed => UnloadStep(c, c.(connection := None, lease := None, barrier := Closing(c.connection.value),
      task := Abort(c.task)));
    case StopUnload(_) => UnloadStep(c, c.(stop := StopUnloading, task := Abort(c.task)));
    case _ => SameModels(c, Step(c, a));
  }

  lemma {:induction false} UnloadStep(c: Coordinator, d: Coordinator)
    requires OneModel(c) && d.provider == c.provider && d.unload == c.unload && d.load == c.load && d.open == c.open
    ensures OneModel(Unload(d))
    ensures !Unwatched(c) ==> Unload(d).open <= Watched(Unload(d).unload)
  {
    SameModels(c, d);
    UnloadKeepsOneModel(d);
  }

  lemma {:induction false} StepKeepsLeases(c: Coordinator, a: Action)
    requires LocalInvariant(c) && Enabled(c, a)
    ensures Leases(Step(c, a))
  {
    hide LocalInvariant, Leases;
    if a.BeginTask? || a.EndTask? || a.BeginLoad? || a.Prewarm? || a.ResumeLoad? || a.LoadReady? || a.LoadFail?
       || a.LoadTerminated? || a.IdleUnload? || a.BrokerDrops? {
      SameLeases(c, Step(c, a));
    } else if a.Connect? || a.StartAcquire? || a.Grant? || a.FinishAcquire? || a.CancelAcquire? || a.GaveBack? {
      AcquiresKeepLeases(c, a);
    } else {
      ReturnsKeepLeases(c, a);
    }
  }

  lemma {:induction false} SameLeases(c: Coordinator, d: Coordinator)
    requires LocalInvariant(c)
    requires d.epoch == c.epoch && d.connection == c.connection && d.lease == c.lease && d.acquiring == c.acquiring
    requires d.release == c.release && d.barrier == c.barrier && d.stop == c.stop && d.stopping == c.stopping
    ensures Leases(d)
  {
  }

  lemma {:induction false} AcquiresKeepLeases(c: Coordinator, a: Action)
    requires LocalInvariant(c) && Enabled(c, a)
    requires a.Connect? || a.StartAcquire? || a.Grant? || a.FinishAcquire? || a.CancelAcquire? || a.GaveBack?
    ensures Leases(Step(c, a))
  {
    hide OneModel, Tasks, Unloads;
  }

  lemma {:induction false} ReturnsKeepLeases(c: Coordinator, a: Action)
    requires LocalInvariant(c) && Enabled(c, a)
    requires a.UnloadDone? || a.BeginRelease? || a.ReleaseContinue? || a.ReleaseReturned? || a.LossNoticed?
      || a.BarrierDone?
      || a.Fail? || a.BeginStop? || a.StopUnload? || a.StopReturn? || a.StopReturned?
    ensures Leases(Step(c, a))
  {
    hide OneModel, Tasks, Unloads;
  }

  lemma {:induction false} StepKeepsTasks(c: Coordinator, a: Action)
    requires LocalInvariant(c) && Enabled(c, a) && Guarded(c, a)
    ensures Tasks(Step(c, a))
  {
    hide LocalInvariant, Tasks;
    if a.Connect? || a.StartAcquire? || a.Grant? || a.CancelAcquire? || a.GaveBack? || a.BrokerDrops?
      || a.BarrierDone? {
      SameTasks(c, Step(c, a));
    } else if a.BeginLoad? || a.Prewarm? || a.ResumeLoad? {
      LoadsKeepTasks(c, a);
    } else if a.LoadReady? || a.LoadFail? || a.LoadTerminated? || a.IdleUnload? {
      LoadEndsKeepTasks(c, a);
    } else if a.UnloadDone? || a.LossNoticed? {
      LossesKeepTasks(c, a);
    } else if a.BeginRelease? || a.ReleaseContinue? || a.ReleaseReturned? {
      ReleasesKeepTasks(c, a);
    } else if a.FinishAcquire? {
      AcquisitionKeepsTasks(c, a.interrupted);
    } else if a.BeginTask? || a.EndTask? {
      WorkKeepsTasks(c, a);
    } else {
      StopsKeepTasks(c, a);
    }
  }

  lemma {:induction false} SameTasks(c: Coordinator, d: Coordinator)
    requires LocalInvariant(c)
    requires d.task == c.task && d.lease == c.lease && d.release == c.release && d.load == c.load
      && d.stopping == c.stopping
    requires d.broken == c.broken && d.unload == c.unload && d.provider == c.provider && d.stop == c.stop
    ensures Tasks(d)
  {
  }

  lemma {:induction false} LoadsKeepTasks(c: Coordinator, a: Action)
    requires LocalInvariant(c) && Enabled(c, a) && (a.BeginLoad? || a.Prewarm? || a.ResumeLoad?)
    ensures Tasks(Step(c, a))
  {
    hide OneModel, Leases, Unloads;
  }

  lemma {:induction false} LoadEndsKeepTasks(c: Coordinator, a: Action)
    requires LocalInvariant(c) && Enabled(c, a) && (a.LoadReady? || a.LoadFail? || a.LoadTerminated? || a.IdleUnload?)
    ensures Tasks(Step(c, a))
  {
    hide OneModel, Leases, Unloads, Unwatched, Tasks, Step, Unload, Enabled;
    match a {
      case LoadReady => ReadyKeepsTasks(c);
      case LoadFail => FailedLoadKeepsTasks(c);
      case LoadTerminated(ok) => TerminationKeepsTasks(c, ok);
      case _ => IdleUnloadKeepsTasks(c);
    }
  }

  lemma {:induction false} ReadyKeepsTasks(c: Coordinator)
    requires Tasks(c) && Enabled(c, LoadReady)
    ensures Tasks(Step(c, LoadReady))
  {
  }

  lemma {:induction false} FailedLoadKeepsTasks(c: Coordinator)
    requires Tasks(c) && Enabled(c, LoadFail)
    ensures Tasks(Step(c, LoadFail))
  {
  }

  lemma {:induction false} TerminationKeepsTasks(c: Coordinator, ok: bool)
    requires Tasks(c) && Enabled(c, LoadTerminated(ok))
    ensures Tasks(Step(c, LoadTerminated(ok)))
  {
  }

  lemma {:induction false} IdleUnloadKeepsTasks(c: Coordinator)
    requires Tasks(c) && Enabled(c, IdleUnload)
    ensures Tasks(Step(c, IdleUnload))
  {
  }

  lemma {:induction false} LossesKeepTasks(c: Coordinator, a: Action)
    requires LocalInvariant(c) && Enabled(c, a) && Guarded(c, a) && (a.UnloadDone? || a.LossNoticed?)
    ensures Tasks(Step(c, a))
  {
    hide OneModel, Unloads, Unwatched;
  }

  lemma {:induction false} ReleasesKeepTasks(c: Coordinator, a: Action)
    requires LocalInvariant(c) && Enabled(c, a) && (a.BeginRelease? || a.ReleaseContinue? || a.ReleaseReturned?)
    ensures Tasks(Step(c, a))
  {
    hide OneModel, Unloads, Unwatched;
  }

  lemma {:induction false} WorkKeepsTasks(c: Coordinator, a: Action)
    requires LocalInvariant(c) && Enabled(c, a) && (a.BeginTask? || a.EndTask?)
    ensures Tasks(Step(c, a))
  {
    hide OneModel, Unloads;
  }

  lemma {:induction false} AcquisitionKeepsTasks(c: Coordinator, interrupted: bool)
    requires LocalInvariant(c) && Enabled(c, FinishAcquire(interrupted))
    ensures Tasks(Step(c, FinishAcquire(interrupted)))
  {
    LeaseKeepsTasks(c, c.acquiring.lease);
    SameTasks(c, c.(acquiring := GivingBack(c.acquiring.lease)));
    hide LocalInvariant, Tasks;
  }

  lemma {:induction false} LeaseKeepsTasks(c: Coordinator, lease: Lease)
    requires LocalInvariant(c) && c.acquiring.Granted?
    ensures Tasks(c.(acquiring := NotAcquiring, lease := Some(lease)))
  {
    hide OneModel, Unloads;
  }

  lemma {:induction false} StopsKeepTasks(c: Coordinator, a: Action)
    requires LocalInvariant(c) && Enabled(c, a)
      && (a.Fail? || a.BeginStop? || a.StopUnload? || a.StopReturn? || a.StopReturned?)
    ensures Tasks(Step(c, a))
  {
    hide OneModel, Unloads;
  }

  lemma {:induction false} SameUnloads(c: Coordinator, d: Coordinator)
    requires Unloads(c) && d.open == c.open && d.unload == c.unload && d.barrier == c.barrier
    requires d.stop == c.stop || d.stop == Draining
    requires d.release == c.release || d.release == NotReleasing
    requires d.acquiring == c.acquiring || d.acquiring == NotAcquiring || c.acquiring != NotAcquiring
    requires d.lease == c.lease
    ensures Unloads(d)
  {
  }

  lemma {:induction false} CreateKeepsUnloads(c: Coordinator, model: Model)
    requires c.acquiring == NotAcquiring && c.release == NotReleasing && c.barrier == NoBarrier && c.lease.Some?
      && !c.stop.StopUnloading? && !c.stop.StopReturning?
    ensures Unloads(Create(c, model))
  {
  }

  lemma {:induction false} StepKeepsUnloads(c: Coordinator, a: Action)
    requires LocalInvariant(c) && Enabled(c, a) && Guarded(c, a)
    ensures Unloads(Step(c, a))
  {
    hide OneModel, Unwatched, Oblivious;
    match a
    case BeginLoad(_) => LoadKeepsUnloads(c, a);
    case Prewarm(_) => LoadKeepsUnloads(c, a);
    case ResumeLoad(_) => LoadKeepsUnloads(c, a);
    case BeginRelease => UnloadStep(c, c.(release := Unloading(c.lease.value)));
    case LossNoticed => UnloadStep(c, c.(connection := None, lease := None, barrier := Closing(c.connection.value),
      task := Abort(c.task)));
    case StopUnload(_) => UnloadStep(c, c.(stop := StopUnloading, task := Abort(c.task)));
    case IdleUnload => SomeStepsKeepUnloads(c, a);
    case UnloadDone(_) => SomeStepsKeepUnloads(c, a);
    case LoadTerminated(_) => SomeStepsKeepUnloads(c, a);
    case ReleaseContinue => SomeStepsKeepUnloads(c, a);
    case BarrierDone => SomeStepsKeepUnloads(c, a);
    case StopReturn => SomeStepsKeepUnloads(c, a);
    case StopReturned => SomeStepsKeepUnloads(c, a);
    case StartAcquire => SomeStepsKeepUnloads(c, a);
    case FinishAcquire(_) => SomeStepsKeepUnloads(c, a);
    case _ => SameUnloads(c, Step(c, a));
  }

  lemma {:induction false} SomeStepsKeepUnloads(c: Coordinator, a: Action)
    requires LocalInvariant(c) && Enabled(c, a)
    requires a.IdleUnload? || a.UnloadDone? || a.LoadTerminated? || a.ReleaseContinue? || a.BarrierDone?
      || a.StopReturn?
      || a.StopReturned? || a.StartAcquire? || a.FinishAcquire?
    ensures Unloads(Step(c, a))
  {
    hide OneModel, Tasks, Leases, Unloads;
    if a.IdleUnload? {
      IdleWatched(c);
    } else if a.UnloadDone? {
      UnloadWatched(c, a.ok);
    } else if a.LoadTerminated? {
      StopWatched(c, a.ok);
    } else if a.StartAcquire? || a.FinishAcquire? || a.BarrierDone? {
      AcquiresWatched(c, a);
    } else if a.ReleaseContinue? {
      ReleaseWatched(c);
    } else {
      ReturnsWatched(c, a);
    }
  }

  lemma {:induction false} IdleWatched(c: Coordinator)
    requires LocalInvariant(c)
    ensures Unloads(Unload(c))
  {
    UnloadKeepsOneModel(c);
    hide OneModel, Unwatched, Leases, Tasks;
  }

  lemma {:induction false} UnloadWatched(c: Coordinator, ok: bool)
    requires LocalInvariant(c) && Enabled(c, UnloadDone(ok))
    ensures Unloads(Step(c, UnloadDone(ok)))
  {
    hide OneModel, Leases, Tasks;
  }

  lemma {:induction false} StopWatched(c: Coordinator, ok: bool)
    requires LocalInvariant(c) && Enabled(c, LoadTerminated(ok))
    ensures Unloads(Step(c, LoadTerminated(ok)))
  {
    hide OneModel, Leases, Tasks;
  }

  lemma {:induction false} AcquiresWatched(c: Coordinator, a: Action)
    requires LocalInvariant(c) && Enabled(c, a) && (a.StartAcquire? || a.FinishAcquire? || a.BarrierDone?)
    ensures Unloads(Step(c, a))
  {
    hide OneModel, Tasks;
  }

  lemma {:induction false} ReturnsWatched(c: Coordinator, a: Action)
    requires LocalInvariant(c) && Enabled(c, a) && (a.StopReturn? || a.StopReturned?)
    ensures Unloads(Step(c, a))
  {
    hide OneModel, Leases;
  }

  lemma {:induction false} ReleaseWatched(c: Coordinator)
    requires LocalInvariant(c) && Enabled(c, ReleaseContinue)
    ensures Unloads(DoReleaseContinue(c))
  {
    hide OneModel, Leases;
  }

  lemma {:induction false} LoadKeepsUnloads(c: Coordinator, a: Action)
    requires LocalInvariant(c) && Enabled(c, a) && (a.BeginLoad? || a.Prewarm? || a.ResumeLoad?)
    ensures Unloads(Step(c, a))
  {
    hide OneModel, Unwatched, Oblivious;
    if c.stopping || c.unload.Some? {
      SameUnloads(c, Step(c, a));
    } else {
      CreateKeepsUnloads(c, a.model);
    }
  }

  // ---------------------------------------------------------------- the broker's side

  lemma {:induction false} OthersKeepTheirSlots(slots: Slots, i: nat, c: Coordinator, a: Action, j: nat, lease: Lease)
    requires Enabled(c, a) && j != i && Owns(slots, j, lease) && (a.Grant? ==> a.slot !in slots)
    ensures Owns(SlotsAfter(slots, i, c, a), j, lease)
  {
  }

  lemma {:induction false} KeepsItsSlot(slots: Slots, i: nat, c: Coordinator, a: Action)
    requires LocalInvariant(c) && Enabled(c, a) && HoldsItsSlot(slots, i, c) && HoldsItsGrant(slots, i, c)
    ensures HoldsItsSlot(SlotsAfter(slots, i, c, a), i, Step(c, a))
  {
    hide OneModel, Unloads;
  }

  lemma {:induction false} KeepsItsGrant(slots: Slots, i: nat, c: Coordinator, a: Action)
    requires LocalInvariant(c) && Enabled(c, a) && HoldsItsGrant(slots, i, c)
    ensures HoldsItsGrant(SlotsAfter(slots, i, c, a), i, Step(c, a))
  {
    hide OneModel, Unloads;
  }

  /** What one coordinator can see of the invariant is kept by its own steps. */
  lemma {:induction false} StepKeepsLocal(c: Coordinator, a: Action)
    requires LocalInvariant(c) && Enabled(c, a) && Guarded(c, a)
    ensures LocalInvariant(Step(c, a))
  {
    hide OneModel, Leases, Tasks, Unloads, Step;
    StepKeepsOneModel(c, a);
    StepKeepsLeases(c, a);
    StepKeepsTasks(c, a);
    StepKeepsUnloads(c, a);
  }

  lemma {:induction false} StepKeeps(s: State, i: nat, a: Action)
    requires Invariant(s) && Possible(s, i, a) && Guarded(s.coordinators[i], a)
    ensures Invariant(Next(s, i, a))
  {
    hide LocalInvariant, Step, SlotsAfter, Owns;
    var c, t := s.coordinators[i], Next(s, i, a);
    StepKeepsLocal(c, a);
    KeepsItsSlot(s.slots, i, c, a);
    KeepsItsGrant(s.slots, i, c, a);
    forall j | j in t.coordinators && j != i
      ensures HoldsItsSlot(t.slots, j, t.coordinators[j]) && HoldsItsGrant(t.slots, j, t.coordinators[j])
    {
      var d := s.coordinators[j];
      if d.lease.Some? && !d.dropped {
        OthersKeepTheirSlots(s.slots, i, c, a, j, d.lease.value);
      }
      if d.acquiring.Granted? && d.connection == Some(d.acquiring.lease.conn) && !d.dropped {
        OthersKeepTheirSlots(s.slots, i, c, a, j, d.acquiring.lease);
      }
    }
    SlotsStayInRange(s.slots, i, c, a, s.globalConcurrency);
  }

  lemma {:induction false} SlotsStayInRange(slots: Slots, i: nat, c: Coordinator, a: Action, limit: nat)
    requires Enabled(c, a) && (forall k :: k in slots ==> k < limit) && (a.Grant? ==> a.slot < limit)
    ensures forall k :: k in SlotsAfter(slots, i, c, a) ==> k < limit
  {
  }
}
