/**
 The supervisor of the native inference process. Each step is the code between two awaits. A call
 that finds a recovery in progress takes effect when the recovery has ended.
 */
module InferenceSupervisor {
  import opened Wrappers

  datatype Outcome = Pending | Resolved(message: nat) | Rejected

  /** A termination in progress: the process group to kill and the run to reject afterwards. */
  datatype Recovery = Recovery(target: Option<nat>, run: Option<nat>)

  /**
   Process groups are numbered in the order they are forked. `arrived` holds the results that wait
   for the progress callbacks of their run; `dead` the groups whose termination was confirmed and
   `refused` those that survived an attempt.
   */
  datatype State = State(
    child: Option<nat>,
    failedChild: Option<nat>,
    ready: bool,
    stopping: bool,
    fatal: bool,
    active: Option<nat>,
    recovery: Option<Recovery>,
    arrived: map<nat, nat>,
    forks: nat,
    dead: set<nat>,
    refused: set<nat>,
    outcomes: map<nat, Outcome>
  )

  const COLD := State(None, None, false, false, false, None, None, map[], 0, {}, {}, map[])

  datatype Action =
    | Fork                                          // startProcess
    | Ready(group: nat)                             // the "ready" message of a process
    | Admit(run: nat)                               // run, once the startup has succeeded
    | Result(group: nat, message: nat)              // a "result" message of a process
    | Settle(run: nat)                              // the end of settle
    | Reset(stop: bool)                             // reset, cancel, stop, exits, timers, failed sends
    | Terminated(succeeded: bool, cleaned: bool)    // the end of the termination attempt

  predicate Enabled(s: State, a: Action) {
    match a
    case Fork => s.recovery.None? && s.child.None? && !s.stopping && !s.fatal
    case Ready(_) => true
    case Admit(run) => s.child.Some? && s.ready && !s.stopping && s.active.None? && run !in s.outcomes
    case Result(_, _) => true
    case Settle(run) => run in s.arrived
    case Reset(_) => true
    case Terminated(_, _) => s.recovery.Some?
  }

  function DoResult(s: State, group: nat, message: nat): State {
    if s.child == Some(group) && s.active == Some(message) then s.(arrived := s.arrived[message := message]) else s
  }

  function DoSettle(s: State, run: nat): State
    requires run in s.arrived
  {
    var rest := s.(arrived := s.arrived - {run});
    if s.active != Some(run) then rest
    else rest.(active := None, outcomes := s.outcomes[run := Resolved(s.arrived[run])])
  }

  function DoReset(s: State, stop: bool): State {
    var t := s.(stopping := s.stopping || stop);
    if s.recovery.Some? then t
    else
      t.(child := None, ready := false,
         recovery := Some(Recovery(if s.child.Some? then s.child else s.failedChild, s.active)))
  }

  /** Rejecting a promise that was resolved meanwhile has no effect. */
  function RejectPending(outcomes: map<nat, Outcome>, run: Option<nat>): map<nat, Outcome> {
    if run.Some? && run.value in outcomes && outcomes[run.value] == Pending then outcomes[run.value := Rejected]
    else outcomes
  }

  function Targets(target: Option<nat>): set<nat> {
    if target.Some? then {target.value} else {}
  }

  function DoTerminated(s: State, succeeded: bool, cleaned: bool): State
    requires s.recovery.Some?
  {
    var target := s.recovery.value.target;
    s.(fatal := s.fatal || !succeeded || !cleaned,
       failedChild := if succeeded && cleaned then None else target,
       dead := if succeeded then s.dead + Targets(target) else s.dead,
       refused := if succeeded then s.refused else s.refused + Targets(target),
       active := None,
       recovery := None,
       outcomes := RejectPending(s.outcomes, s.recovery.value.run))
  }

  function Next(s: State, a: Action): State
    requires Enabled(s, a)
  {
    match a
    case Fork => s.(child := Some(s.forks), forks := s.forks + 1, ready := false)
    case Ready(group) => if s.child == Some(group) then s.(ready := true) else s
    case Admit(run) => s.(active := Some(run), outcomes := s.outcomes[run := Pending])
    case Result(group, message) => DoResult(s, group, message)
    case Settle(run) => DoSettle(s, run)
    case Reset(stop) => DoReset(s, stop)
    case Terminated(succeeded, cleaned) => DoTerminated(s, succeeded, cleaned)
  }

  ghost predicate Run(s: State, actions: seq<Action>, t: State)
    decreases |actions|
  {
    if actions == [] then s == t else Enabled(s, actions[0]) && Run(Next(s, actions[0]), actions[1..], t)
  }

  // ---------------------------------------------------------------- what every step keeps

  /** The group that may still be alive: the newest one, and someone is responsible for it. */
  predicate Responsible(s: State, group: nat) {
    || s.child == Some(group)
    || s.failedChild == Some(group)
    || (s.recovery.Some? && s.recovery.value.target == Some(group))
  }

  predicate IsNewest(s: State, group: Option<nat>) {
    group.Some? ==> group.value == s.forks - 1
  }

  /** Every group but the newest is confirmed dead and never survived an attempt. */
  ghost predicate GroupsInvariant(s: State) {
    && (forall g: nat :: g < s.forks - 1 ==> g in s.dead)
    && (forall g: nat :: g in s.dead ==> g < s.forks)
    && (forall g: nat :: g in s.refused ==> g == s.forks - 1 && s.fatal)
    && (s.forks > 0 && s.forks - 1 !in s.dead ==> Responsible(s, s.forks - 1))
    && IsNewest(s, s.child) && IsNewest(s, s.failedChild)
    && (s.recovery.Some? ==> IsNewest(s, s.recovery.value.target))
    && (s.recovery.Some? && s.failedChild.Some? ==> s.recovery.value.target == s.failedChild)
    && (s.child.Some? ==> s.child.value !in s.dead && !s.fatal && s.failedChild.None? && s.recovery.None?)
    && (s.failedChild.Some? ==> s.fatal)
    && (s.ready ==> s.child.Some?)
  }

  /** Every admitted run that is still pending is the active one or will be rejected by the recovery. */
  ghost predicate RunsInvariant(s: State) {
    && (forall r: nat :: r in s.outcomes && s.outcomes[r] == Pending ==>
          s.active == Some(r) && (s.recovery.Some? ==> s.recovery.value.run == Some(r)))
    && (forall r: nat :: r in s.outcomes && s.outcomes[r].Resolved? ==> s.outcomes[r].message == r)
    && (forall r: nat :: r in s.arrived ==> s.arrived[r] == r)
    && (s.active.Some? ==> s.active.value in s.outcomes && s.outcomes[s.active.value] == Pending)
    && (s.active.Some? && s.recovery.None? ==> s.child.Some?)
  }

  ghost predicate Invariant(s: State) {
    GroupsInvariant(s) && RunsInvariant(s)
  }

  lemma {:induction false} StepKeepsGroups(s: State, a: Action)
    requires GroupsInvariant(s) && Enabled(s, a)
    ensures GroupsInvariant(Next(s, a))
  {
    hide GroupsInvariant;
    match a
    case Fork => ForkKeepsGroups(s);
    case Terminated(succeeded, cleaned) => TerminatedKeepsGroups(s, succeeded, cleaned);
    case Reset(stop) => ResetKeepsGroups(s, stop);
    case _ => OthersKeepGroups(s, a);
  }

  lemma {:induction false} OthersKeepGroups(s: State, a: Action)
    requires GroupsInvariant(s) && Enabled(s, a) && !a.Fork? && !a.Terminated? && !a.Reset?
    ensures GroupsInvariant(Next(s, a))
  {
  }

  lemma {:induction false} ResetKeepsGroups(s: State, stop: bool)
    requires GroupsInvariant(s)
    ensures GroupsInvariant(DoReset(s, stop))
  {
  }

  lemma {:induction false} ForkKeepsGroups(s: State)
    requires GroupsInvariant(s) && Enabled(s, Fork)
    ensures forall g: nat :: g < s.forks ==> g in s.dead
    ensures s.refused == {}
    ensures GroupsInvariant(Next(s, Fork))
  {
  }

  lemma {:induction false} TerminatedKeepsGroups(s: State, succeeded: bool, cleaned: bool)
    requires GroupsInvariant(s) && s.recovery.Some?
    ensures GroupsInvariant(DoTerminated(s, succeeded, cleaned))
  {
  }

  lemma {:induction false} StepKeepsRuns(s: State, a: Action)
    requires Invariant(s) && Enabled(s, a)
    ensures RunsInvariant(Next(s, a))
  {
  }

  lemma {:induction false} RunKeeps(s: State, actions: seq<Action>, t: State)
    requires Invariant(s) && Run(s, actions, t)
    ensures Invariant(t)
    decreases |actions|
  {
    hide GroupsInvariant, RunsInvariant, Enabled, Next;
    if actions != [] {
      StepKeepsGroups(s, actions[0]);
      StepKeepsRuns(s, actions[0]);
      RunKeeps(Next(s, actions[0]), actions[1..], t);
    }
  }

  lemma {:induction false} ColdIsSound()
    ensures Invariant(COLD)
  {
  }

  // ---------------------------------------------------------------- safety over every run

  /**
   A group is forked only after the termination of every earlier one has succeeded, and never
   after any termination has failed.
   */
  lemma {:induction false} ForkOnlyAfterConfirmedDeath(actions: seq<Action>, t: State)
    requires Run(COLD, actions, t) && Enabled(t, Fork)
    ensures forall g: nat :: g < t.forks ==> g in t.dead
    ensures t.refused == {}
  {
    ColdIsSound();
    RunKeeps(COLD, actions, t);
  }

  /** At most one group is not confirmed dead. */
  lemma {:induction false} OneLiveGroup(actions: seq<Action>, t: State, g: nat, h: nat)
    requires Run(COLD, actions, t)
    requires g < t.forks && g !in t.dead && h < t.forks && h !in t.dead
    ensures g == h && Responsible(t, g)
  {
    ColdIsSound();
    RunKeeps(COLD, actions, t);
  }

  /** What one step may do to a run: only its own result resolves it, only a finished attempt rejects it. */
  lemma {:induction false} StepSettles(s: State, a: Action, r: nat)
    requires Invariant(s) && Enabled(s, a) && r in s.outcomes
    ensures r in Next(s, a).outcomes
    ensures s.outcomes[r] != Pending ==> Next(s, a).outcomes[r] == s.outcomes[r]
    ensures s.outcomes[r] == Pending && Next(s, a).outcomes[r].Resolved? ==> a == Settle(r) && r in s.arrived
    ensures s.outcomes[r] == Pending && Next(s, a).outcomes[r] == Rejected ==> a.Terminated?
  {
  }

  /** A run settles at most once: the first outcome is the last one. */
  lemma {:induction false} SettledStaysSettled(s: State, actions: seq<Action>, t: State, r: nat)
    requires Invariant(s) && Run(s, actions, t)
    requires r in s.outcomes && s.outcomes[r] != Pending
    ensures r in t.outcomes && t.outcomes[r] == s.outcomes[r]
    decreases |actions|
  {
    hide GroupsInvariant, RunsInvariant, Enabled, Next;
    if actions != [] {
      StepSettles(s, actions[0], r);
      StepKeepsGroups(s, actions[0]);
      StepKeepsRuns(s, actions[0]);
      SettledStaysSettled(Next(s, actions[0]), actions[1..], t, r);
    }
  }

  /** No run is forgotten, and none is resolved by another run's message. */
  lemma {:induction false} NoRunIsOrphaned(actions: seq<Action>, t: State, r: nat)
    requires Run(COLD, actions, t) && r in t.outcomes
    ensures t.outcomes[r] == Pending ==> t.active == Some(r)
    ensures t.outcomes[r] == Pending && t.recovery.Some? ==> Next(t, Terminated(true, true)).outcomes[r] == Rejected
    ensures t.outcomes[r].Resolved? ==> t.outcomes[r].message == r
  {
    ColdIsSound();
    RunKeeps(COLD, actions, t);
  }

  /** While a run is active and no recovery is in progress its process exists, so a result can still come. */
  lemma {:induction false} ActiveRunHasAProcess(actions: seq<Action>, t: State)
    requires Run(COLD, actions, t) && t.active.Some? && t.recovery.None?
    ensures t.child.Some? && t.child.value !in t.dead
  {
    ColdIsSound();
    RunKeeps(COLD, actions, t);
  }

  /** stop() returned without an error: the flag is set and the termination it awaited succeeded. */
  predicate Stopped(s: State) {
    s.stopping && !s.fatal && s.child.None? && s.recovery.None?
  }

  predicate Quenched(s: State) {
    s.stopping && s.child.None? && s.failedChild.None? && (s.recovery.Some? ==> s.recovery.value.target.None?)
  }

  ghost predicate AllDead(s: State) {
    forall g: nat :: g < s.forks ==> g in s.dead
  }

  /** After that no group of this client is alive, then or ever after. */
  lemma {:induction false} StoppedStaysDead(s: State, actions: seq<Action>, t: State)
    requires Invariant(s) && Stopped(s) && Run(s, actions, t)
    ensures forall g: nat :: g < t.forks ==> g in t.dead
  {
    assert AllDead(s) && Quenched(s);
    hide Stopped, Invariant;
    QuenchedStaysDead(s, actions, t);
  }

  lemma {:induction false} QuenchedStaysDead(s: State, actions: seq<Action>, t: State)
    requires Quenched(s) && AllDead(s) && Run(s, actions, t)
    ensures AllDead(t)
    decreases |actions|
  {
    hide Quenched, AllDead, Enabled, Next;
    if actions != [] {
      QuenchedStep(s, actions[0]);
      QuenchedStaysDead(Next(s, actions[0]), actions[1..], t);
    }
  }

  lemma {:induction false} QuenchedStep(s: State, a: Action)
    requires Quenched(s) && AllDead(s) && Enabled(s, a)
    ensures AllDead(Next(s, a)) && Quenched(Next(s, a))
  {
  }

  // ---------------------------------------------------------------- the object

  datatype Failure = ProcessFailed | Fatal | WorkerStopping | WorkerBusy

  class InferenceClient {
    const restartOnFailure: bool
    var child: Option<nat>
    var failedChild: Option<nat>
    var ready: bool
    var stopping: bool
    var fatal: bool
    var failed: bool
    var active: Option<nat>
    var recovery: Option<Recovery>
    var arrived: map<nat, nat>
    var forks: nat

    ghost var dead: set<nat>
    ghost var refused: set<nat>
    ghost var outcomes: map<nat, Outcome>

    ghost function View(): State
      reads this
    {
      State(child, failedChild, ready, stopping, fatal, active, recovery, arrived, forks, dead, refused, outcomes)
    }

    ghost predicate Valid()
      reads this
    {
      Invariant(View())
    }

    constructor (restartOnFailure: bool)
      ensures Valid() && View() == COLD && this.restartOnFailure == restartOnFailure && !failed
    {
      this.restartOnFailure := restartOnFailure;
      child, failedChild, ready, stopping, fatal, failed := None, None, false, false, false, false;
      active, recovery, arrived, forks := None, None, map[], 0;
      dead, refused, outcomes := {}, {}, map[];
    }

    /** Every step of the object is a step of the protocol. */
    lemma {:induction false} Keeps(before: State, a: Action)
      requires Invariant(before) && Enabled(before, a)
      ensures Invariant(Next(before, a))
    {
      StepKeepsGroups(before, a);
      StepKeepsRuns(before, a);
    }

    method StartProcess()
      requires Valid() && recovery.None?
      modifies this
      ensures Valid() && recovery.None? && failed == old(failed)
      ensures View() == if Enabled(old(View()), Fork) then Next(old(View()), Fork) else old(View())
    {
      if child.Some? || stopping || fatal {
        return;
      }
      hide Invariant;
      Keeps(View(), Fork);
      child, forks, ready := Some(forks), forks + 1, false;
    }

    /** The part of warmup after a recovery, up to waiting for the startup. */
    method Warmup() returns (r: Result<nat, Failure>)
      requires Valid() && recovery.None?
      modifies this
      ensures Valid()
      ensures View() == if Enabled(old(View()), Fork) then Next(old(View()), Fork) else old(View())
      ensures r.Success? ==> child == Some(r.value)
      ensures r.Failure? <==> old(fatal) || old(stopping)
    {
      if fatal {
        return Failure(Fatal);
      }
      if stopping {
        return Failure(WorkerStopping);
      }
      if child.None? {
        StartProcess();
      }
      return Success(child.value);
    }

    /** The beginning of run: a failed client that may not restart refuses without forking. */
    method Begin() returns (r: Result<nat, Failure>)
      requires Valid() && recovery.None?
      modifies this
      ensures Valid()
      ensures View() == old(View()) || (Enabled(old(View()), Fork) && View() == Next(old(View()), Fork))
      ensures !restartOnFailure && old(failed) && old(child).None? ==>
        View() == old(View()) && r == Failure(ProcessFailed)
    {
      if child.None? && !restartOnFailure && failed {
        return Failure(ProcessFailed);
      }
      r := Warmup();
    }

    /** The rest of run, once the startup has been awaited: admits the run or refuses it. */
    method Execute(run: nat) returns (r: Result<nat, Failure>)
      requires Valid() && run !in outcomes
      modifies this
      ensures Valid()
      ensures r.Success? <==> Enabled(old(View()), Admit(run))
      ensures View() == if r.Success? then Next(old(View()), Admit(run)) else old(View())
    {
      if stopping || child.None? || !ready {
        return Failure(WorkerStopping);
      }
      if active.Some? {
        return Failure(WorkerBusy);
      }
      hide Invariant;
      Keeps(View(), Admit(run));
      active, outcomes := Some(run), outcomes[run := Pending];
      return Success(run);
    }

    method OnReady(group: nat)
      requires Valid()
      modifies this
      ensures Valid() && View() == Next(old(View()), Ready(group))
    {
      hide Invariant;
      Keeps(View(), Ready(group));
      if child == Some(group) {
        ready := true;
      }
    }

    method OnResult(group: nat, message: nat)
      requires Valid()
      modifies this
      ensures Valid() && View() == Next(old(View()), Result(group, message))
    {
      hide Invariant;
      Keeps(View(), Result(group, message));
      if child != Some(group) || active != Some(message) {
        return;
      }
      arrived := arrived[message := message];
    }

    /** The progress callbacks of the run have finished. */
    method Settled(run: nat)
      requires Valid() && run in arrived
      modifies this
      ensures Valid() && View() == Next(old(View()), Settle(run))
    {
      hide Invariant;
      Keeps(View(), Settle(run));
      ghost var message := arrived[run];
      arrived := arrived - {run};
      if active != Some(run) {
        return;
      }
      active, outcomes := None, outcomes[run := Resolved(message)];
    }

    /** The synchronous part of reset; `stop` sets the flag first. */
    method BeginReset(stop: bool)
      requires Valid()
      modifies this
      ensures Valid() && View() == Next(old(View()), Reset(stop))
    {
      hide Invariant;
      Keeps(View(), Reset(stop));
      stopping := stopping || stop;
      if recovery.Some? {
        return;
      }
      recovery := Some(Recovery(if child.Some? then child else failedChild, active));
      child, ready, failed := None, false, true;
    }

    /** The termination attempt ended; `cleaned` is whether the temporary directory could be removed. */
    method FinishRecovery(succeeded: bool, cleaned: bool)
      requires Valid() && recovery.Some?
      modifies this
      ensures Valid() && View() == Next(old(View()), Terminated(succeeded, cleaned))
    {
      hide Invariant;
      Keeps(View(), Terminated(succeeded, cleaned));
      ghost var target, rejected := recovery.value.target, recovery.value.run;
      if succeeded && cleaned {
        failedChild := None;
      } else {
        fatal, failedChild := true, recovery.value.target;
      }
      active, recovery := None, None;
      outcomes := RejectPending(outcomes, rejected);
      if succeeded {
        dead := dead + Targets(target);
      } else {
        refused := refused + Targets(target);
      }
    }
  }
}
