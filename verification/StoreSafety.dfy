/**
 What holds over every run of the diagnostic store: nothing committed is lost or doubled by a
 crash, a replaced file never comes back, and pinned segments stay.
 */
module StoreSafety {
  import opened Wrappers
  import opened StoreTypes
  import opened StoreDisk
  import opened StoreProtocol
  import opened StoreInvariant

  lemma {:induction false} InitialHolds()
    ensures Invariant(Initial())
  {
    assert Live(map[]) == {};
    assert Total(map[], {}) == multiset{};
  }

  lemma {:induction false} WriterStepKeeps(s: State, a: Action)
    requires Invariant(s) && Enabled(s, a)
    requires a.Append? || a.TakeBatch? || a.StageBatch? || a.FailBatch? || a.RenameBatch? || a.IndexBatch?
    ensures Invariant(Next(s, a))
  {
    hide Invariant;
    match a
    case Append(e) => AppendKeeps(s, e);
    case TakeBatch(size) => TakeKeeps(s, size);
    case StageBatch(clock) => StageKeeps(s, clock);
    case FailBatch(clock, leftover) => FailBatchKeeps(s, clock, leftover);
    case RenameBatch => RenameBatchKeeps(s);
    case IndexBatch => IndexBatchKeeps(s);
  }

  lemma {:induction false} PrunerStepKeeps(s: State, a: Action)
    requires Invariant(s) && Enabled(s, a)
    requires a.StartPrune? || a.Sweep? || a.StageCompaction? || a.RenameCompaction? || a.SwapIndex? || a.StartBounding?
      || a.RemoveSegment? || a.FinishPrune? || a.FailPrune?
    ensures Invariant(Next(s, a))
  {
    hide Invariant;
    match a
    case StartPrune => StartBoundingKeeps(s);
    case Sweep(n) => SweepKeeps(s, n);
    case StageCompaction(clock, sources) => StageCompactionKeeps(s, clock, sources);
    case RenameCompaction => RenameCompactionKeeps(s);
    case SwapIndex => SwapIndexKeeps(s);
    case StartBounding => StartBoundingKeeps(s);
    case RemoveSegment(n) => RemoveSegmentKeeps(s, n);
    case FinishPrune(cutoff) => FinishPruneKeeps(s, cutoff);
    case FailPrune(leftover) => FailPruneKeeps(s, leftover);
  }

  lemma {:induction false} OtherStepKeeps(s: State, a: Action)
    requires Invariant(s) && Enabled(s, a)
    requires a.Pin? || a.Unpin? || a.Crash? || a.StartBoot? || a.DiscardStaging? || a.UnlinkReplaced? || a.FinishBoot?
    ensures Invariant(Next(s, a))
  {
    hide Invariant;
    match a
    case Pin(names) => PinKeeps(s, names);
    case Unpin(n) => UnpinKeeps(s, n);
    case Crash => CrashKeeps(s);
    case StartBoot => StartBootKeeps(s);
    case DiscardStaging(n) => DiscardKeeps(s, n);
    case UnlinkReplaced(n) => UnlinkReplacedKeeps(s, n);
    case FinishBoot => FinishBootKeeps(s);
  }

  lemma {:induction false} StepKeeps(s: State, a: Action)
    requires Invariant(s) && Enabled(s, a)
    ensures Invariant(Next(s, a))
  {
    hide Invariant, Enabled, Next;
    match a
    case Append(_) => WriterStepKeeps(s, a);
    case TakeBatch(_) => WriterStepKeeps(s, a);
    case StageBatch(_) => WriterStepKeeps(s, a);
    case FailBatch(_, _) => WriterStepKeeps(s, a);
    case RenameBatch => WriterStepKeeps(s, a);
    case IndexBatch => WriterStepKeeps(s, a);
    case Pin(_) => OtherStepKeeps(s, a);
    case Unpin(_) => OtherStepKeeps(s, a);
    case Crash => OtherStepKeeps(s, a);
    case StartBoot => OtherStepKeeps(s, a);
    case DiscardStaging(_) => OtherStepKeeps(s, a);
    case UnlinkReplaced(_) => OtherStepKeeps(s, a);
    case FinishBoot => OtherStepKeeps(s, a);
    case _ => PrunerStepKeeps(s, a);
  }

  /** Every step of every run keeps the invariant. */
  lemma {:induction false} RunKeeps(s: State, actions: seq<Action>, t: State)
    requires Invariant(s) && Run(s, actions, t)
    ensures Invariant(t)
    decreases |actions|
  {
    hide Invariant, Enabled, Next;
    if actions != [] {
      StepKeeps(s, actions[0]);
      RunKeeps(Next(s, actions[0]), actions[1..], t);
    }
  }

  ghost predicate Reachable(s: State) {
    exists actions :: Run(Initial(), actions, s)
  }

  lemma {:induction false} ReachableHolds(s: State)
    requires Reachable(s)
    ensures Invariant(s)
  {
    hide Invariant, Run;
    InitialHolds();
    var actions :| Run(Initial(), actions, s);
    RunKeeps(Initial(), actions, s);
  }

  // ---------------------------------------------------------------- the books

  /** In every reachable state each appended event is in exactly one place. */
  lemma {:induction false} EveryEventIsAccountedFor(s: State)
    requires Reachable(s)
    ensures s.ledger.appended
      == InFlight(s) + LiveEvents(s.disk) + s.ledger.expired + s.ledger.aged + s.ledger.dropped + s.ledger.lost
  {
    ReachableHolds(s);
    hide Reachable, LiveEvents, InFlight, PhaseInvariant, OldNames, NoChains;
  }

  lemma {:induction false} SettledIndex(s: State)
    requires Invariant(s) && s.phase == Running && !s.writer.Renamed? && !s.pruner.Swapping?
    ensures s.segments.Keys == Live(s.disk)
    ensures EntriesExact(s.segments, s.disk)
    ensures s.ledger.committed == Total(s.disk, s.segments.Keys) + s.ledger.expired
  {
    hide OldNames, NoChains, Recount, Live, Total, EventBalance, PrunerInvariant, WriterInvariant;
  }

  /** Outside a rename the index of a running store lists exactly the committed, unpruned events. */
  lemma {:induction false} IndexHoldsTheCommitted(s: State)
    requires Reachable(s) && s.phase == Running && !s.writer.Renamed? && !s.pruner.Swapping?
    ensures s.segments.Keys == Live(s.disk)
    ensures EntriesExact(s.segments, s.disk)
    ensures s.ledger.committed == Total(s.disk, s.segments.Keys) + s.ledger.expired
  {
    ReachableHolds(s);
    SettledIndex(s);
    hide *;
  }

  // ---------------------------------------------------------------- recovery

  /** The steps of a process start, in any order that the protocol allows. */
  ghost predicate IsBoot(actions: seq<Action>) {
    forall a :: a in actions ==> a.Append? || a.DiscardStaging? || a.UnlinkReplaced? || a.FinishBoot?
  }

  lemma {:induction false} BootStepKeepsLive(s: State, a: Action)
    requires Invariant(s) && Enabled(s, a) && s.phase != Off
    requires a.Append? || a.DiscardStaging? || a.UnlinkReplaced? || a.FinishBoot?
    ensures Live(Next(s, a).disk) == Live(s.disk) && LiveEvents(Next(s, a).disk) == LiveEvents(s.disk)
    ensures Next(s, a).ledger.committed == s.ledger.committed && Next(s, a).ledger.expired == s.ledger.expired
    ensures Next(s, a).phase != Off
  {
    hide EventBalance, DiskBalance, OldNames, NoChains, Doomed, Live, LiveEvents, InFlight, Recount;
    match a
    case UnlinkReplaced(n) => RemoveDoomed(s.disk, n);
    case _ =>
  }

  lemma {:induction false} BootKeepsLive(s: State, actions: seq<Action>, t: State)
    requires Invariant(s) && s.phase != Off && IsBoot(actions) && Run(s, actions, t)
    ensures Live(t.disk) == Live(s.disk) && LiveEvents(t.disk) == LiveEvents(s.disk)
    ensures t.ledger.committed == s.ledger.committed && t.ledger.expired == s.ledger.expired
    ensures Invariant(t) && t.phase != Off
    decreases |actions|
  {
    hide Invariant, Enabled, Next, Live, LiveEvents;
    if actions != [] {
      assert actions[0] in actions;
      BootStepKeepsLive(s, actions[0]);
      StepKeeps(s, actions[0]);
      assert forall a :: a in actions[1..] ==> a in actions;
      BootKeepsLive(Next(s, actions[0]), actions[1..], t);
    }
  }

  /**
   A crash in any reachable state, followed by any process start that completes: the index then
   lists exactly the files that were live at the crash, and their events are exactly the
   committed ones that retention has not removed, none lost and none doubled.
   */
  lemma {:induction false} RecoveryIsExact(s: State, boot: seq<Action>, t: State)
    requires Reachable(s) && IsBoot(boot) && Run(s, [Crash, StartBoot] + boot, t) && t.phase == Running
    ensures t.segments.Keys == Live(s.disk) && t.segments.Keys == Live(t.disk)
    ensures Total(t.disk, t.segments.Keys) == LiveEvents(s.disk)
    ensures s.ledger.committed == Total(t.disk, t.segments.Keys) + t.ledger.expired
    ensures EntriesExact(t.segments, t.disk)
  {
    ReachableHolds(s);
    hide Reachable, Invariant, Run, IsBoot, Live, Total, Recount;
    RunSplits(s, boot, t);
    StepKeeps(s, Crash);
    CrashThenStart(s);
    var up := Next(Next(s, Crash), StartBoot);
    StepKeeps(Next(s, Crash), StartBoot);
    hide Enabled, Next;
    BootKeepsLive(up, boot, t);
    BootedIsQuiet(up, boot, t);
    SettledIndex(t);
  }

  lemma {:induction false} CrashThenStart(s: State)
    requires Enabled(s, Crash) && Enabled(Next(s, Crash), StartBoot)
    ensures var up := Next(Next(s, Crash), StartBoot);
      up.disk == s.disk && up.phase != Off && up.writer == Quiet && up.pruner == Resting
      && up.ledger.committed == s.ledger.committed && up.ledger.expired == s.ledger.expired
  {
  }

  lemma {:induction false} RunSplits(s: State, boot: seq<Action>, t: State)
    requires Run(s, [Crash, StartBoot] + boot, t)
    ensures Enabled(s, Crash) && Enabled(Next(s, Crash), StartBoot) && Run(Next(Next(s, Crash), StartBoot), boot, t)
  {
    var all := [Crash, StartBoot] + boot;
    hide Enabled, Next;
    assert all[1..] == [StartBoot] + boot;
    assert all[1..][1..] == boot;
  }

  /** A start performs no batch and no maintenance step. */
  lemma {:induction false} BootedIsQuiet(s: State, actions: seq<Action>, t: State)
    requires s.writer == Quiet && s.pruner == Resting && IsBoot(actions) && Run(s, actions, t)
    ensures t.writer == Quiet && t.pruner == Resting
    decreases |actions|
  {
    if actions != [] {
      assert actions[0] in actions;
      assert forall a :: a in actions[1..] ==> a in actions;
      BootedIsQuiet(Next(s, actions[0]), actions[1..], t);
    }
  }

  // ---------------------------------------------------------------- replaced files stay replaced

  /** No step brings a replaced file back, and no step changes a file in place. */
  lemma {:induction false} StepNeverRevives(s: State, a: Action, n: Name)
    requires Invariant(s) && Enabled(s, a) && n in s.disk && n in Next(s, a).disk
    ensures n in Doomed(s.disk) ==> n in Doomed(Next(s, a).disk)
    ensures Next(s, a).disk[n] == s.disk[n]
  {
    hide EventBalance, DiskBalance, OldNames, EntriesExact, InFlight, IndexInvariant, NamesApart, Recount, Keep,
      Overflow, Since, Before, Doomed, Contents, Live, LiveEvents;
    match a
    case RenameBatch =>
      AddSegment(s.disk, s.writer.name, s.writer.batch);
    case Sweep(name) =>
      RemoveDoomed(s.disk, name);
    case UnlinkReplaced(name) =>
      RemoveDoomed(s.disk, name);
    case RenameCompaction =>
      AddReplacement(s.disk, s.pruner.name, s.pruner.sources);
    case RemoveSegment(name) =>
      assert Doomed(s.disk) == {};
    case _ =>
      assert Next(s, a).disk == s.disk;
  }

  /**
   While a replaced file remains on disk, some file whose header replaces it remains too,
   across any steps, crashes and restarts.
   */
  lemma {:induction false} ReplacedStaysReplaced(s: State, actions: seq<Action>, t: State, n: Name)
    requires Invariant(s) && Run(s, actions, t) && n in Doomed(s.disk)
    requires n in t.disk
    ensures n in Doomed(t.disk) && t.disk[n] == s.disk[n]
    decreases |actions|
  {
    hide Invariant, Enabled, Next, Doomed;
    if actions != [] {
      var m := Next(s, actions[0]);
      StepKeeps(s, actions[0]);
      if n in m.disk {
        DoomedIsOnDisk(s.disk, n);
        StepNeverRevives(s, actions[0], n);
        ReplacedStaysReplaced(m, actions[1..], t, n);
      } else {
        DoomedIsOnDisk(s.disk, n);
        StepRetires(s, actions[0], n);
        RetiredStaysAway(m, actions[1..], t, n);
      }
    } else {
      DoomedIsOnDisk(s.disk, n);
    }
  }

  lemma {:induction false} DoomedIsOnDisk(disk: Disk, n: Name)
    requires n in Doomed(disk)
    ensures n in disk
  {
  }

  /** The name was used, and neither a segment nor a temporary file carries it any more. */
  predicate Retired(s: State, n: Name) {
    n !in s.disk && n !in s.staging && Older(s.runtime, s.sequence, n)
  }

  /** Names only grow older. */
  lemma {:induction false} StepAges(s: State, a: Action, n: Name)
    requires Enabled(s, a) && Older(s.runtime, s.sequence, n)
    ensures Older(Next(s, a).runtime, Next(s, a).sequence, n)
  {
    hide Doomed, Contents, Recount, Keep, Overflow, Since, Before;
  }

  /** Only a freshly drawn name enters the staging area. */
  lemma {:induction false} StepStagesFreshNames(s: State, a: Action, n: Name)
    requires Enabled(s, a) && n !in s.staging && Older(s.runtime, s.sequence, n)
    ensures n !in Next(s, a).staging
  {
    hide Doomed, Contents, Recount, Keep, Overflow, Since, Before;
  }

  lemma {:induction false} StepRetires(s: State, a: Action, n: Name)
    requires Invariant(s) && Enabled(s, a) && n !in Next(s, a).disk
    requires n in s.disk || Retired(s, n)
    ensures Retired(Next(s, a), n)
  {
    assert Older(s.runtime, s.sequence, n) && n !in s.staging;
    StepAges(s, a, n);
    StepStagesFreshNames(s, a, n);
    hide Invariant, Enabled, Next;
  }

  lemma {:induction false} RetiredStepStaysAway(s: State, a: Action, n: Name)
    requires Invariant(s) && Enabled(s, a) && Retired(s, n)
    ensures n !in Next(s, a).disk
  {
    hide EventBalance, DiskBalance, InFlight, NoChains, Doomed, Live, IndexInvariant, PrunerInvariant, WriterInvariant,
      Contents, OldNames;
  }

  /** A name that has left the disk never returns. */
  lemma {:induction false} RetiredStaysAway(s: State, actions: seq<Action>, t: State, n: Name)
    requires Invariant(s) && Run(s, actions, t) && Retired(s, n)
    ensures n !in t.disk
    decreases |actions|
  {
    hide Invariant, Enabled, Next;
    if actions != [] {
      StepKeeps(s, actions[0]);
      RetiredStepStaysAway(s, actions[0], n);
      StepRetires(s, actions[0], n);
      RetiredStaysAway(Next(s, actions[0]), actions[1..], t, n);
    }
  }

  // ---------------------------------------------------------------- pins

  /** A segment that some reader has pinned is indexed and on disk, in every reachable state. */
  lemma {:induction false} PinnedSegmentsStay(s: State, n: Name)
    requires Reachable(s) && n in s.readers
    ensures n in s.segments && n in s.disk
  {
    ReachableHolds(s);
    hide Reachable, NoChains, OldNames, DiskBalance, EventBalance, WriterInvariant, PrunerInvariant, Recount;
  }

  /** No step unlinks a pinned segment. */
  lemma {:induction false} NoStepUnlinksAPin(s: State, a: Action, n: Name)
    requires Reachable(s) && Enabled(s, a) && n in s.readers
    ensures n in s.disk && n in Next(s, a).disk && Next(s, a).disk[n] == s.disk[n]
  {
    ReachableHolds(s);
    PinnedSegmentsStay(s, n);
    hide Reachable;
    PinnedIsNotDoomed(s, n);
    StepKeepsPinned(s, a, n);
    StepNeverRevives(s, a, n);
  }

  lemma {:induction false} PinnedIsNotDoomed(s: State, n: Name)
    requires Invariant(s) && n in s.readers
    ensures n !in s.obsolete && (s.phase.Booting? ==> n !in s.phase.doomed)
  {
    hide NoChains, OldNames, DiskBalance, EventBalance, WriterInvariant, Recount;
  }

  lemma {:induction false} StepKeepsPinned(s: State, a: Action, n: Name)
    requires Enabled(s, a) && n in s.readers && n in s.disk
    requires n !in s.obsolete && (s.phase.Booting? ==> n !in s.phase.doomed)
    ensures n in Next(s, a).disk
  {
    hide Doomed, Contents, Recount, Keep, Overflow, Since, Before;
  }
}
