/**
 The diagnostic store as a state machine. A step is what runs between two awaits, and every
 rename and every unlink is a step of its own, so a crash can fall between any two of them.
 The batch writer, the maintenance task and the readers interleave freely.
 */
module StoreProtocol {
  import opened Wrappers
  import opened StoreTypes
  import opened StoreDisk

  /** The batch writer: a batch taken, written under a temporary name, renamed but not yet indexed. */
  datatype Writer = Quiet | Taken(batch: seq<Event>) | Staged(name: Name, batch: seq<Event>) | Renamed(name: Name)

  /** The serialized maintenance task; `Sweeping` also covers the unlinks that end a compaction. */
  datatype Pruner =
    | Resting
    | Sweeping
    | Compacting(name: Name, sources: seq<Name>)  // replacement written under its temporary name
    | Swapping(name: Name, sources: seq<Name>)    // replacement renamed, index not yet switched
    | Bounding

  datatype Phase = Off | Booting(doomed: set<Name>) | Running

  /** Where every event ever appended has gone. */
  datatype Ledger = Ledger(
    appended: multiset<Event>,
    committed: multiset<Event>,  // its segment was renamed into place
    expired: multiset<Event>,    // committed, then removed by retention or quota
    aged: multiset<Event>,       // left the in-memory fallback by retention
    dropped: multiset<Event>,    // counted as dropped since the process started
    lost: multiset<Event>        // in memory only when a process ended
  )

  datatype State = State(
    disk: Disk,
    staging: Disk,
    runtime: nat,
    sequence: nat,
    phase: Phase,
    segments: map<Name, Segment>,
    obsolete: set<Name>,
    readers: map<Name, nat>,
    pending: seq<Event>,
    fallback: seq<Event>,
    writer: Writer,
    pruner: Pruner,
    ledger: Ledger
  )

  datatype Action =
    | Append(event: Event)
    | TakeBatch(size: nat)
    | StageBatch(clock: nat)
    | FailBatch(clock: nat, leftover: bool)
    | RenameBatch
    | IndexBatch
    | StartPrune
    | Sweep(name: Name)
    | StageCompaction(clock: nat, sources: seq<Name>)
    | RenameCompaction
    | SwapIndex
    | StartBounding
    | RemoveSegment(name: Name)
    | FinishPrune(cutoff: int)
    | FailPrune(leftover: bool)
    | Pin(names: set<Name>)
    | Unpin(name: Name)
    | Crash
    | StartBoot
    | DiscardStaging(name: Name)
    | UnlinkReplaced(name: Name)
    | FinishBoot

  function Initial(): State {
    State(map[], map[], 0, 0, Off, map[], {}, map[], [], [], Quiet, Resting,
          Ledger(multiset{}, multiset{}, multiset{}, multiset{}, multiset{}, multiset{}))
  }

  function FreshName(s: State, clock: nat): Name {
    Name(s.runtime, clock, s.sequence)
  }

  function Keep(fallback: seq<Event>): seq<Event> {
    if |fallback| > MAX_PENDING then fallback[|fallback| - MAX_PENDING..] else fallback
  }

  function Overflow(fallback: seq<Event>): seq<Event> {
    if |fallback| > MAX_PENDING then fallback[..|fallback| - MAX_PENDING] else []
  }

  function Since(events: seq<Event>, cutoff: int): seq<Event> {
    if events == [] then []
    else
      var last := events[|events| - 1];
      Since(events[..|events| - 1], cutoff) + if last.timestamp >= cutoff then [last] else []
  }

  function Before(events: seq<Event>, cutoff: int): seq<Event> {
    if events == [] then []
    else
      var last := events[|events| - 1];
      Before(events[..|events| - 1], cutoff) + if last.timestamp < cutoff then [last] else []
  }

  /** Events that only the process memory holds. */
  function InFlight(s: State): multiset<Event> {
    multiset(s.pending) + multiset(s.fallback)
      + (if s.writer.Taken? || s.writer.Staged? then multiset(s.writer.batch) else multiset{})
  }

  // ---------------------------------------------------------------- steps

  ghost predicate Enabled(s: State, a: Action) {
    match a
    case Append(_) => s.phase != Off
    case TakeBatch(size) => s.phase == Running && s.writer == Quiet && 0 < size <= |s.pending|
    case StageBatch(_) => s.phase == Running && s.writer.Taken?
    case FailBatch(_, _) => s.phase == Running && (s.writer.Taken? || s.writer.Staged?)
    case RenameBatch => s.phase == Running && s.writer.Staged? && s.writer.name in s.staging
    case IndexBatch => s.phase == Running && s.writer.Renamed? && s.writer.name in s.disk
    case StartPrune => s.phase == Running && s.pruner == Resting
    case Sweep(n) => s.phase == Running && s.pruner == Sweeping && n in s.obsolete
    case StageCompaction(_, sources) =>
      && s.phase == Running && s.pruner == Sweeping && s.obsolete == {}
      && 2 <= |sources| <= MAX_SOURCES && DistinctNames(sources)
      && NameSet(sources) <= s.segments.Keys && NameSet(sources) <= s.disk.Keys && NameSet(sources) !! s.readers.Keys
    case RenameCompaction => s.phase == Running && s.pruner.Compacting? && s.pruner.name in s.staging
    case SwapIndex => s.phase == Running && s.pruner.Swapping? && s.pruner.name in s.disk
    case StartBounding => s.phase == Running && s.pruner == Sweeping && s.obsolete == {}
    case RemoveSegment(n) =>
      s.phase == Running && s.pruner == Bounding && n in s.segments && n in s.disk && n !in s.readers
    case FinishPrune(_) => s.phase == Running && s.pruner == Bounding
    case FailPrune(_) => s.phase == Running && (s.pruner == Sweeping || s.pruner.Compacting? || s.pruner == Bounding)
    case Pin(names) => s.phase == Running && s.pruner == Resting && names <= s.segments.Keys
    case Unpin(n) => s.phase == Running && n in s.readers
    case Crash => true
    case StartBoot => s.phase == Off
    case DiscardStaging(n) => s.phase.Booting? && n in s.staging
    case UnlinkReplaced(n) => s.phase.Booting? && n in s.phase.doomed
    case FinishBoot => s.phase.Booting? && s.phase.doomed == {} && s.staging == map[]
  }

  function DoAppend(s: State, e: Event): State {
    if e.bytes > MAX_RECORD_BYTES || |s.pending| >= MAX_PENDING then
      s.(ledger := s.ledger.(appended := s.ledger.appended + multiset{e}, dropped := s.ledger.dropped + multiset{e}))
    else
      s.(pending := s.pending + [e], ledger := s.ledger.(appended := s.ledger.appended + multiset{e}))
  }

  /** The batch that could not be committed joins the fallback; the oldest overflow is dropped. */
  function DoFailBatch(s: State, clock: nat, leftover: bool): State
    requires s.writer.Taken? || s.writer.Staged?
  {
    var all := s.fallback + s.writer.batch;
    var s' := s.(fallback := Keep(all), writer := Quiet,
                 ledger := s.ledger.(dropped := s.ledger.dropped + multiset(Overflow(all))));
    if s.writer.Taken? then
      s'.(sequence := s.sequence + 1,
          staging := if leftover then s.staging[FreshName(s, clock) := File([], s.writer.batch)] else s.staging)
    else
      s'.(staging := if leftover then s.staging else s.staging - {s.writer.name})
  }

  function DoRenameBatch(s: State): State
    requires s.writer.Staged? && s.writer.name in s.staging
  {
    s.(disk := s.disk[s.writer.name := s.staging[s.writer.name]], staging := s.staging - {s.writer.name},
       writer := Renamed(s.writer.name),
       ledger := s.ledger.(committed := s.ledger.committed + multiset(s.writer.batch)))
  }

  function DoIndexBatch(s: State): State
    requires s.writer.Renamed? && s.writer.name in s.disk
  {
    s.(segments := s.segments[s.writer.name := Recount(s.disk[s.writer.name])], writer := Quiet)
  }

  ghost function DoStageCompaction(s: State, clock: nat, sources: seq<Name>): State
    requires NameSet(sources) <= s.disk.Keys
  {
    var name := FreshName(s, clock);
    s.(staging := s.staging[name := File(sources, Contents(s.disk, sources))], sequence := s.sequence + 1,
       pruner := Compacting(name, sources))
  }

  function DoRenameCompaction(s: State): State
    requires s.pruner.Compacting? && s.pruner.name in s.staging
  {
    s.(disk := s.disk[s.pruner.name := s.staging[s.pruner.name]], staging := s.staging - {s.pruner.name},
       pruner := Swapping(s.pruner.name, s.pruner.sources))
  }

  function DoSwapIndex(s: State): State
    requires s.pruner.Swapping? && s.pruner.name in s.disk
  {
    s.(segments := s.segments[s.pruner.name := Recount(s.disk[s.pruner.name])] - NameSet(s.pruner.sources),
       obsolete := s.obsolete + NameSet(s.pruner.sources),
       pruner := Sweeping)
  }

  function DoRemoveSegment(s: State, n: Name): State
    requires n in s.disk
  {
    s.(disk := s.disk - {n}, segments := s.segments - {n},
       ledger := s.ledger.(expired := s.ledger.expired + multiset(s.disk[n].events)))
  }

  function DoFinishPrune(s: State, cutoff: int): State {
    s.(pruner := Resting, fallback := Since(s.fallback, cutoff),
       ledger := s.ledger.(aged := s.ledger.aged + multiset(Before(s.fallback, cutoff))))
  }

  function DoFailPrune(s: State, leftover: bool): State {
    s.(pruner := Resting,
       staging := if s.pruner.Compacting? && !leftover then s.staging - {s.pruner.name} else s.staging)
  }

  function DoPin(s: State, names: set<Name>): State {
    s.(readers := map n | n in s.readers.Keys + names ::
         (if n in s.readers then s.readers[n] else 0) + (if n in names then 1 else 0))
  }

  function DoUnpin(s: State, n: Name): State
    requires n in s.readers
  {
    s.(readers := if s.readers[n] > 1 then s.readers[n := s.readers[n] - 1] else s.readers - {n})
  }

  function DoCrash(s: State): State {
    s.(phase := Off, segments := map[], obsolete := {}, readers := map[], pending := [], fallback := [],
       writer := Quiet, pruner := Resting,
       ledger := s.ledger.(lost := s.ledger.lost + InFlight(s) + s.ledger.dropped, dropped := multiset{}))
  }

  function DoFinishBoot(s: State): State {
    s.(phase := Running, segments := map n | n in s.disk :: Recount(s.disk[n]))
  }

  ghost function Next(s: State, a: Action): State
    requires Enabled(s, a)
  {
    match a
    case Append(e) => DoAppend(s, e)
    case TakeBatch(size) => s.(pending := s.pending[size..], writer := Taken(s.pending[..size]))
    case StageBatch(clock) =>
      s.(staging := s.staging[FreshName(s, clock) := File([], s.writer.batch)], sequence := s.sequence + 1,
         writer := Staged(FreshName(s, clock), s.writer.batch))
    case FailBatch(clock, leftover) => DoFailBatch(s, clock, leftover)
    case RenameBatch => DoRenameBatch(s)
    case IndexBatch => DoIndexBatch(s)
    case StartPrune => s.(pruner := Sweeping)
    case Sweep(n) => s.(disk := s.disk - {n}, obsolete := s.obsolete - {n})
    case StageCompaction(clock, sources) => DoStageCompaction(s, clock, sources)
    case RenameCompaction => DoRenameCompaction(s)
    case SwapIndex => DoSwapIndex(s)
    case StartBounding => s.(pruner := Bounding)
    case RemoveSegment(n) => DoRemoveSegment(s, n)
    case FinishPrune(cutoff) => DoFinishPrune(s, cutoff)
    case FailPrune(leftover) => DoFailPrune(s, leftover)
    case Pin(names) => DoPin(s, names)
    case Unpin(n) => DoUnpin(s, n)
    case Crash => DoCrash(s)
    case StartBoot => s.(phase := Booting(Doomed(s.disk)), runtime := s.runtime + 1, sequence := 0)
    case DiscardStaging(n) => s.(staging := s.staging - {n})
    case UnlinkReplaced(n) => s.(disk := s.disk - {n}, phase := Booting(s.phase.doomed - {n}))
    case FinishBoot => DoFinishBoot(s)
  }

  /** `s` leads to `t` by performing `actions` one after the other. */
  ghost predicate Run(s: State, actions: seq<Action>, t: State)
    decreases |actions|
  {
    if actions == [] then s == t
    else
      Enabled(s, actions[0]) && Run(Next(s, actions[0]), actions[1..], t)
  }
}
