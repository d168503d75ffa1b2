/**
 What every step of the diagnostic store keeps, whatever order the steps come in and wherever
 the process dies. Each clause names only the fields it depends on.
 */
module StoreInvariant {
  import opened Wrappers
  import opened StoreTypes
  import opened StoreDisk
  import opened StoreProtocol

  /** The name was drawn before the next one that this runtime will draw. */
  predicate Older(runtime: nat, sequence: nat, n: Name) {
    n.runtime < runtime || (n.runtime == runtime && n.sequence < sequence)
  }

  ghost predicate OldNames(runtime: nat, sequence: nat, files: Disk) {
    forall f :: f in files ==> Older(runtime, sequence, f) && forall r :: r in files[f].supersedes ==>
      Older(runtime, sequence, r)
  }

  /** What is on disk is what was committed less what retention removed. */
  ghost predicate DiskBalance(disk: Disk, committed: multiset<Event>, expired: multiset<Event>) {
    committed == LiveEvents(disk) + expired
  }

  /** Every appended event is accounted for exactly once. */
  ghost predicate EventBalance(inFlight: multiset<Event>, ledger: Ledger) {
    ledger.appended == inFlight + ledger.committed + ledger.aged + ledger.dropped + ledger.lost
  }

  /** A renamed file whose index entry is still to come. */
  function Unindexed(writer: Writer, pruner: Pruner): set<Name> {
    (if writer.Renamed? then {writer.name} else {}) + (if pruner.Swapping? then {pruner.name} else {})
  }

  /** The files the index lists: the live ones, and a compaction's sources until the index is switched. */
  ghost function Indexable(disk: Disk, writer: Writer, pruner: Pruner): set<Name> {
    Live(disk) - Unindexed(writer, pruner) + (if pruner.Swapping? then NameSet(pruner.sources) else {})
  }

  ghost predicate WriterInvariant(writer: Writer, disk: Disk, staging: Disk) {
    match writer
    case Staged(name, batch) => name in staging && staging[name] == File([], batch) && Unmentioned(disk, name)
    case Renamed(name) => name in Live(disk)
    case _ => true
  }

  /** The writer and a compaction never share a name. */
  predicate NamesApart(writer: Writer, pruner: Pruner) {
    && (writer.Staged? && pruner.Compacting? ==> writer.name != pruner.name)
    && (writer.Renamed? && pruner.Swapping? ==> writer.name != pruner.name)
  }

  ghost predicate SourcesInvariant(sources: seq<Name>, disk: Disk, indexed: set<Name>, pinned: set<Name>) {
    && 2 <= |sources| && DistinctNames(sources)
    && NameSet(sources) <= indexed && NameSet(sources) <= disk.Keys && NameSet(sources) !! pinned
  }

  ghost predicate PrunerInvariant(pruner: Pruner, disk: Disk, staging: Disk, indexed: set<Name>, obsolete: set<Name>,
      pinned: set<Name>) {
    match pruner
    case Compacting(name, sources) =>
      && SourcesInvariant(sources, disk, indexed, pinned) && obsolete == {} && Doomed(disk) == {}
      && name in staging && staging[name] == File(sources, Contents(disk, sources)) && Unmentioned(disk, name)
    case Swapping(name, sources) =>
      && SourcesInvariant(sources, disk, indexed, pinned) && obsolete == {} && Doomed(disk) == NameSet(sources)
      && name in Live(disk)
    case Bounding => obsolete == {} && Doomed(disk) == {}
    case _ => Doomed(disk) == obsolete
  }

  /** Every index entry is a recount of its file. */
  ghost predicate EntriesExact(segments: map<Name, Segment>, disk: Disk) {
    forall n :: n in segments ==> n in disk && segments[n] == Recount(disk[n])
  }

  ghost predicate IndexInvariant(segments: map<Name, Segment>, disk: Disk, writer: Writer, pruner: Pruner,
      pinned: set<Name>) {
    segments.Keys == Indexable(disk, writer, pruner) && EntriesExact(segments, disk) && pinned <= segments.Keys
  }

  ghost predicate Dormant(s: State) {
    s.segments == map[] && s.obsolete == {} && s.readers == map[] && s.fallback == [] && s.writer == Quiet
      && s.pruner == Resting
  }

  ghost predicate RunningInvariant(s: State) {
    && WriterInvariant(s.writer, s.disk, s.staging)
    && NamesApart(s.writer, s.pruner)
    && PrunerInvariant(s.pruner, s.disk, s.staging, s.segments.Keys, s.obsolete, s.readers.Keys)
    && IndexInvariant(s.segments, s.disk, s.writer, s.pruner, s.readers.Keys)
  }

  ghost predicate PhaseInvariant(s: State) {
    match s.phase
    case Off => Dormant(s) && s.pending == [] && s.ledger.dropped == multiset{}
    case Booting(doomed) => Dormant(s) && doomed == Doomed(s.disk)
    case Running => RunningInvariant(s)
  }

  ghost predicate Invariant(s: State) {
    && NoChains(s.disk)
    && s.disk.Keys !! s.staging.Keys
    && OldNames(s.runtime, s.sequence, s.disk) && OldNames(s.runtime, s.sequence, s.staging)
    && DiskBalance(s.disk, s.ledger.committed, s.ledger.expired)
    && EventBalance(InFlight(s), s.ledger)
    && PhaseInvariant(s)
  }

  // ---------------------------------------------------------------- helpers

  lemma {:induction false} FreshIsUnmentioned(s: State, clock: nat)
    requires OldNames(s.runtime, s.sequence, s.disk) && OldNames(s.runtime, s.sequence, s.staging)
    ensures Unmentioned(s.disk, FreshName(s, clock)) && FreshName(s, clock) !in s.staging
      && FreshName(s, clock) !in s.disk
  {
    var name := FreshName(s, clock);
    assert !Older(s.runtime, s.sequence, name);
  }

  lemma {:induction false} NamesAge(s: State, files: Disk)
    requires OldNames(s.runtime, s.sequence, files)
    ensures OldNames(s.runtime, s.sequence + 1, files)
  {
  }

  lemma {:induction false} ContentsFrame(disk: Disk, other: Disk, names: seq<Name>)
    requires NameSet(names) <= disk.Keys && NameSet(names) <= other.Keys
    requires forall n :: n in names ==> disk[n] == other[n]
    ensures Contents(disk, names) == Contents(other, names)
  {
    if names != [] {
      var rest := names[..|names| - 1];
      assert names[|names| - 1] in NameSet(names);
      assert NameSet(rest) <= NameSet(names);
      ContentsFrame(disk, other, rest);
    }
  }

  lemma {:induction false} SinceAndBefore(events: seq<Event>, cutoff: int)
    ensures multiset(events) == multiset(Since(events, cutoff)) + multiset(Before(events, cutoff))
  {
    if events != [] {
      SinceAndBefore(events[..|events| - 1], cutoff);
      assert events == events[..|events| - 1] + [events[|events| - 1]];
    }
  }

  lemma {:induction false} KeepAndOverflow(events: seq<Event>)
    ensures multiset(events) == multiset(Keep(events)) + multiset(Overflow(events))
  {
    assert events == Overflow(events) + Keep(events);
  }

  // ---------------------------------------------------------------- no event is lost from the books

  /** A change of the books: what leaves the memory or arrives, and where it is entered. */
  ghost predicate Booked(before: State, after: State, arrived: multiset<Event>, left: multiset<Event>) {
    && after.ledger.appended == before.ledger.appended + arrived
    && after.ledger.committed + after.ledger.aged + after.ledger.dropped + after.ledger.lost
       == before.ledger.committed + before.ledger.aged + before.ledger.dropped + before.ledger.lost + left
    && InFlight(before) + arrived == InFlight(after) + left
  }

  lemma {:induction false} BookedBalances(before: State, after: State, arrived: multiset<Event>, left: multiset<Event>)
    requires EventBalance(InFlight(before), before.ledger) && Booked(before, after, arrived, left)
    ensures EventBalance(InFlight(after), after.ledger)
  {
    hide InFlight;
    var b := before.ledger.committed + before.ledger.aged + before.ledger.dropped + before.ledger.lost;
    var a := after.ledger.committed + after.ledger.aged + after.ledger.dropped + after.ledger.lost;
    assert before.ledger.appended == InFlight(before) + b;
    assert InFlight(after) + a == InFlight(after) + left + b;
    assert InFlight(before) + arrived + b == before.ledger.appended + arrived;
    assert after.ledger.appended == InFlight(after) + a;
  }

  lemma {:induction false} AppendBalances(s: State, e: Event)
    requires EventBalance(InFlight(s), s.ledger)
    ensures EventBalance(InFlight(DoAppend(s, e)), DoAppend(s, e).ledger)
  {
    var t := DoAppend(s, e);
    if e.bytes > MAX_RECORD_BYTES || |s.pending| >= MAX_PENDING {
      assert InFlight(t) == InFlight(s);
      hide InFlight;
      assert Booked(s, t, multiset{e}, multiset{e});
      BookedBalances(s, t, multiset{e}, multiset{e});
    } else {
      assert InFlight(s) + multiset{e} == InFlight(t) + multiset{};
      hide InFlight;
      assert Booked(s, t, multiset{e}, multiset{});
      BookedBalances(s, t, multiset{e}, multiset{});
    }
  }

  lemma {:induction false} TakeBalances(s: State, size: nat)
    requires s.writer == Quiet && 0 < size <= |s.pending|
    ensures InFlight(s.(pending := s.pending[size..], writer := Taken(s.pending[..size]))) == InFlight(s)
  {
    assert s.pending == s.pending[..size] + s.pending[size..];
  }

  lemma {:induction false} FailBatchBalances(s: State, clock: nat, leftover: bool)
    requires s.writer.Taken? || s.writer.Staged?
    requires EventBalance(InFlight(s), s.ledger)
    ensures EventBalance(InFlight(DoFailBatch(s, clock, leftover)), DoFailBatch(s, clock, leftover).ledger)
  {
    hide Keep, Overflow;
    var all, t := s.fallback + s.writer.batch, DoFailBatch(s, clock, leftover);
    KeepAndOverflow(all);
    assert multiset(all) == multiset(s.fallback) + multiset(s.writer.batch);
    assert InFlight(s) == multiset(s.pending) + multiset(all);
    assert InFlight(t) == multiset(s.pending) + multiset(Keep(all));
    assert Booked(s, t, multiset{}, multiset(Overflow(all)));
    BookedBalances(s, t, multiset{}, multiset(Overflow(all)));
  }

  lemma {:induction false} RenameBatchBalances(s: State)
    requires s.writer.Staged? && s.writer.name in s.staging
    requires EventBalance(InFlight(s), s.ledger)
    ensures EventBalance(InFlight(DoRenameBatch(s)), DoRenameBatch(s).ledger)
  {
    assert Booked(s, DoRenameBatch(s), multiset{}, multiset(s.writer.batch));
    BookedBalances(s, DoRenameBatch(s), multiset{}, multiset(s.writer.batch));
  }

  lemma {:induction false} FinishPruneBalances(s: State, cutoff: int)
    requires EventBalance(InFlight(s), s.ledger)
    ensures EventBalance(InFlight(DoFinishPrune(s, cutoff)), DoFinishPrune(s, cutoff).ledger)
  {
    hide Since, Before;
    SinceAndBefore(s.fallback, cutoff);
    assert Booked(s, DoFinishPrune(s, cutoff), multiset{}, multiset(Before(s.fallback, cutoff)));
    BookedBalances(s, DoFinishPrune(s, cutoff), multiset{}, multiset(Before(s.fallback, cutoff)));
  }

  lemma {:induction false} CrashBalances(s: State)
    requires EventBalance(InFlight(s), s.ledger)
    ensures EventBalance(InFlight(DoCrash(s)), DoCrash(s).ledger)
  {
    assert InFlight(DoCrash(s)) == multiset{};
    assert Booked(s, DoCrash(s), multiset{}, InFlight(s));
    BookedBalances(s, DoCrash(s), multiset{}, InFlight(s));
  }

  // ---------------------------------------------------------------- the clauses under each kind of change

  lemma {:induction false} StagingGrows(runtime: nat, sequence: nat, staging: Disk, name: Name, file: File)
    requires OldNames(runtime, sequence, staging) && Older(runtime, sequence + 1, name)
    requires forall r :: r in file.supersedes ==> Older(runtime, sequence, r)
    ensures OldNames(runtime, sequence + 1, staging[name := file])
  {
  }

  lemma {:induction false} OldNamesOfPart(runtime: nat, sequence: nat, files: Disk, part: Disk)
    requires OldNames(runtime, sequence, files) && forall n :: n in part ==> n in files && part[n] == files[n]
    ensures OldNames(runtime, sequence, part)
  {
  }

  /** A batch renamed into place keeps a compaction in progress intact. */
  lemma {:induction false} PrunerAfterNewSegment(pruner: Pruner, writer: Writer, disk: Disk, staging: Disk,
      indexed: set<Name>, obsolete: set<Name>, pinned: set<Name>, name: Name, events: seq<Event>)
    requires PrunerInvariant(pruner, disk, staging, indexed, obsolete, pinned)
    requires NoChains(disk) && Unmentioned(disk, name) && (pruner.Compacting? ==> pruner.name != name)
    ensures PrunerInvariant(pruner, disk[name := File([], events)], staging - {name}, indexed, obsolete, pinned)
  {
    var next := disk[name := File([], events)];
    AddSegment(disk, name, events);
    hide NoChains, Doomed, Live, LiveEvents;
    if pruner.Compacting? {
      ContentsFrame(disk, next, pruner.sources);
      assert forall f :: f in next && pruner.name in next[f].supersedes ==>
        f in disk && pruner.name in disk[f].supersedes;
    }
  }

  lemma {:induction false} IndexAfterNewSegment(segments: map<Name, Segment>, disk: Disk, writer: Writer,
      pruner: Pruner, pinned: set<Name>, name: Name, events: seq<Event>)
    requires IndexInvariant(segments, disk, writer, pruner, pinned) && !writer.Renamed?
    requires NoChains(disk) && Unmentioned(disk, name)
    ensures IndexInvariant(segments, disk[name := File([], events)], Renamed(name), pruner, pinned)
  {
    AddSegment(disk, name, events);
    hide NoChains, Doomed, Live, LiveEvents, Recount;
    assert pruner.Swapping? ==> NameSet(pruner.sources) <= segments.Keys;
    assert name !in segments;
    assert segments.Keys == Indexable(disk[name := File([], events)], Renamed(name), pruner);
  }

  // ---------------------------------------------------------------- the batch writer

  lemma {:induction false} AppendKeeps(s: State, e: Event)
    requires Invariant(s) && s.phase != Off
    ensures Invariant(DoAppend(s, e))
  {
    AppendBalances(s, e);
    hide EventBalance, NoChains, OldNames, LiveEvents, Doomed, WriterInvariant, NamesApart, PrunerInvariant,
      IndexInvariant, InFlight;
  }

  lemma {:induction false} TakeKeeps(s: State, size: nat)
    requires Invariant(s) && s.phase == Running && s.writer == Quiet && 0 < size <= |s.pending|
    ensures Invariant(s.(pending := s.pending[size..], writer := Taken(s.pending[..size])))
  {
    hide EventBalance, NoChains, OldNames, DiskBalance, Doomed, PrunerInvariant, Live, EntriesExact;
    TakeBalances(s, size);
    hide InFlight;
  }

  lemma {:induction false} StageKeeps(s: State, clock: nat)
    requires Invariant(s) && s.phase == Running && s.writer.Taken?
    ensures Invariant(s.(staging := s.staging[FreshName(s, clock) := File([], s.writer.batch)],
      sequence := s.sequence + 1,
                         writer := Staged(FreshName(s, clock), s.writer.batch)))
  {
    hide EventBalance, NoChains, DiskBalance, Doomed, Live, EntriesExact, Contents, SourcesInvariant, Unmentioned,
      OldNames;
    FreshIsUnmentioned(s, clock);
    NamesAge(s, s.disk);
    StagingGrows(s.runtime, s.sequence, s.staging, FreshName(s, clock), File([], s.writer.batch));
    assert InFlight(s) == InFlight(s.(writer := Staged(FreshName(s, clock), s.writer.batch)));
    hide InFlight;
  }

  lemma {:induction false} FailBatchKeeps(s: State, clock: nat, leftover: bool)
    requires Invariant(s) && s.phase == Running && (s.writer.Taken? || s.writer.Staged?)
    ensures Invariant(DoFailBatch(s, clock, leftover))
  {
    hide EventBalance, InFlight, NoChains, DiskBalance, Doomed, Live, EntriesExact, Contents, SourcesInvariant,
      Unmentioned, OldNames, Keep, Overflow;
    FailBatchBalances(s, clock, leftover);
    FreshIsUnmentioned(s, clock);
    NamesAge(s, s.disk);
    NamesAge(s, s.staging);
    StagingGrows(s.runtime, s.sequence, s.staging, FreshName(s, clock), File([], s.writer.batch));
    if s.writer.Staged? {
      OldNamesOfPart(s.runtime, s.sequence, s.staging, s.staging - {s.writer.name});
    }
  }

  lemma {:induction false} RenameBatchKeeps(s: State)
    requires Invariant(s) && s.phase == Running && s.writer.Staged? && s.writer.name in s.staging
    ensures Invariant(DoRenameBatch(s))
  {
    hide EventBalance, InFlight, NoChains, LiveEvents, Doomed, IndexInvariant, OldNames;
    var t, name, batch := DoRenameBatch(s), s.writer.name, s.writer.batch;
    assert s.pruner.Swapping? ==> s.pruner.name != name;
    hide Live, PrunerInvariant;
    RenameBatchBalances(s);
    AddSegment(s.disk, name, batch);
    PrunerAfterNewSegment(s.pruner, s.writer, s.disk, s.staging, s.segments.Keys, s.obsolete, s.readers.Keys, name,
      batch);
    IndexAfterNewSegment(s.segments, s.disk, s.writer, s.pruner, s.readers.Keys, name, batch);
    OldNamesOfPart(s.runtime, s.sequence, s.staging, s.staging - {name});
    RenamedNamesAreOld(s.runtime, s.sequence, s.disk, s.staging, name);
  }

  lemma {:induction false} RenamedNamesAreOld(runtime: nat, sequence: nat, disk: Disk, staging: Disk, name: Name)
    requires OldNames(runtime, sequence, disk) && OldNames(runtime, sequence, staging) && name in staging
    ensures OldNames(runtime, sequence, disk[name := staging[name]])
  {
  }

  lemma {:induction false} IndexBatchKeeps(s: State)
    requires Invariant(s) && s.phase == Running && s.writer.Renamed? && s.writer.name in s.disk
    ensures Invariant(DoIndexBatch(s))
  {
    hide EventBalance, NoChains, DiskBalance, OldNames, Doomed, Live, Contents;
    IndexAfterIndexing(s.segments, s.disk, s.writer, s.pruner, s.readers.Keys);
    PrunerIgnoresNewEntries(s.pruner, s.disk, s.staging, s.segments.Keys, DoIndexBatch(s).segments.Keys, s.obsolete,
      s.readers.Keys);
    hide IndexInvariant, PrunerInvariant;
  }

  lemma {:induction false} IndexAfterIndexing(segments: map<Name, Segment>, disk: Disk, writer: Writer, pruner: Pruner,
      pinned: set<Name>)
    requires writer.Renamed? && writer.name in disk && writer.name in Live(disk) && NamesApart(writer, pruner)
    requires IndexInvariant(segments, disk, writer, pruner, pinned)
    ensures IndexInvariant(segments[writer.name := Recount(disk[writer.name])], disk, Quiet, pruner, pinned)
  {
    hide Live, Recount, NameSet;
    var t := segments[writer.name := Recount(disk[writer.name])];
    assert t.Keys == Indexable(disk, Quiet, pruner);
  }

  lemma {:induction false} PrunerIgnoresNewEntries(pruner: Pruner, disk: Disk, staging: Disk, indexed: set<Name>,
      more: set<Name>, obsolete: set<Name>, pinned: set<Name>)
    requires PrunerInvariant(pruner, disk, staging, indexed, obsolete, pinned) && indexed <= more
    ensures PrunerInvariant(pruner, disk, staging, more, obsolete, pinned)
  {
    hide Live, Doomed, Contents, NameSet;
  }

  // ---------------------------------------------------------------- maintenance

  lemma {:induction false} WriterAfterUnlink(writer: Writer, disk: Disk, staging: Disk, n: Name)
    requires WriterInvariant(writer, disk, staging)
    requires writer.Renamed? ==> writer.name in Live(disk - {n})
    ensures WriterInvariant(writer, disk - {n}, staging)
  {
    hide Live;
  }

  lemma {:induction false} IndexAfterSweep(segments: map<Name, Segment>, disk: Disk, writer: Writer, pinned: set<Name>,
      n: Name)
    requires NoChains(disk) && n in Doomed(disk) && IndexInvariant(segments, disk, writer, Sweeping, pinned)
    ensures IndexInvariant(segments, disk - {n}, writer, Sweeping, pinned)
  {
    RemoveDoomed(disk, n);
    assert n !in Live(disk);
    hide NoChains, Doomed, Live, LiveEvents, Recount;
  }

  lemma {:induction false} SweepKeeps(s: State, n: Name)
    requires Invariant(s) && s.phase == Running && s.pruner == Sweeping && n in s.obsolete
    ensures Invariant(s.(disk := s.disk - {n}, obsolete := s.obsolete - {n}))
  {
    hide EventBalance, NoChains, LiveEvents, OldNames, Doomed, Live, WriterInvariant, IndexInvariant;
    var t := s.(disk := s.disk - {n}, obsolete := s.obsolete - {n});
    RemoveDoomed(s.disk, n);
    OldNamesOfPart(s.runtime, s.sequence, s.disk, t.disk);
    IndexAfterSweep(s.segments, s.disk, s.writer, s.readers.Keys, n);
    RenamedIsLive(s.writer, s.disk, s.staging);
    WriterAfterUnlink(s.writer, s.disk, s.staging, n);
    assert InFlight(t) == InFlight(s);
    hide InFlight;
  }

  lemma {:induction false} RenamedIsLive(writer: Writer, disk: Disk, staging: Disk)
    requires WriterInvariant(writer, disk, staging)
    ensures writer.Renamed? ==> writer.name in Live(disk)
  {
    hide Live;
  }

  lemma {:induction false} StageCompactionKeeps(s: State, clock: nat, sources: seq<Name>)
    requires Invariant(s) && s.phase == Running && s.pruner == Sweeping && s.obsolete == {}
    requires SourcesInvariant(sources, s.disk, s.segments.Keys, s.readers.Keys)
    ensures Invariant(DoStageCompaction(s, clock, sources))
  {
    hide EventBalance, NoChains, DiskBalance, Doomed, Live, EntriesExact, Contents, Unmentioned, OldNames;
    FreshIsUnmentioned(s, clock);
    NamesAge(s, s.disk);
    SourcesAreOld(s, sources);
    StagingGrows(s.runtime, s.sequence, s.staging, FreshName(s, clock), File(sources, Contents(s.disk, sources)));
    hide SourcesInvariant;
    assert InFlight(DoStageCompaction(s, clock, sources)) == InFlight(s);
    hide InFlight;
  }

  lemma {:induction false} SourcesAreOld(s: State, sources: seq<Name>)
    requires OldNames(s.runtime, s.sequence, s.disk) && NameSet(sources) <= s.disk.Keys
    ensures forall r :: r in sources ==> Older(s.runtime, s.sequence, r)
  {
    forall r | r in sources
      ensures Older(s.runtime, s.sequence, r)
    {
      assert r in NameSet(sources);
    }
  }

  lemma {:induction false} HiddenAndListed(files: set<Name>, sources: set<Name>, hidden: set<Name>, name: Name)
    requires sources <= files - hidden && name !in files
    ensures files - sources + {name} - (hidden + {name}) + sources == files - hidden
  {
  }

  /** The renamed replacement hides its sources, and the index still lists them. */
  lemma {:induction false} IndexAfterReplacement(segments: map<Name, Segment>, disk: Disk, writer: Writer,
      pinned: set<Name>, name: Name, sources: seq<Name>)
    requires NoChains(disk) && Doomed(disk) == {} && Unmentioned(disk, name) && DistinctNames(sources)
    requires NameSet(sources) <= segments.Keys && NameSet(sources) <= disk.Keys
    requires IndexInvariant(segments, disk, writer, Compacting(name, sources), pinned)
    ensures IndexInvariant(segments, disk[name := File(sources, Contents(disk, sources))], writer,
      Swapping(name, sources), pinned)
  {
    var next := disk[name := File(sources, Contents(disk, sources))];
    AddReplacement(disk, name, sources);
    NothingDoomedAllLive(disk);
    hide NoChains, Doomed, Live, LiveEvents, Recount, Contents, DistinctNames, NameSet, Unindexed;
    var hidden := Unindexed(writer, Compacting(name, sources));
    assert segments.Keys == disk.Keys - hidden + {};
    HiddenAndListed(disk.Keys, NameSet(sources), hidden, name);
    UnindexedWhileSwapping(writer, name, sources);
    assert segments.Keys == Indexable(next, writer, Swapping(name, sources));
  }

  lemma {:induction false} UnindexedWhileSwapping(writer: Writer, name: Name, sources: seq<Name>)
    ensures Unindexed(writer, Swapping(name, sources)) == Unindexed(writer, Compacting(name, sources)) + {name}
  {
  }

  lemma {:induction false} NothingDoomedAllLive(disk: Disk)
    requires Doomed(disk) == {}
    ensures Live(disk) == disk.Keys
  {
    assert forall n :: n in disk && Replaced(disk, n) ==> n in Doomed(disk);
  }

  lemma {:induction false} WriterAfterReplacement(writer: Writer, disk: Disk, staging: Disk, name: Name,
      sources: seq<Name>)
    requires NoChains(disk) && Doomed(disk) == {} && Unmentioned(disk, name) && DistinctNames(sources)
    requires NameSet(sources) <= disk.Keys && WriterInvariant(writer, disk, staging)
    requires (writer.Staged? ==> writer.name != name) && (writer.Renamed? ==> writer.name !in sources)
    ensures WriterInvariant(writer, disk[name := File(sources, Contents(disk, sources))], staging - {name})
    ensures writer.Renamed? ==> writer.name != name
  {
    var next := disk[name := File(sources, Contents(disk, sources))];
    AddReplacement(disk, name, sources);
    hide NoChains, LiveEvents, Contents;
    if writer.Staged? {
      assert writer.name !in NameSet(sources);
      forall f | f in next
        ensures writer.name !in next[f].supersedes
      {
        if f != name {
          assert f in disk && writer.name !in disk[f].supersedes;
        }
      }
    } else if writer.Renamed? {
      assert writer.name in disk && writer.name !in NameSet(sources);
    }
  }

  lemma {:induction false} PrunerAfterReplacement(disk: Disk, staging: Disk, indexed: set<Name>, obsolete: set<Name>,
                                                  pinned: set<Name>, name: Name, sources: seq<Name>)
    requires NoChains(disk) && PrunerInvariant(Compacting(name, sources), disk, staging, indexed, obsolete, pinned)
    ensures PrunerInvariant(Swapping(name, sources), disk[name := staging[name]], staging - {name}, indexed, obsolete,
      pinned)
  {
    AddReplacement(disk, name, sources);
    hide NoChains, Doomed, Live, LiveEvents, Contents;
  }

  lemma {:induction false} RenamedIsNoSource(segments: map<Name, Segment>, disk: Disk, writer: Writer, pruner: Pruner,
      pinned: set<Name>)
    requires IndexInvariant(segments, disk, writer, pruner, pinned) && writer.Renamed? && !pruner.Swapping?
    ensures writer.name !in segments
  {
  }

  /** Everything about the index and the writer that a renamed replacement leaves true. */
  lemma {:induction false} RestAfterReplacement(s: State, name: Name, sources: seq<Name>)
    requires NoChains(s.disk) && RunningInvariant(s) && s.pruner == Compacting(name, sources) && name in s.staging
    ensures var disk := s.disk[name := s.staging[name]];
      && NoChains(disk) && LiveEvents(disk) == LiveEvents(s.disk)
      && WriterInvariant(s.writer, disk, s.staging - {name})
      && NamesApart(s.writer, Swapping(name, sources))
      && IndexInvariant(s.segments, disk, s.writer, Swapping(name, sources), s.readers.Keys)
  {
    hide NoChains, LiveEvents, Doomed, Live, Contents, Unmentioned, WriterInvariant, IndexInvariant;
    AddReplacement(s.disk, name, sources);
    if s.writer.Renamed? {
      RenamedIsNoSource(s.segments, s.disk, s.writer, s.pruner, s.readers.Keys);
    }
    IndexAfterReplacement(s.segments, s.disk, s.writer, s.readers.Keys, name, sources);
    WriterAfterReplacement(s.writer, s.disk, s.staging, name, sources);
  }

  lemma {:induction false} RenameCompactionKeeps(s: State)
    requires Invariant(s) && s.phase == Running && s.pruner.Compacting? && s.pruner.name in s.staging
    ensures Invariant(DoRenameCompaction(s))
  {
    var t, name, sources := DoRenameCompaction(s), s.pruner.name, s.pruner.sources;
    hide EventBalance, NoChains, LiveEvents, OldNames, WriterInvariant, IndexInvariant, PrunerInvariant, NamesApart;
    RestAfterReplacement(s, name, sources);
    OldNamesOfPart(s.runtime, s.sequence, s.staging, s.staging - {name});
    RenamedNamesAreOld(s.runtime, s.sequence, s.disk, s.staging, name);
    PrunerAfterReplacement(s.disk, s.staging, s.segments.Keys, s.obsolete, s.readers.Keys, name, sources);
    assert InFlight(t) == InFlight(s);
    hide InFlight;
  }

  lemma {:induction false} SwapIndexKeeps(s: State)
    requires Invariant(s) && s.phase == Running && s.pruner.Swapping? && s.pruner.name in s.disk
    ensures Invariant(DoSwapIndex(s))
  {
    hide EventBalance, NoChains, DiskBalance, OldNames, Contents, WriterInvariant, Recount, NameSet, Live, Doomed,
      IndexInvariant;
    assert InFlight(DoSwapIndex(s)) == InFlight(s);
    IndexAfterSwap(s.segments, s.disk, s.writer, s.pruner.name, s.pruner.sources, s.readers.Keys);
  }

  lemma {:induction false} IndexAfterSwap(segments: map<Name, Segment>, disk: Disk, writer: Writer, name: Name,
      sources: seq<Name>, pinned: set<Name>)
    requires name in Live(disk) && Doomed(disk) == NameSet(sources) && NameSet(sources) !! pinned
    requires IndexInvariant(segments, disk, writer, Swapping(name, sources), pinned)
    requires writer.Renamed? ==> writer.name != name
    ensures IndexInvariant(segments[name := Recount(disk[name])] - NameSet(sources), disk, writer, Sweeping, pinned)
  {
    hide Recount;
    assert Live(disk) !! Doomed(disk);
    assert (segments[name := Recount(disk[name])] - NameSet(sources)).Keys == Indexable(disk, writer, Sweeping);
  }

  lemma {:induction false} StartBoundingKeeps(s: State)
    requires Invariant(s) && s.phase == Running && (s.pruner == Sweeping || s.pruner == Resting)
    requires s.pruner == Sweeping ==> s.obsolete == {}
    ensures Invariant(if s.pruner == Sweeping then s.(pruner := Bounding) else s.(pruner := Sweeping))
  {
    hide EventBalance, NoChains, DiskBalance, OldNames, Doomed, Live, Contents, WriterInvariant, EntriesExact;
  }

  lemma {:induction false} IndexAfterRemoval(segments: map<Name, Segment>, disk: Disk, writer: Writer,
      pinned: set<Name>, n: Name)
    requires Doomed(disk) == {} && n in segments && n !in pinned && n in disk
    requires IndexInvariant(segments, disk, writer, Bounding, pinned)
    ensures IndexInvariant(segments - {n}, disk - {n}, writer, Bounding, pinned)
    ensures writer.Renamed? ==> writer.name != n
  {
    hide LiveEvents, Recount, NoChains, Live, Doomed;
    RemoveLive(disk, n);
    assert (segments - {n}).Keys == Indexable(disk - {n}, writer, Bounding);
  }

  lemma {:induction false} RemoveSegmentKeeps(s: State, n: Name)
    requires Invariant(s) && s.phase == Running && s.pruner == Bounding && n in s.segments && n in s.disk
      && n !in s.readers
    ensures Invariant(DoRemoveSegment(s, n))
  {
    hide NoChains, LiveEvents, OldNames, Doomed, Live, WriterInvariant, IndexInvariant;
    var t := DoRemoveSegment(s, n);
    assert EventBalance(InFlight(t), t.ledger);
    hide EventBalance, InFlight;
    RemoveLive(s.disk, n);
    OldNamesOfPart(s.runtime, s.sequence, s.disk, t.disk);
    IndexAfterRemoval(s.segments, s.disk, s.writer, s.readers.Keys, n);
    RenamedIsLive(s.writer, s.disk, s.staging);
    WriterAfterUnlink(s.writer, s.disk, s.staging, n);
  }

  lemma {:induction false} FinishPruneKeeps(s: State, cutoff: int)
    requires Invariant(s) && s.phase == Running && s.pruner == Bounding
    ensures Invariant(DoFinishPrune(s, cutoff))
  {
    FinishPruneBalances(s, cutoff);
    hide EventBalance, InFlight, NoChains, DiskBalance, OldNames, Doomed, Live, Contents, WriterInvariant, EntriesExact,
      Since, Before;
  }

  lemma {:induction false} FailPruneKeeps(s: State, leftover: bool)
    requires Invariant(s) && s.phase == Running
      && (s.pruner == Sweeping || s.pruner.Compacting? || s.pruner == Bounding)
    ensures Invariant(DoFailPrune(s, leftover))
  {
    hide EventBalance, NoChains, DiskBalance, OldNames, Doomed, Live, Contents, EntriesExact, Unmentioned;
    var t := DoFailPrune(s, leftover);
    assert InFlight(t) == InFlight(s);
    hide InFlight;
    OldNamesOfPart(s.runtime, s.sequence, s.staging, t.staging);
  }

  lemma {:induction false} PinKeeps(s: State, names: set<Name>)
    requires Invariant(s) && s.phase == Running && s.pruner == Resting && names <= s.segments.Keys
    ensures Invariant(DoPin(s, names))
  {
    hide EventBalance, NoChains, DiskBalance, OldNames, Doomed, Live, Contents, EntriesExact, WriterInvariant;
    assert InFlight(DoPin(s, names)) == InFlight(s);
    hide InFlight;
    assert DoPin(s, names).readers.Keys == s.readers.Keys + names;
  }

  lemma {:induction false} UnpinKeeps(s: State, n: Name)
    requires Invariant(s) && s.phase == Running && n in s.readers
    ensures Invariant(DoUnpin(s, n))
  {
    hide EventBalance, NoChains, DiskBalance, OldNames, Doomed, Live, Contents, EntriesExact, WriterInvariant,
      Unmentioned;
    assert InFlight(DoUnpin(s, n)) == InFlight(s);
    hide InFlight;
    assert DoUnpin(s, n).readers.Keys <= s.readers.Keys;
  }

  // ---------------------------------------------------------------- crash and recovery

  lemma {:induction false} CrashKeeps(s: State)
    requires Invariant(s)
    ensures Invariant(DoCrash(s))
  {
    CrashBalances(s);
    hide EventBalance, InFlight, NoChains, LiveEvents, OldNames, PhaseInvariant;
    var t := DoCrash(s);
    assert Dormant(t) && t.pending == [];
    assert PhaseInvariant(t) by {
      NothingInMemory(t);
    }
  }

  lemma {:induction false} NothingInMemory(t: State)
    requires Dormant(t) && t.pending == [] && t.phase == Off && t.ledger.dropped == multiset{}
    ensures PhaseInvariant(t)
  {
  }

  lemma {:induction false} StartBootKeeps(s: State)
    requires Invariant(s) && s.phase == Off
    ensures Invariant(s.(phase := Booting(Doomed(s.disk)), runtime := s.runtime + 1, sequence := 0))
  {
    hide EventBalance, NoChains, LiveEvents, Doomed;
  }

  lemma {:induction false} DiscardKeeps(s: State, n: Name)
    requires Invariant(s) && s.phase.Booting? && n in s.staging
    ensures Invariant(s.(staging := s.staging - {n}))
  {
    OldNamesOfPart(s.runtime, s.sequence, s.staging, s.staging - {n});
    hide EventBalance, NoChains, LiveEvents, Doomed, OldNames;
  }

  lemma {:induction false} UnlinkReplacedKeeps(s: State, n: Name)
    requires Invariant(s) && s.phase.Booting? && n in s.phase.doomed
    ensures Invariant(s.(disk := s.disk - {n}, phase := Booting(s.phase.doomed - {n})))
  {
    RemoveDoomed(s.disk, n);
    OldNamesOfPart(s.runtime, s.sequence, s.disk, s.disk - {n});
    hide EventBalance, NoChains, LiveEvents, Doomed, OldNames, Live;
  }

  lemma {:induction false} FinishBootKeeps(s: State)
    requires Invariant(s) && s.phase.Booting? && s.phase.doomed == {} && s.staging == map[]
    ensures Invariant(DoFinishBoot(s))
  {
    hide EventBalance, NoChains, DiskBalance, OldNames, Recount;
    assert Live(s.disk) == s.disk.Keys by {
      assert forall n :: n in s.disk && Replaced(s.disk, n) ==> n in Doomed(s.disk);
    }
    hide Doomed, Live;
    var t := DoFinishBoot(s);
    assert InFlight(t) == InFlight(s);
    hide InFlight;
    assert t.segments.Keys == Indexable(t.disk, t.writer, t.pruner);
  }
}
