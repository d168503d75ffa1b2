/**
 The diagnostic store object. Its methods run the loops of the store over its fields; every
 field update between two awaits is one step of the protocol, and the ghost trace records it.
 A crash during any method is therefore a crash after some prefix of the trace.
 */
module DiagnosticStores {
  import opened Wrappers
  import opened StoreTypes
  import opened StoreDisk
  import opened StoreProtocol
  import opened StoreInvariant
  import opened StoreSafety
  import opened StoreMaintenance
  import P = Pagination
  import QueryScan

  const DAY_MS := 86_400_000
  const MB := 1024 * 1024

  lemma {:induction false} RunExtends(s: State, actions: seq<Action>, m: State, a: Action)
    requires Run(s, actions, m) && Enabled(m, a)
    ensures Run(s, actions + [a], Next(m, a))
    decreases |actions|
  {
    hide Enabled, Next;
    if actions == [] {
      assert Run(Next(m, a), [], Next(m, a));
      assert [a][1..] == [];
    } else {
      RunExtends(Next(s, actions[0]), actions[1..], m, a);
      assert (actions + [a])[1..] == actions[1..] + [a];
    }
  }

  lemma {:induction false} FreshOf(s: State, clock: nat)
    requires Invariant(s)
    ensures FreshName(s, clock) !in s.disk
  {
    FreshIsUnmentioned(s, clock);
  }

  lemma {:induction false} BootStep(s: State)
    requires Invariant(s) && s.phase == Off
    ensures Enabled(s, StartBoot)
    ensures Next(s, StartBoot) == s.(phase := Booting(Doomed(s.disk)), runtime := s.runtime + 1, sequence := 0)
    ensures s.segments == map[] && s.obsolete == {} && s.readers == map[] && s.pending == [] && s.fallback == []
    ensures s.writer == Quiet && s.pruner == Resting && s.ledger.dropped == multiset{}
  {
  }

  lemma {:induction false} EmptyRun(s: State)
    ensures Run(s, [], s)
  {
  }

  /** The names that some header on disk replaces. */
  method ReplacedNames(disk: Disk) returns (replaced: set<Name>)
    ensures replaced == Doomed(disk)
  {
    replaced := {};
    var rest := disk.Keys;
    while rest != {}
      invariant rest <= disk.Keys
      invariant forall n :: n in replaced <==> exists f :: f in disk && f !in rest && n in disk[f].supersedes
      decreases rest
    {
      var f :| f in rest;
      replaced := replaced + NameSet(disk[f].supersedes);
      rest := rest - {f};
    }
    replaced := replaced * disk.Keys;
  }

  /** The start-up loop with `rest` still to visit: replaced files are gone, the others indexed. */
  ghost predicate Recovering(files: Disk, replaced: set<Name>, rest: set<Name>, disk: Disk, index: map<Name, Segment>) {
    && replaced == Doomed(files) && rest <= files.Keys
    && (forall n :: n in disk <==> n in files && (n in rest || n !in replaced))
    && (forall n :: n in disk ==> disk[n] == files[n])
    && (forall n :: n in index <==> n in files && n !in rest && n !in replaced)
    && (forall n :: n in index ==> index[n] == Recount(files[n]))
  }

  lemma {:induction false} RecoveryStarts(files: Disk)
    ensures Recovering(files, Doomed(files), files.Keys, files, map[]) && files.Keys * Doomed(files) == Doomed(files)
  {
  }

  lemma {:induction false} RecoveryContinues(files: Disk, replaced: set<Name>, rest: set<Name>, disk: Disk,
      index: map<Name, Segment>, n: Name)
    requires Recovering(files, replaced, rest, disk, index) && n in rest
    ensures n in disk
    ensures n in replaced ==> n in rest * replaced && (rest - {n}) * replaced == rest * replaced - {n}
    ensures n in replaced ==> Recovering(files, replaced, rest - {n}, disk - {n}, index)
    ensures n !in replaced ==> (rest - {n}) * replaced == rest * replaced
    ensures n !in replaced ==> Recovering(files, replaced, rest - {n}, disk, index[n := Recount(disk[n])])
  {
    hide Doomed, Recount;
  }

  lemma {:induction false} RecoveryEnds(files: Disk, replaced: set<Name>, disk: Disk, index: map<Name, Segment>)
    requires Recovering(files, replaced, {}, disk, index)
    ensures index.Keys == disk.Keys == Live(files)
    ensures forall n :: n in index ==> n in files && disk[n] == files[n] && index[n] == Recount(disk[n])
  {
    assert forall n :: n in disk <==> n in Live(files);
  }

  lemma {:induction false} AppendStep(s: State, e: Event)
    requires s.phase == Running
    ensures Enabled(s, StoreProtocol.Append(e)) && Next(s, StoreProtocol.Append(e)) == DoAppend(s, e)
  {
  }

  lemma {:induction false} FailBatchStep(s: State, clock: nat, leftover: bool)
    requires s.phase == Running && (s.writer.Taken? || s.writer.Staged?)
    ensures Enabled(s, FailBatch(clock, leftover))
      && Next(s, FailBatch(clock, leftover)) == DoFailBatch(s, clock, leftover)
  {
  }

  lemma {:induction false} EndOfPrune(s: State, cutoff: int)
    requires s.phase == Running && s.pruner == Bounding
    ensures Enabled(s, FinishPrune(cutoff)) && Next(s, FinishPrune(cutoff)) == DoFinishPrune(s, cutoff)
  {
  }

  lemma {:induction false} RenameBatchStep(s: State)
    requires s.phase == Running && s.writer.Staged? && s.writer.name in s.staging
    ensures Enabled(s, RenameBatch) && Next(s, RenameBatch) == DoRenameBatch(s)
  {
  }

  lemma {:induction false} CountDropped(dropped: multiset<Event>, more: seq<Event>)
    ensures |dropped + multiset(more)| == |dropped| + |more|
  {
  }

  /** Reads a file back event by event. */
  method CountFile(f: File) returns (segment: Segment)
    ensures segment == Recount(f)
  {
    segment := EmptySegment(FileBytes(f));
    for i := 0 to |f.events|
      invariant segment == CountEvents(EmptySegment(FileBytes(f)), f.events[..i])
    {
      segment := CountEvent(segment, f.events[i]);
      assert f.events[..i + 1][..i] == f.events[..i];
    }
    assert f.events[..|f.events|] == f.events;
  }

  /** Concatenates the records of the sources, file after file. */
  method ReadSources(disk: Disk, sources: seq<Name>) returns (content: seq<Event>)
    requires NameSet(sources) <= disk.Keys
    ensures content == Contents(disk, sources)
  {
    content := [];
    for i := 0 to |sources|
      invariant NameSet(sources[..i]) <= disk.Keys && content == Contents(disk, sources[..i])
    {
      assert sources[i] in NameSet(sources);
      assert sources[..i + 1][..i] == sources[..i];
      assert NameSet(sources[..i + 1]) <= NameSet(sources);
      content := content + disk[sources[i]].events;
    }
    assert sources[..|sources|] == sources;
  }

  lemma {:induction false} FewerSegments(segments: map<Name, Segment>, name: Name, segment: Segment, sources: seq<Name>)
    requires 2 <= |sources| && DistinctNames(sources) && NameSet(sources) <= segments.Keys
    ensures |segments[name := segment] - NameSet(sources)| < |segments|
  {
    var merged := segments[name := segment] - NameSet(sources);
    DistinctNamesCount(sources);
    assert merged.Keys <= (segments.Keys - NameSet(sources)) + {name};
    SubsetIsSmaller(merged.Keys, (segments.Keys - NameSet(sources)) + {name});
    assert |segments.Keys - NameSet(sources)| == |segments.Keys| - |NameSet(sources)|;
  }

  lemma {:induction false} SubsetIsSmaller(a: set<Name>, b: set<Name>)
    requires a <= b
    ensures |a| <= |b|
  {
    assert b == a + (b - a);
  }

  lemma {:induction false} DistinctNamesCount(names: seq<Name>)
    requires DistinctNames(names)
    ensures |NameSet(names)| == |names|
  {
    if names != [] {
      var rest, last := names[..|names| - 1], names[|names| - 1];
      DistinctNamesCount(rest);
      assert last !in rest;
      assert NameSet(names) == NameSet(rest) + {last};
    }
  }

  /** The entries chosen for a compaction satisfy what the protocol demands of sources. */
  lemma {:induction false} ChosenSources(segments: map<Name, Segment>, disk: Disk, pinned: set<Name>,
      entries: seq<Entry>, taken: seq<Entry>)
    requires EntriesExact(segments, disk) && IsOrdering(segments, entries) && taken == Choose(entries, pinned, [])
    ensures Choosable(taken, pinned) && |taken| <= MAX_SOURCES && DistinctNames(NamesOf(taken))
    ensures NameSet(NamesOf(taken)) <= segments.Keys && NameSet(NamesOf(taken)) <= disk.Keys
      && NameSet(NamesOf(taken)) !! pinned
    ensures forall e :: e in taken ==> e.name in disk && e.segment == Recount(disk[e.name])
  {
    hide Recount;
    ChoiceIsSafe(entries, pinned, []);
    assert [] + entries == entries;
    ChoiceIsOrdered(entries, pinned, []);
    hide Choose, Choosable;
    OrderedNamesAreDistinct(segments, taken);
    forall n | n in NameSet(NamesOf(taken))
      ensures n in segments && n in disk && n !in pinned
    {
      var i :| 0 <= i < |taken| && NamesOf(taken)[i] == n;
      assert taken[i] in taken;
      ChoosableEntry(taken, pinned, taken[i]);
    }
  }

  lemma {:induction false} ChoosableEntry(taken: seq<Entry>, pinned: set<Name>, e: Entry)
    requires Choosable(taken, pinned) && e in taken
    ensures e.name !in pinned
  {
  }

  // ---------------------------------------------------------------- sums over stored events

  function Any(): Event -> nat { (e: Event) => 1 }
  function AtLevel(l: Level): Event -> nat { (e: Event) => if e.level == l then 1 else 0 }
  function InCategory(c: Category): Event -> nat { (e: Event) => if e.category == c then 1 else 0 }

  function SumOf(events: seq<Event>, f: Event -> nat): nat {
    if events == [] then 0 else SumOf(events[..|events| - 1], f) + f(events[|events| - 1])
  }

  ghost function SumOver(disk: Disk, names: set<Name>, f: Event -> nat): nat
    requires names <= disk.Keys
  {
    if names == {} then 0
    else
      var n :| n in names;
      SumOver(disk, names - {n}, f) + SumOf(disk[n].events, f)
  }

  lemma {:induction false} SumOverRemove(disk: Disk, names: set<Name>, name: Name, f: Event -> nat)
    requires names <= disk.Keys && name in names
    ensures SumOver(disk, names, f) == SumOver(disk, names - {name}, f) + SumOf(disk[name].events, f)
    decreases names
  {
    var n :| n in names && SumOver(disk, names, f) == SumOver(disk, names - {n}, f) + SumOf(disk[n].events, f);
    if n != name {
      SumOverRemove(disk, names - {n}, name, f);
      SumOverRemove(disk, names - {name}, n, f);
      assert names - {n} - {name} == names - {name} - {n};
    }
  }

  ghost function BytesOver(disk: Disk, names: set<Name>): nat
    requires names <= disk.Keys
  {
    if names == {} then 0
    else
      var n :| n in names;
      BytesOver(disk, names - {n}) + FileBytes(disk[n])
  }

  lemma {:induction false} BytesOverRemove(disk: Disk, names: set<Name>, name: Name)
    requires names <= disk.Keys && name in names
    ensures BytesOver(disk, names) == BytesOver(disk, names - {name}) + FileBytes(disk[name])
    decreases names
  {
    var n :| n in names && BytesOver(disk, names) == BytesOver(disk, names - {n}) + FileBytes(disk[n]);
    if n != name {
      BytesOverRemove(disk, names - {n}, name);
      BytesOverRemove(disk, names - {name}, n);
      assert names - {n} - {name} == names - {name} - {n};
    }
  }

  /** The counters of an index entry are sums over the events of its file. */
  lemma {:induction false} RecountSums(bytes: nat, events: seq<Event>)
    ensures var s := CountEvents(EmptySegment(bytes), events);
      && s.count == SumOf(events, Any())
      && (forall l :: CountOf(s.counts, l) == SumOf(events, AtLevel(l)))
      && (forall c :: CountOf(s.categories, c) == SumOf(events, InCategory(c)))
  {
    if events != [] {
      RecountSums(bytes, events[..|events| - 1]);
    }
  }

  datatype Snapshot = Snapshot(diskBytes: nat, storedEvents: nat, counts: map<Level, nat>,
      categories: map<Category, nat>, dropped: nat)

  function AddCounts<K(!new)>(total: map<K, nat>, more: map<K, nat>): (sum: map<K, nat>)
    ensures forall k :: CountOf(sum, k) == CountOf(total, k) + CountOf(more, k)
    ensures forall k :: k in total ==> k in sum
  {
    map k | k in total.Keys + more.Keys :: CountOf(total, k) + CountOf(more, k)
  }

  /** `r` sums the events of the named files. */
  ghost predicate Sums(r: Snapshot, disk: Disk, names: set<Name>)
    requires names <= disk.Keys
  {
    && r.diskBytes == BytesOver(disk, names)
    && r.storedEvents == SumOver(disk, names, Any())
    && (forall l :: l in r.counts && r.counts[l] == SumOver(disk, names, AtLevel(l)))
    && (forall c :: CountOf(r.categories, c) == SumOver(disk, names, InCategory(c)))
  }

  lemma {:induction false} SumsAdd(r: Snapshot, disk: Disk, names: set<Name>, n: Name, more: Segment, next: Snapshot)
    requires names <= disk.Keys && n in disk && n !in names && Sums(r, disk, names) && more == Recount(disk[n])
    requires next.diskBytes == r.diskBytes + more.bytes && next.storedEvents == r.storedEvents + more.count
    requires next.counts == AddCounts(r.counts, more.counts)
      && next.categories == AddCounts(r.categories, more.categories)
    ensures Sums(next, disk, names + {n})
  {
    RecountSums(FileBytes(disk[n]), disk[n].events);
    RecountKeepsBytes(EmptySegment(FileBytes(disk[n])), disk[n].events);
    assert names + {n} - {n} == names;
    BytesOverRemove(disk, names + {n}, n);
    SumOverRemove(disk, names + {n}, n, Any());
    forall l
      ensures l in next.counts && next.counts[l] == SumOver(disk, names + {n}, AtLevel(l))
    {
      SumOverRemove(disk, names + {n}, n, AtLevel(l));
      assert CountOf(next.counts, l) == CountOf(r.counts, l) + CountOf(more.counts, l);
    }
    forall c
      ensures CountOf(next.categories, c) == SumOver(disk, names + {n}, InCategory(c))
    {
      SumOverRemove(disk, names + {n}, n, InCategory(c));
    }
  }

  method SumIndex(segments: map<Name, Segment>, disk: Disk) returns (r: Snapshot)
    requires EntriesExact(segments, disk)
    ensures segments.Keys <= disk.Keys && Sums(r, disk, segments.Keys)
  {
    hide Sums, Recount;
    r := Snapshot(0, 0, map[Info := 0, Warn := 0, Error := 0], map[], 0);
    var rest := segments.Keys;
    EmptySums(r, disk);
    assert segments.Keys - rest == {};
    while rest != {}
      invariant rest <= segments.Keys <= disk.Keys && Sums(r, disk, segments.Keys - rest)
      decreases rest
    {
      var n :| n in rest;
      var s := segments[n];
      var next := Snapshot(r.diskBytes + s.bytes, r.storedEvents + s.count, AddCounts(r.counts, s.counts),
        AddCounts(r.categories, s.categories), 0);
      SumsAdd(r, disk, segments.Keys - rest, n, s, next);
      assert segments.Keys - rest + {n} == segments.Keys - (rest - {n});
      r, rest := next, rest - {n};
    }
    assert segments.Keys - rest == segments.Keys;
  }

  lemma {:induction false} EmptySums(r: Snapshot, disk: Disk)
    requires r.diskBytes == 0 && r.storedEvents == 0 && r.counts == map[Info := 0, Warn := 0, Error := 0]
      && r.categories == map[]
    ensures Sums(r, disk, {})
  {
    forall l: Level
      ensures l in r.counts
    {
      match l
      case Info =>
      case Warn =>
      case Error =>
    }
  }

  method AddFallback(start: Snapshot, fallback: seq<Event>) returns (r: Snapshot)
    requires forall l: Level :: l in start.counts
    ensures r.diskBytes == start.diskBytes && r.storedEvents == start.storedEvents + SumOf(fallback, Any())
    ensures forall l :: l in r.counts && r.counts[l] == start.counts[l] + SumOf(fallback, AtLevel(l))
    ensures forall c :: CountOf(r.categories, c) == CountOf(start.categories, c) + SumOf(fallback, InCategory(c))
  {
    r := start;
    for i := 0 to |fallback|
      invariant r.diskBytes == start.diskBytes && r.storedEvents == start.storedEvents + SumOf(fallback[..i], Any())
      invariant forall l :: l in r.counts && r.counts[l] == start.counts[l] + SumOf(fallback[..i], AtLevel(l))
      invariant forall c ::
        CountOf(r.categories, c) == CountOf(start.categories, c) + SumOf(fallback[..i], InCategory(c))
    {
      var e := fallback[i];
      assert fallback[..i + 1][..i] == fallback[..i];
      r := r.(storedEvents := r.storedEvents + 1,
              counts := r.counts[e.level := r.counts[e.level] + 1],
              categories := r.categories[e.category := CountOf(r.categories, e.category) + 1]);
    }
    assert fallback[..|fallback|] == fallback;
  }

  lemma {:induction false} FewerFit(disk: Disk, n: Name)
    ensures AllFit(disk) ==> AllFit(disk - {n})
  {
  }

  lemma {:induction false} BatchIsSmall(disk: Disk, name: Name, events: seq<Event>)
    ensures EventBytes(events) <= MAX_SEGMENT_BYTES ==> FileBytes(File([], events)) <= MAX_SEGMENT_BYTES
    ensures EventBytes(events) <= MAX_SEGMENT_BYTES && AllFit(disk) && name.sequence < SEQUENCES ==>
      AllFit(disk[name := File([], events)])
  {
  }

  lemma {:induction false} ReplacementIsSmall(disk: Disk, taken: seq<Entry>, pinned: set<Name>, sources: seq<Name>,
      name: Name)
    requires Choosable(taken, pinned) && sources == NamesOf(taken) && NameSet(sources) <= disk.Keys
    requires forall e :: e in taken ==> e.name in disk && e.segment == Recount(disk[e.name])
    ensures ShortSequences(sources) ==> SmallReplacement(File(sources, Contents(disk, sources)))
    ensures AllFit(disk) && name.sequence < SEQUENCES ==> AllFit(disk[name := File(sources, Contents(disk, sources))])
  {
    hide Recount, Contents, FileBytes, HeaderLineBytes, NamesOf;
    if AllFit(disk) {
      forall n | n in sources
        ensures n.sequence < SEQUENCES
      {
        assert n in NameSet(sources);
      }
    }
    if ShortSequences(sources) {
      CompactionFits(disk, map[], taken, pinned);
      HeaderFits(sources);
    }
  }

  /** A merged segment is at most 4 MiB long, and recovery can read its whole header. */
  ghost predicate SmallReplacement(f: File) {
    FileBytes(f) <= MAX_SEGMENT_BYTES && HeaderLineBytes(f.supersedes) <= HEADER_BYTES
  }

  datatype Compaction = Merged | NothingToMerge | Aborted

  class DiagnosticStore {
    var disk: Disk
    var staging: Disk
    const runtime: nat
    var sequence: nat
    var segments: map<Name, Segment>
    var obsolete: set<Name>
    var readers: map<Name, nat>
    var pending: seq<Event>
    var fallback: seq<Event>
    var dropped: nat
    var retentionDays: nat
    var maxDiskMB: nat

    ghost var phase: Phase
    ghost var writer: Writer
    ghost var pruner: Pruner
    ghost var ledger: Ledger
    ghost var trace: seq<Action>
    ghost const origin: State

    ghost function View(): State
      reads this
    {
      State(disk, staging, runtime, sequence, phase, segments, obsolete, readers, pending, fallback, writer, pruner,
        ledger)
    }

    /** The object is where its trace leads, and its counters agree with the books. */
    ghost predicate Valid()
      reads this
    {
      && Invariant(origin)
      && Run(origin, trace, View())
      && Invariant(View())
      && dropped == |ledger.dropped|
      && SmallRecords(pending)
    }

    /** No batch and no maintenance is in progress. */
    ghost predicate Idle()
      reads this
    {
      phase == Running && writer == Quiet && pruner == Resting
    }

    /** Enters the step just taken into the trace. */
    ghost method Log(before: State, a: Action)
      requires Invariant(origin) && Invariant(before) && Run(origin, trace, before)
      requires Enabled(before, a) && View() == Next(before, a)
      modifies this`trace
      ensures trace == old(trace) + [a]
      ensures Run(origin, trace, View()) && Invariant(View())
    {
      hide Invariant, Run, Enabled, Next;
      StepKeeps(before, a);
      RunExtends(origin, trace, before, a);
      trace := trace + [a];
    }

    // ---------------------------------------------------------------- starting on a volume

    /** A new process on the volume that `before` left behind. */
    constructor (ghost before: State, files: Disk, temporary: Disk, runtime: nat)
      requires Invariant(before) && before.phase == Off
      requires before.disk == files && before.staging == temporary && runtime == before.runtime + 1
      ensures Valid() && origin == before && trace == [StartBoot]
      ensures disk == files && staging == temporary && phase == Booting(Doomed(disk))
      ensures writer == Quiet && pruner == Resting && pending == [] && fallback == []
    {
      disk, staging, this.runtime, sequence := files, temporary, runtime, 0;
      segments, obsolete, readers, pending, fallback, dropped := map[], {}, map[], [], [], 0;
      retentionDays, maxDiskMB := 7, 128;
      phase, writer, pruner, ledger := Booting(Doomed(files)), Quiet, Resting, before.ledger;
      origin, trace := before, [];
      new;
      BootStep(before);
      hide Invariant, Run, Next, Enabled;
      assert Run(before, [], before) by { EmptyRun(before); }
      Log(before, StartBoot);
    }

    method DiscardStep(n: Name)
      requires Valid() && phase.Booting? && n in staging
      modifies this`staging, this`trace
      ensures Valid() && staging == old(staging) - {n} && trace == old(trace) + [DiscardStaging(n)]
    {
      hide Invariant, Run;
      ghost var before := View();
      staging := staging - {n};
      Log(before, DiscardStaging(n));
    }

    method UnlinkStep(n: Name)
      requires Valid() && phase.Booting? && n in phase.doomed
      modifies this`disk, this`phase, this`trace
      ensures Valid() && disk == old(disk) - {n} && phase == Booting(old(phase).doomed - {n})
      ensures trace == old(trace) + [UnlinkReplaced(n)]
    {
      hide Invariant, Run;
      ghost var before := View();
      disk, phase := disk - {n}, Booting(phase.doomed - {n});
      Log(before, UnlinkReplaced(n));
    }

    method FinishStep(index: map<Name, Segment>)
      requires Valid() && phase == Booting({}) && staging == map[]
      requires index.Keys == disk.Keys && forall n :: n in index ==> index[n] == Recount(disk[n])
      modifies this`segments, this`phase, this`trace
      ensures Valid() && phase == Running && segments == index && trace == old(trace) + [FinishBoot]
    {
      hide Invariant, Run, Recount;
      ghost var before := View();
      assert index == map n | n in disk :: Recount(disk[n]);
      segments, phase := index, Running;
      Log(before, FinishBoot);
    }

    method DiscardStaged()
      requires Valid() && phase.Booting?
      modifies this`staging, this`trace
      ensures Valid() && staging == map[]
    {
      hide Valid;
      while staging.Keys != {}
        invariant Valid()
        decreases staging.Keys
      {
        var n :| n in staging.Keys;
        DiscardStep(n);
      }
    }

    /** Reads every header, then unlinks each replaced file and indexes each of the others. */
    method Recover()
      requires Valid() && phase == Booting(Doomed(disk)) && writer == Quiet && pruner == Resting
      modifies this`disk, this`staging, this`segments, this`phase, this`trace
      ensures Valid() && Idle()
      ensures segments.Keys == disk.Keys == Live(old(disk))
      ensures forall n :: n in segments ==> n in old(disk) && disk[n] == old(disk)[n] && segments[n] == Recount(disk[n])
    {
      hide Valid, Recount, Doomed, Live, Recovering;
      DiscardStaged();
      var replaced := ReplacedNames(disk);
      ghost var files := disk;
      var index: map<Name, Segment> := map[];
      var rest := disk.Keys;
      RecoveryStarts(disk);
      while rest != {}
        invariant Valid() && phase == Booting(rest * replaced) && staging == map[]
        invariant Recovering(files, replaced, rest, disk, index)
        decreases rest
      {
        var n :| n in rest;
        RecoveryContinues(files, replaced, rest, disk, index, n);
        if n in replaced {
          UnlinkStep(n);
        } else {
          var segment := CountFile(disk[n]);
          index := index[n := segment];
        }
        rest := rest - {n};
      }
      RecoveryEnds(files, replaced, disk, index);
      FinishStep(index);
    }

    /** Recovery followed by a first maintenance pass. */
    method Initialize(now: nat)
      requires Valid() && phase == Booting(Doomed(disk)) && writer == Quiet && pruner == Resting
      modifies this
      ensures Valid() && Idle()
      ensures old(AllFit(disk)) && sequence <= SEQUENCES ==> AllFit(disk)
    {
      hide Valid, Doomed, Live, Recount, FileBytes;
      Recover();
      assert old(AllFit(disk)) ==> AllFit(disk);
      var _, _ := PruneSegments(now);
    }

    // ---------------------------------------------------------------- appending

    /** An oversized record or a full queue counts as dropped; anything else waits for the next drain. */
    method Append(e: Event)
      requires Valid() && phase == Running
      modifies this`pending, this`dropped, this`ledger, this`trace
      ensures Valid() && View() == DoAppend(old(View()), e)
      ensures trace == old(trace) + [StoreProtocol.Append(e)]
    {
      hide Invariant, Run, Next, Enabled;
      ghost var before := View();
      AppendStep(before, e);
      ledger := ledger.(appended := ledger.appended + multiset{e});
      if e.bytes > MAX_RECORD_BYTES || |pending| >= MAX_PENDING {
        dropped := dropped + 1;
        ledger := ledger.(dropped := ledger.dropped + multiset{e});
      } else {
        pending := pending + [e];
      }
      Log(before, StoreProtocol.Append(e));
    }

    // ---------------------------------------------------------------- the steps of a drain

    method TakeStep(size: nat) returns (events: seq<Event>)
      requires Valid() && Idle() && 0 < size <= |pending|
      modifies this`pending, this`writer, this`trace
      ensures Valid() && events == old(pending)[..size] && pending == old(pending)[size..] && writer == Taken(events)
      ensures trace == old(trace) + [TakeBatch(size)]
    {
      hide Invariant, Run;
      ghost var before := View();
      events := pending[..size];
      pending, writer := pending[size..], Taken(events);
      Log(before, TakeBatch(size));
    }

    method StageStep(events: seq<Event>, clock: nat) returns (name: Name)
      requires Valid() && phase == Running && writer == Taken(events)
      modifies this`staging, this`sequence, this`writer, this`trace
      ensures Valid() && writer == Staged(name, events) && name in staging && staging[name] == File([], events)
      ensures name == Name(runtime, clock, old(sequence)) && sequence == old(sequence) + 1
      ensures trace == old(trace) + [StageBatch(clock)]
    {
      hide Invariant, Run;
      ghost var before := View();
      name := Name(runtime, clock, sequence);
      staging, sequence, writer := staging[name := File([], events)], sequence + 1, Staged(name, events);
      Log(before, StageBatch(clock));
    }

    /** The batch joins the bounded fallback; its oldest overflow is dropped. */
    method PushFallback(events: seq<Event>)
      requires dropped == |ledger.dropped|
      modifies this`fallback, this`dropped, this`ledger
      ensures fallback == Keep(old(fallback) + events)
      ensures ledger == old(ledger).(dropped := old(ledger).dropped + multiset(Overflow(old(fallback) + events)))
      ensures dropped == |ledger.dropped|
    {
      var all := fallback + events;
      CountDropped(ledger.dropped, Overflow(all));
      ledger := ledger.(dropped := ledger.dropped + multiset(Overflow(all)));
      fallback := all;
      if |fallback| > MAX_PENDING {
        dropped := dropped + (|fallback| - MAX_PENDING);
        fallback := fallback[|fallback| - MAX_PENDING..];
      }
    }

    /** The temporary file could not be written. */
    method FailWriteStep(events: seq<Event>, clock: nat, leftover: bool)
      requires Valid() && phase == Running && writer == Taken(events)
      modifies this`staging, this`sequence, this`fallback, this`dropped, this`writer, this`ledger, this`trace
      ensures Valid() && writer == Quiet && trace == old(trace) + [FailBatch(clock, leftover)]
      ensures fallback == Keep(old(fallback) + events) && sequence == old(sequence) + 1
    {
      hide Invariant, Run, Next, Enabled, Keep, Overflow;
      ghost var before := View();
      FailBatchStep(before, clock, leftover);
      PushFallback(events);
      if leftover {
        staging := staging[Name(runtime, clock, sequence) := File([], events)];
      }
      sequence, writer := sequence + 1, Quiet;
      Log(before, FailBatch(clock, leftover));
    }

    /** The temporary file could not be renamed; it is unlinked if possible. */
    method FailRenameStep(name: Name, events: seq<Event>, clock: nat, leftover: bool)
      requires Valid() && phase == Running && writer == Staged(name, events)
      modifies this`staging, this`fallback, this`dropped, this`writer, this`ledger, this`trace
      ensures Valid() && writer == Quiet && trace == old(trace) + [FailBatch(clock, leftover)]
      ensures fallback == Keep(old(fallback) + events)
    {
      hide Invariant, Run, Next, Enabled, Keep, Overflow;
      ghost var before := View();
      FailBatchStep(before, clock, leftover);
      PushFallback(events);
      if !leftover {
        staging := staging - {name};
      }
      writer := Quiet;
      Log(before, FailBatch(clock, leftover));
    }

    method RenameStep(name: Name, events: seq<Event>)
      requires Valid() && phase == Running && writer == Staged(name, events)
      requires name in staging && staging[name] == File([], events)
      modifies this`disk, this`staging, this`writer, this`ledger, this`trace
      ensures Valid() && writer == Renamed(name) && name in disk && disk[name] == File([], events)
      ensures disk == old(disk)[name := File([], events)]
      ensures ledger.committed == old(ledger.committed) + multiset(events)
      ensures trace == old(trace) + [RenameBatch]
    {
      hide Invariant, Run, Next, Enabled;
      ghost var before := View();
      RenameBatchStep(before);
      disk, staging := disk[name := staging[name]], staging - {name};
      writer := Renamed(name);
      ledger := ledger.(committed := ledger.committed + multiset(events));
      Log(before, RenameBatch);
    }

    method IndexStep(name: Name)
      requires Valid() && phase == Running && writer == Renamed(name) && name in disk
      modifies this`segments, this`writer, this`trace
      ensures Valid() && writer == Quiet && segments == old(segments)[name := Recount(disk[name])]
      ensures trace == old(trace) + [IndexBatch]
    {
      hide Invariant, Run;
      ghost var before := View();
      var segment := CountFile(disk[name]);
      segments := segments[name := segment];
      writer := Quiet;
      Log(before, IndexBatch);
    }

    // ---------------------------------------------------------------- the steps of maintenance

    method StartPruneStep()
      requires Valid() && Idle()
      modifies this`pruner, this`trace
      ensures Valid() && pruner == Sweeping && trace == old(trace) + [StartPrune]
    {
      hide Invariant, Run;
      ghost var before := View();
      pruner := Sweeping;
      Log(before, StartPrune);
    }

    method SweepStep(n: Name)
      requires Valid() && phase == Running && pruner == Sweeping && n in obsolete
      modifies this`disk, this`obsolete, this`trace
      ensures Valid() && obsolete == old(obsolete) - {n} && disk == old(disk) - {n} && trace == old(trace) + [Sweep(n)]
    {
      hide Invariant, Run;
      ghost var before := View();
      disk, obsolete := disk - {n}, obsolete - {n};
      Log(before, Sweep(n));
    }

    method StageCompactionStep(sources: seq<Name>, content: seq<Event>, clock: nat) returns (name: Name)
      requires Valid() && phase == Running && pruner == Sweeping && obsolete == {}
      requires 2 <= |sources| <= MAX_SOURCES && DistinctNames(sources)
      requires NameSet(sources) <= segments.Keys && NameSet(sources) <= disk.Keys && NameSet(sources) !! readers.Keys
      requires content == Contents(disk, sources)
      modifies this`staging, this`sequence, this`pruner, this`trace
      ensures Valid() && pruner == Compacting(name, sources) && name in staging
        && staging[name] == File(sources, content)
      ensures name == Name(runtime, clock, old(sequence)) && sequence == old(sequence) + 1
      ensures name !in NameSet(sources)
      ensures trace == old(trace) + [StageCompaction(clock, sources)]
    {
      hide Invariant, Run;
      ghost var before := View();
      name := Name(runtime, clock, sequence);
      FreshOf(before, clock);
      staging, sequence := staging[name := File(sources, content)], sequence + 1;
      pruner := Compacting(name, sources);
      Log(before, StageCompaction(clock, sources));
    }

    method RenameCompactionStep(name: Name, sources: seq<Name>)
      requires Valid() && phase == Running && pruner == Compacting(name, sources) && name in staging
      modifies this`disk, this`staging, this`pruner, this`trace
      ensures Valid() && pruner == Swapping(name, sources)
      ensures disk == old(disk)[name := old(staging)[name]] && trace == old(trace) + [RenameCompaction]
    {
      hide Invariant, Run;
      ghost var before := View();
      disk, staging := disk[name := staging[name]], staging - {name};
      pruner := Swapping(name, sources);
      Log(before, RenameCompaction);
    }

    method SwapIndexStep(name: Name, sources: seq<Name>, segment: Segment)
      requires Valid() && phase == Running && pruner == Swapping(name, sources) && name in disk
        && segment == Recount(disk[name])
      modifies this`segments, this`obsolete, this`pruner, this`trace
      ensures Valid() && pruner == Sweeping && obsolete == old(obsolete) + NameSet(sources)
      ensures segments == old(segments)[name := segment] - NameSet(sources)
      ensures trace == old(trace) + [SwapIndex]
    {
      hide Invariant, Run;
      ghost var before := View();
      segments := segments[name := segment] - NameSet(sources);
      obsolete := obsolete + NameSet(sources);
      pruner := Sweeping;
      Log(before, SwapIndex);
    }

    method StartBoundingStep()
      requires Valid() && phase == Running && pruner == Sweeping && obsolete == {}
      modifies this`pruner, this`trace
      ensures Valid() && pruner == Bounding && trace == old(trace) + [StartBounding]
    {
      hide Invariant, Run;
      ghost var before := View();
      pruner := Bounding;
      Log(before, StartBounding);
    }

    method RemoveStep(n: Name)
      requires Valid() && phase == Running && pruner == Bounding && n in segments && n in disk && n !in readers
      modifies this`disk, this`segments, this`ledger, this`trace
      ensures Valid() && segments == old(segments) - {n} && disk == old(disk) - {n}
        && ledger.dropped == old(ledger).dropped
      ensures trace == old(trace) + [RemoveSegment(n)]
    {
      hide Invariant, Run;
      ghost var before := View();
      ledger := ledger.(expired := ledger.expired + multiset(disk[n].events));
      disk, segments := disk - {n}, segments - {n};
      Log(before, RemoveSegment(n));
    }

    method FinishPruneStep(cutoff: int)
      requires Valid() && phase == Running && pruner == Bounding
      modifies this`fallback, this`pruner, this`ledger, this`trace
      ensures Valid() && pruner == Resting && fallback == Since(old(fallback), cutoff)
        && trace == old(trace) + [FinishPrune(cutoff)]
    {
      hide Invariant, Run, Next, Enabled, Since, Before;
      ghost var before := View();
      EndOfPrune(before, cutoff);
      ledger := ledger.(aged := ledger.aged + multiset(Before(fallback, cutoff)));
      fallback := Since(fallback, cutoff);
      pruner := Resting;
      Log(before, FinishPrune(cutoff));
    }

    /** An unlink, a write or a rename failed; a temporary file is unlinked if possible. */
    method FailPruneStep(staged: Option<Name>, leftover: bool)
      requires Valid() && phase == Running && (pruner == Sweeping || pruner.Compacting? || pruner == Bounding)
      requires staged == if pruner.Compacting? then Some(pruner.name) else None
      modifies this`staging, this`pruner, this`trace
      ensures Valid() && pruner == Resting && trace == old(trace) + [FailPrune(leftover)]
    {
      hide Invariant, Run;
      ghost var before := View();
      if staged.Some? && !leftover {
        staging := staging - {staged.value};
      }
      pruner := Resting;
      Log(before, FailPrune(leftover));
    }

    // ---------------------------------------------------------------- maintenance

    lemma {:induction false} IndexFacts()
      requires Valid() && phase == Running
      ensures EntriesExact(segments, disk) && readers.Keys <= segments.Keys
    {
      hide Run, NoChains, OldNames, DiskBalance, EventBalance, WriterInvariant, PrunerInvariant, Recount;
    }

    /** The names of the segments to merge; fewer than two means there is nothing to merge. */
    method CompactionSources() returns (sources: seq<Name>, ghost taken: seq<Entry>)
      requires Valid() && phase == Running
      ensures Choosable(taken, readers.Keys) && sources == NamesOf(taken)
      ensures |sources| <= MAX_SOURCES && DistinctNames(sources)
      ensures NameSet(sources) <= segments.Keys && NameSet(sources) <= disk.Keys && NameSet(sources) !! readers.Keys
      ensures forall e :: e in taken ==> e.name in disk && e.segment == Recount(disk[e.name])
    {
      IndexFacts();
      hide Valid, EntriesExact, Choose, Recount, IsOrdering, Choosable;
      var entries := OldestFirst(segments);
      var chosen := ChooseSources(entries, readers.Keys);
      ChosenSources(segments, disk, readers.Keys, entries, chosen);
      return NamesOf(chosen), chosen;
    }

    /**
     Merges up to 64 old unpinned segments into one. The replacement's header commits before any
     source is unlinked; a failed unlink leaves the remaining sources to the next sweep.
     */
    method Compact(clock: nat) returns (outcome: Compaction)
      requires Valid() && phase == Running && pruner == Sweeping && obsolete == {}
      modifies this`disk, this`staging, this`sequence, this`segments, this`obsolete, this`pruner, this`trace
      ensures Valid() && old(trace) <= trace
      ensures outcome == Merged ==> pruner == Sweeping && obsolete == {} && |segments| < |old(segments)|
      ensures outcome == NothingToMerge ==>
        pruner == Sweeping && obsolete == {} && segments == old(segments) && disk == old(disk)
      ensures outcome == Aborted ==> pruner == Resting
      ensures old(sequence) <= sequence && (old(AllFit(disk)) && sequence <= SEQUENCES ==> AllFit(disk))
    {
      hide Valid, Recount, Choosable, DistinctNames, AllFit;
      var sources, taken := CompactionSources();
      if |sources| < 2 {
        return NothingToMerge;
      }
      var merged := WriteReplacement(sources, clock, taken);
      if merged.None? {
        return Aborted;
      }
      outcome := UnlinkSources(sources);
    }

    /** Writes the merged segment under a temporary name and renames it; its header commits it. */
    method CommitReplacement(sources: seq<Name>, content: seq<Event>, clock: nat) returns (merged: Option<Name>)
      requires Valid() && phase == Running && pruner == Sweeping && obsolete == {}
      requires 2 <= |sources| <= MAX_SOURCES && DistinctNames(sources)
      requires NameSet(sources) <= segments.Keys && NameSet(sources) <= disk.Keys && NameSet(sources) !! readers.Keys
      requires content == Contents(disk, sources)
      modifies this`disk, this`staging, this`sequence, this`pruner, this`trace
      ensures Valid() && old(trace) <= trace && sequence == old(sequence) + 1
      ensures merged.Some? ==>
        && merged.value == Name(runtime, clock, old(sequence)) && merged.value !in NameSet(sources)
        && pruner == Swapping(merged.value, sources)
        && disk == old(disk)[merged.value := File(sources, content)]
      ensures merged.None? ==> pruner == Resting && disk == old(disk)
    {
      hide Valid, DistinctNames, Contents;
      var name := StageCompactionStep(sources, content, clock);
      var renamed: bool := *;
      if !renamed {
        var leftover: bool := *;
        FailPruneStep(Some(name), leftover);
        return None;
      }
      RenameCompactionStep(name, sources);
      return Some(name);
    }

    /** Writes and renames the merged segment, then switches the index to it. */
    method WriteReplacement(sources: seq<Name>, clock: nat, ghost taken: seq<Entry>) returns (merged: Option<Name>)
      requires Valid() && phase == Running && pruner == Sweeping && obsolete == {}
      requires 2 <= |sources| <= MAX_SOURCES && DistinctNames(sources)
      requires NameSet(sources) <= segments.Keys && NameSet(sources) <= disk.Keys && NameSet(sources) !! readers.Keys
      requires Choosable(taken, readers.Keys) && sources == NamesOf(taken)
      requires forall e :: e in taken ==> e.name in disk && e.segment == Recount(disk[e.name])
      modifies this`disk, this`staging, this`sequence, this`segments, this`obsolete, this`pruner, this`trace
      ensures Valid() && old(trace) <= trace
      ensures merged.Some? ==> disk == old(disk)[merged.value := File(sources, Contents(old(disk), sources))]
      ensures merged.Some? && ShortSequences(sources) ==> SmallReplacement(disk[merged.value])
      ensures old(sequence) <= sequence && (old(AllFit(disk)) && sequence <= SEQUENCES ==> AllFit(disk))
      ensures if merged.Some? then pruner == Sweeping && obsolete == NameSet(sources) && |segments| < |old(segments)|
        else pruner == Resting
      ensures merged.Some? ==>
        segments == old(segments)[merged.value := Recount(File(sources, Contents(old(disk), sources)))]
          - NameSet(sources)
    {
      hide *;
      ghost var before := segments;
      ReplacementIsSmall(disk, taken, readers.Keys, sources, Name(runtime, clock, sequence));
      var content := ReadSources(disk, sources);
      merged := CommitReplacement(sources, content, clock);
      if merged.None? {
        return None;
      }
      var segment := CountFile(disk[merged.value]);
      SwapIndexStep(merged.value, sources, segment);
      FewerSegments(before, merged.value, segment, sources);
    }

    method UnlinkSources(sources: seq<Name>) returns (outcome: Compaction)
      requires Valid() && phase == Running && pruner == Sweeping && obsolete == NameSet(sources)
        && DistinctNames(sources)
      modifies this`disk, this`obsolete, this`pruner, this`staging, this`trace
      ensures Valid() && old(trace) <= trace
      ensures outcome == Merged ==> pruner == Sweeping && obsolete == {}
      ensures outcome == Aborted ==> pruner == Resting
      ensures outcome != NothingToMerge
      ensures old(AllFit(disk)) ==> AllFit(disk)
    {
      hide Valid, AllFit;
      for i := 0 to |sources|
        invariant old(AllFit(disk)) ==> AllFit(disk)
        invariant Valid() && old(trace) <= trace && pruner == Sweeping && obsolete == NameSet(sources[i..])
      {
        var unlinked: bool := *;
        if !unlinked {
          FailPruneStep(None, false);
          return Aborted;
        }
        assert sources[i..] == [sources[i]] + sources[i + 1..];
        assert sources[i] in NameSet(sources);
        FewerFit(disk, sources[i]);
        SweepStep(sources[i]);
        assert sources[i] !in sources[i + 1..];
        assert obsolete == NameSet(sources[i + 1..]);
      }
      return Merged;
    }

    /** Finishes interrupted deletions; stops at the first unlink that fails. */
    method SweepObsolete() returns (ok: bool)
      requires Valid() && phase == Running && pruner == Sweeping
      modifies this`disk, this`obsolete, this`pruner, this`staging, this`trace
      ensures Valid() && old(trace) <= trace
      ensures if ok then pruner == Sweeping && obsolete == {} else pruner == Resting
      ensures old(AllFit(disk)) ==> AllFit(disk)
    {
      hide Valid, AllFit;
      while obsolete != {}
        invariant old(AllFit(disk)) ==> AllFit(disk)
        invariant Valid() && old(trace) <= trace && pruner == Sweeping
        decreases obsolete
      {
        var unlinked: bool := *;
        if !unlinked {
          FailPruneStep(None, false);
          return false;
        }
        var n :| n in obsolete;
        FewerFit(disk, n);
        SweepStep(n);
      }
      return true;
    }

    /**
     Removes segments oldest first until every bound holds, skipping pinned ones; stops at the
     first unlink that fails. Without pins this is the minimal prefix that restores the bounds.
     */
    method EnforceBounds(limits: Bounds) returns (ok: bool, ghost entries: seq<Entry>)
      requires Valid() && phase == Running && pruner == Bounding
      modifies this`disk, this`segments, this`ledger, this`pruner, this`staging, this`trace
      ensures Valid() && old(trace) <= trace && pruner == (if ok then Bounding else Resting)
      ensures IsOrdering(old(segments), entries)
      ensures ok ==>
        segments == old(segments) - NameSet(Victims(entries, readers.Keys, BytesOf(entries), |entries|, limits))
      ensures ok ==> Ordered(entries) && forall n :: n in segments <==>
        n in NamesOf(entries) && n !in Victims(entries, readers.Keys, BytesOf(entries), |entries|, limits)
      ensures old(AllFit(disk)) ==> AllFit(disk)
    {
      hide Valid, Settled, IsOrdering, Removing, Victims, AllFit, Ordered;
      var ordered := OldestFirst(segments);
      entries := ordered;
      ghost var before, removed := segments, [];
      var i, bytes, count := 0, BytesOf(ordered), |ordered|;
      RemovalStarts(before, ordered, readers.Keys, limits);
      while i < |ordered|
        invariant i <= |ordered| && Valid() && old(trace) <= trace && pruner == Bounding
          && (old(AllFit(disk)) ==> AllFit(disk))
        invariant Removing(before, segments, ordered, readers.Keys, limits, i, removed, bytes, count)
        decreases |ordered| - i
      {
        if Settled(ordered[i..], bytes, count, limits) {
          break;
        }
        var e := ordered[i];
        if e.name in readers {
          RemovalSkips(before, segments, ordered, readers.Keys, limits, i, removed, bytes, count);
        } else {
          RemovalContinues(before, segments, ordered, readers.Keys, limits, i, removed, bytes, count);
          var unlinked := TryRemove(e.name);
          if !unlinked {
            return false, ordered;
          }
          removed := removed + [e.name];
          bytes, count := bytes - e.segment.bytes, count - 1;
        }
        i := i + 1;
      }
      RemovalEnds(before, segments, ordered, readers.Keys, limits, i, removed, bytes, count);
      KeptAreListed(before, ordered, Victims(ordered, readers.Keys, BytesOf(ordered), |ordered|, limits));
      return true, ordered;
    }

    /** Unlinks one segment, or ends the maintenance if the unlink fails. */
    method TryRemove(n: Name) returns (unlinked: bool)
      requires Valid() && phase == Running && pruner == Bounding && n in segments && n !in readers
      modifies this`disk, this`segments, this`ledger, this`pruner, this`staging, this`trace
      ensures Valid() && old(trace) <= trace && pruner == (if unlinked then Bounding else Resting)
      ensures unlinked ==> segments == old(segments) - {n}
      ensures old(AllFit(disk)) ==> AllFit(disk)
    {
      IndexedName(n);
      FewerFit(disk, n);
      hide Valid, AllFit;
      unlinked := *;
      if unlinked {
        RemoveStep(n);
      } else {
        FailPruneStep(None, false);
      }
    }

    /** Merges sparse batches while there are too many segments. */
    method CompactWhileMany(clock: nat) returns (ok: bool)
      requires Valid() && phase == Running && pruner == Sweeping && obsolete == {}
      modifies this`disk, this`staging, this`sequence, this`segments, this`obsolete, this`pruner, this`trace
      ensures Valid() && old(trace) <= trace
      ensures if ok then pruner == Sweeping && obsolete == {} else pruner == Resting
      ensures old(sequence) <= sequence && (old(AllFit(disk)) && sequence <= SEQUENCES ==> AllFit(disk))
    {
      hide Valid, AllFit;
      while |segments| > COMPACT_AFTER
        invariant old(sequence) <= sequence && (old(AllFit(disk)) && sequence <= SEQUENCES ==> AllFit(disk))
        invariant Valid() && old(trace) <= trace && pruner == Sweeping && obsolete == {}
        decreases |segments|
      {
        var outcome := Compact(clock);
        match outcome {
          case Merged =>
          case NothingToMerge => return true;
          case Aborted => return false;
        }
      }
      return true;
    }

    function Cutoff(now: int): int
      reads this
    {
      now - retentionDays * DAY_MS
    }

    function Limits(now: int): Bounds
      reads this
    {
      Bounds(Cutoff(now), maxDiskMB * MB, MAX_SEGMENTS)
    }

    /**
     One maintenance pass: finish interrupted deletions, merge sparse batches, enforce the
     bounds, age the fallback. Any failed file operation ends the pass with the index intact.
     `listed` is the index when the bounds were enforced, in (newest, name) order.
     */
    method PruneSegments(now: nat) returns (ok: bool, ghost listed: seq<Entry>)
      requires Valid() && Idle()
      modifies this`disk, this`staging, this`sequence, this`segments, this`obsolete, this`fallback, this`ledger,
        this`pruner, this`trace
      ensures Valid() && Idle() && old(trace) <= trace
      ensures ok ==> obsolete == {} && fallback == Since(old(fallback), Cutoff(now))
      ensures ok ==> Ordered(listed) && forall n :: n in segments <==>
        n in NamesOf(listed) && n !in Victims(listed, readers.Keys, BytesOf(listed), |listed|, Limits(now))
      ensures old(sequence) <= sequence && (old(AllFit(disk)) && sequence <= SEQUENCES ==> AllFit(disk))
    {
      hide Valid, Victims, Ordered, AllFit, Since, BytesOf, IsOrdering;
      listed := [];
      StartPruneStep();
      ok := SweepObsolete();
      if !ok { return; }
      ok := CompactWhileMany(now);
      if !ok { return; }
      StartBoundingStep();
      ok, listed := EnforceBounds(Limits(now));
      if !ok { return; }
      FinishPruneStep(Cutoff(now));
    }

    // ---------------------------------------------------------------- draining

    /** Commits one batch, or moves it to the fallback. */
    method CommitBatch(size: nat, now: nat) returns (committed: bool)
      requires Valid() && Idle() && 0 < size <= |pending|
      modifies this`disk, this`staging, this`sequence, this`segments, this`pending, this`fallback, this`dropped,
        this`ledger, this`writer, this`trace
      ensures Valid() && Idle() && old(trace) <= trace && pending == old(pending)[size..]
      ensures if committed then ledger.committed == old(ledger.committed) + multiset(old(pending)[..size])
              else fallback == Keep(old(fallback) + old(pending)[..size])
      ensures old(EventBytes(pending[..size])) <= MAX_SEGMENT_BYTES ==> committed ==>
        disk == old(disk)[Name(runtime, now, old(sequence)) := File([], old(pending)[..size])]
        && FileBytes(disk[Name(runtime, now, old(sequence))]) <= MAX_SEGMENT_BYTES
      ensures old(sequence) <= sequence
      ensures old(AllFit(disk) && EventBytes(pending[..size]) <= MAX_SEGMENT_BYTES) && sequence <= SEQUENCES ==>
        AllFit(disk)
    {
      hide Valid, Keep, AllFit, EventBytes, FileBytes;
      BatchIsSmall(disk, Name(runtime, now, sequence), pending[..size]);
      var events := TakeStep(size);
      var wrote: bool, renamed: bool, leftover: bool := *, *, *;
      if !wrote {
        FailWriteStep(events, now, leftover);
        return false;
      }
      var name := StageStep(events, now);
      if !renamed {
        FailRenameStep(name, events, now, leftover);
        return false;
      }
      RenameStep(name, events);
      IndexStep(name);
      return true;
    }

    lemma {:induction false} PendingIsSmall()
      requires Valid()
      ensures SmallRecords(pending)
    {
    }

    /** Empties the queue batch by batch; a maintenance pass follows every committed batch. */
    method Drain(now: nat)
      requires Valid() && Idle()
      modifies this`disk, this`staging, this`sequence, this`segments, this`obsolete, this`pending, this`fallback,
        this`dropped, this`ledger, this`writer, this`pruner, this`trace
      ensures Valid() && Idle() && old(trace) <= trace && pending == []
      ensures old(sequence) <= sequence && (old(AllFit(disk)) && sequence <= SEQUENCES ==> AllFit(disk))
    {
      hide Valid, AllFit;
      while pending != []
        invariant Valid() && Idle() && old(trace) <= trace
        invariant old(sequence) <= sequence && (old(AllFit(disk)) && sequence <= SEQUENCES ==> AllFit(disk))
        decreases |pending|
      {
        PendingIsSmall();
        var size := CutBatch(pending);
        assert EventBytes(pending[..size]) <= MAX_SEGMENT_BYTES;
        hide SmallRecords;
        var committed := CommitBatch(size, now);
        if committed {
          var _, _ := PruneSegments(now);
        }
      }
    }

    // ---------------------------------------------------------------- the snapshot

    /** Sums the index; the result is what counting every stored event one by one would give. */
    method TakeSnapshot() returns (r: Snapshot)
      requires Valid() && Idle()
      ensures r.diskBytes == BytesOver(disk, segments.Keys)
      ensures r.storedEvents == SumOver(disk, segments.Keys, Any()) + SumOf(fallback, Any())
      ensures forall l ::
        l in r.counts && r.counts[l] == SumOver(disk, segments.Keys, AtLevel(l)) + SumOf(fallback, AtLevel(l))
      ensures forall c ::
        CountOf(r.categories, c) == SumOver(disk, segments.Keys, InCategory(c)) + SumOf(fallback, InCategory(c))
      ensures r.dropped == |ledger.dropped|
    {
      IndexFacts();
      var index := SumIndex(segments, disk);
      hide EntriesExact;
      r := AddFallback(index, fallback);
      r := r.(dropped := dropped);
    }

    // ---------------------------------------------------------------- queries

    lemma {:induction false} IdleIndex()
      requires Valid() && Idle()
      ensures EntriesExact(segments, disk) && segments.Keys == Live(disk)
    {
      hide Run, NoChains, OldNames, DiskBalance, EventBalance, WriterInvariant, PrunerInvariant, Recount, EntriesExact;
      assert NameSet([]) == {};
      assert Indexable(disk, Quiet, Resting) == Live(disk);
    }

    /**
     One page of the committed, unexpired and in-memory events, which `all` lists in any order.
     With distinct keys it is the page that ranking all of them would give.
     */
    method QueryPage(filter: P.Filter, cursor: Option<P.Cursor>, limit: nat, now: int, ghost all: seq<Event>)
      returns (page: P.Page)
      requires Valid() && Idle() && limit > 0
      requires multiset(all) == multiset(fallback) + LiveEvents(disk)
      ensures var q := P.Query(filter, Cutoff(now), cursor, limit);
        && (P.DistinctKeys(P.Wanted(all, q)) ==> page == P.PageOf(all, q))
        && P.Descending(page.events) && |page.events| == |P.Keep(P.Wanted(all, q), limit)|
        && (page.next.Some? <==> |P.Wanted(all, q)| > limit)
        && forall e :: e in page.events ==> e in all && P.Wants(q, e)
    {
      IdleIndex();
      hide Valid, EntriesExact, LiveEvents;
      page := QueryScan.ReadPage(disk, segments, fallback, P.Query(filter, Cutoff(now), cursor, limit), all);
    }

    lemma {:induction false} IndexedName(n: Name)
      requires Valid() && phase == Running && n in segments
      ensures n in disk
    {
      IndexFacts();
    }
  }

  lemma {:induction false} KeptAreListed(before: map<Name, Segment>, listed: seq<Entry>, victims: seq<Name>)
    requires IsOrdering(before, listed)
    ensures Ordered(listed)
    ensures forall n :: n in before - NameSet(victims) <==> n in NamesOf(listed) && n !in victims
  {
    assert forall i :: 0 <= i < |listed| ==> listed[i] in listed && NamesOf(listed)[i] in before;
    forall n | n in before
      ensures n in NamesOf(listed)
    {
      var i :| 0 <= i < |listed| && listed[i] == Entry(n, before[n]);
      assert NamesOf(listed)[i] == n;
    }
  }

  /** The removal loop before position `i`: `removed` is gone, and the rest of the victims lies ahead. */
  ghost predicate Removing(before: map<Name, Segment>, now: map<Name, Segment>, entries: seq<Entry>, pinned: set<Name>,
      limits: Bounds, i: nat, removed: seq<Name>, bytes: int, count: int) {
    && IsOrdering(before, entries) && i <= |entries|
    && Victims(entries, pinned, BytesOf(entries), |entries|, limits)
      == removed + Victims(entries[i..], pinned, bytes, count, limits)
    && now == before - NameSet(removed)
    && RemovedBefore(entries, i, removed)
  }

  lemma {:induction false} RemovalStarts(before: map<Name, Segment>, entries: seq<Entry>, pinned: set<Name>,
      limits: Bounds)
    requires IsOrdering(before, entries)
    ensures Removing(before, before, entries, pinned, limits, 0, [], BytesOf(entries), |entries|)
  {
    hide Victims, IsOrdering;
    assert entries[0..] == entries;
    assert before == before - NameSet([]);
  }

  lemma {:induction false} RemovalSkips(before: map<Name, Segment>, now: map<Name, Segment>, entries: seq<Entry>,
      pinned: set<Name>, limits: Bounds, i: nat, removed: seq<Name>, bytes: int, count: int)
    requires Removing(before, now, entries, pinned, limits, i, removed, bytes, count) && i < |entries|
    requires !Settled(entries[i..], bytes, count, limits) && entries[i].name in pinned
    ensures Removing(before, now, entries, pinned, limits, i + 1, removed, bytes, count)
  {
    hide IsOrdering, Settled;
    assert entries[i..][1..] == entries[i + 1..];
  }

  lemma {:induction false} RemovalContinues(before: map<Name, Segment>, now: map<Name, Segment>, entries: seq<Entry>,
      pinned: set<Name>, limits: Bounds, i: nat, removed: seq<Name>, bytes: int, count: int)
    requires Removing(before, now, entries, pinned, limits, i, removed, bytes, count) && i < |entries|
    requires !Settled(entries[i..], bytes, count, limits) && entries[i].name !in pinned
    ensures entries[i].name in now
    ensures Removing(before, now - {entries[i].name}, entries, pinned, limits, i + 1, removed + [entries[i].name],
                     bytes - entries[i].segment.bytes, count - 1)
  {
    StillIndexed(before, entries, i, removed);
    hide IsOrdering, Settled, RemovedBefore;
    assert entries[i..][1..] == entries[i + 1..];
    SegmentsWithout(before, removed, entries[i].name);
  }

  lemma {:induction false} RemovalEnds(before: map<Name, Segment>, now: map<Name, Segment>, entries: seq<Entry>,
      pinned: set<Name>, limits: Bounds, i: nat, removed: seq<Name>, bytes: int, count: int)
    requires Removing(before, now, entries, pinned, limits, i, removed, bytes, count)
    requires i == |entries| || Settled(entries[i..], bytes, count, limits)
    ensures now == before - NameSet(Victims(entries, pinned, BytesOf(entries), |entries|, limits))
    ensures IsOrdering(before, entries)
  {
    hide IsOrdering, RemovedBefore;
    VictimsAtEnd(entries[i..], pinned, bytes, count, limits);
  }

  /** Only names listed before position `i` have been removed. */
  ghost predicate RemovedBefore(entries: seq<Entry>, i: nat, removed: seq<Name>) {
    forall n :: n in removed ==> exists j :: 0 <= j < i && j < |entries| && entries[j].name == n
  }

  lemma {:induction false} StillIndexed(segments: map<Name, Segment>, entries: seq<Entry>, i: nat, removed: seq<Name>)
    requires IsOrdering(segments, entries) && i < |entries| && RemovedBefore(entries, i, removed)
    ensures entries[i].name in segments - NameSet(removed)
    ensures RemovedBefore(entries, i + 1, removed + [entries[i].name])
  {
    OrderedNamesAreDistinct(segments, entries);
    assert entries[i] in entries;
    assert forall j :: 0 <= j < i ==> NamesOf(entries)[j] != NamesOf(entries)[i];
  }

  lemma {:induction false} SegmentsWithout(segments: map<Name, Segment>, removed: seq<Name>, n: Name)
    ensures segments - NameSet(removed) - {n} == segments - NameSet(removed + [n])
  {
    assert NameSet(removed + [n]) == NameSet(removed) + {n};
  }

  lemma {:induction false} VictimsAtEnd(entries: seq<Entry>, pinned: set<Name>, bytes: int, count: int, limits: Bounds)
    requires entries == [] || Settled(entries, bytes, count, limits)
    ensures Victims(entries, pinned, bytes, count, limits) == []
  {
  }
}
