/**
 The loops of the store's maintenance: cutting batches, choosing compaction sources, and
 choosing which segments retention and quota remove.
 */
module StoreMaintenance {
  import opened Wrappers
  import opened StoreTypes
  import opened StoreDisk

  // ---------------------------------------------------------------- batches

  ghost predicate SmallRecords(events: seq<Event>) {
    forall e :: e in events ==> e.bytes <= MAX_RECORD_BYTES
  }

  /** What the inner loop of a drain takes: as many events as fit, at least one, at most 200. */
  ghost predicate IsBatch(pending: seq<Event>, size: nat) {
    && 0 < size <= |pending| && size <= MAX_BATCH
    && EventBytes(pending[..size]) <= MAX_SEGMENT_BYTES
    && (size == MAX_BATCH || size == |pending| || EventBytes(pending[..size + 1]) > MAX_SEGMENT_BYTES)
  }

  method CutBatch(pending: seq<Event>) returns (size: nat)
    requires pending != [] && SmallRecords(pending)
    ensures IsBatch(pending, size)
  {
    size := 0;
    var content := 0;
    while size < |pending| && size < MAX_BATCH
      invariant size <= |pending| && size <= MAX_BATCH
      invariant content == EventBytes(pending[..size]) <= MAX_SEGMENT_BYTES
      invariant size == 0 <==> content == 0
    {
      var line := pending[size].bytes + 1;
      assert pending[size] in pending;
      assert pending[..size + 1] == pending[..size] + [pending[size]];
      if content > 0 && content + line > MAX_SEGMENT_BYTES {
        break;
      }
      content, size := content + line, size + 1;
    }
  }

  // ---------------------------------------------------------------- the order of segments

  /** Segment names compare like the strings they stand for. */
  predicate NameLess(a: Name, b: Name) {
    a.runtime < b.runtime
    || (a.runtime == b.runtime && (a.clock < b.clock || (a.clock == b.clock && a.sequence < b.sequence)))
  }

  datatype Entry = Entry(name: Name, segment: Segment)

  /** Oldest content first; names break ties. */
  predicate Precedes(a: Entry, b: Entry) {
    a.segment.newest < b.segment.newest || (a.segment.newest == b.segment.newest && NameLess(a.name, b.name))
  }

  ghost predicate Ordered(entries: seq<Entry>) {
    forall i, j :: 0 <= i < j < |entries| ==> Precedes(entries[i], entries[j])
  }

  /** `entries` lists the index in (newest, name) order. */
  ghost predicate IsOrdering(segments: map<Name, Segment>, entries: seq<Entry>) {
    && Ordered(entries)
    && (forall e :: e in entries ==> e.name in segments && segments[e.name] == e.segment)
    && (forall n :: n in segments ==> Entry(n, segments[n]) in entries)
  }

  method Insert(entries: seq<Entry>, e: Entry) returns (longer: seq<Entry>)
    requires Ordered(entries) && forall x :: x in entries ==> x.name != e.name
    ensures Ordered(longer) && forall x :: x in longer <==> x in entries || x == e
  {
    var i := 0;
    while i < |entries| && Precedes(entries[i], e)
      invariant i <= |entries|
      invariant forall j :: 0 <= j < i ==> Precedes(entries[j], e)
    {
      i := i + 1;
    }
    RestFollows(entries, i, e);
    InsertedInOrder(entries, i, e);
    longer := entries[..i] + [e] + entries[i..];
  }

  lemma {:induction false} RestFollows(entries: seq<Entry>, i: nat, e: Entry)
    requires Ordered(entries) && (forall x :: x in entries ==> x.name != e.name)
    requires i < |entries| ==> !Precedes(entries[i], e)
    ensures forall j :: i <= j < |entries| ==> Precedes(e, entries[j])
  {
    forall j | i <= j < |entries|
      ensures Precedes(e, entries[j])
    {
      assert entries[i] in entries && (i == j || Precedes(entries[i], entries[j]));
    }
  }

  lemma {:induction false} InsertedInOrder(entries: seq<Entry>, i: nat, e: Entry)
    requires Ordered(entries) && i <= |entries|
    requires forall j :: 0 <= j < i ==> Precedes(entries[j], e)
    requires forall j :: i <= j < |entries| ==> Precedes(e, entries[j])
    ensures Ordered(entries[..i] + [e] + entries[i..])
    ensures forall x :: x in entries[..i] + [e] + entries[i..] <==> x in entries || x == e
  {
    hide Precedes;
    var longer := entries[..i] + [e] + entries[i..];
    forall j, k | 0 <= j < k < |longer|
      ensures Precedes(longer[j], longer[k])
    {
      assert j < i ==> longer[j] == entries[j];
      assert k > i ==> longer[k] == entries[k - 1];
      assert j > i ==> longer[j] == entries[j - 1];
      assert k < i ==> longer[k] == entries[k];
    }
    assert entries == entries[..i] + entries[i..];
  }

  method OldestFirst(segments: map<Name, Segment>) returns (entries: seq<Entry>)
    ensures IsOrdering(segments, entries)
  {
    entries := [];
    var rest := segments.Keys;
    while rest != {}
      invariant rest <= segments.Keys && Ordered(entries)
      invariant forall e :: e in entries ==> e.name in segments && e.name !in rest && segments[e.name] == e.segment
      invariant forall n :: n in segments && n !in rest ==> Entry(n, segments[n]) in entries
      decreases rest
    {
      var n :| n in rest;
      entries := Insert(entries, Entry(n, segments[n]));
      rest := rest - {n};
    }
  }

  // ---------------------------------------------------------------- compaction sources

  function NamesOf(entries: seq<Entry>): (names: seq<Name>)
    ensures |names| == |entries| && forall i :: 0 <= i < |entries| ==> names[i] == entries[i].name
  {
    seq(|entries|, i requires 0 <= i < |entries| => entries[i].name)
  }

  function BytesOf(entries: seq<Entry>): nat {
    if entries == [] then 0 else BytesOf(entries[..|entries| - 1]) + entries[|entries| - 1].segment.bytes
  }

  /** The greedy choice: skip pinned and oversized segments, stop at 64. */
  function Choose(entries: seq<Entry>, pinned: set<Name>, taken: seq<Entry>): seq<Entry>
    decreases |entries|
  {
    if entries == [] || |taken| == MAX_SOURCES then taken
    else if entries[0].name in pinned || HEADER_BYTES + BytesOf(taken) + entries[0].segment.bytes > MAX_SEGMENT_BYTES
    then Choose(entries[1..], pinned, taken)
    else Choose(entries[1..], pinned, taken + [entries[0]])
  }

  method ChooseSources(entries: seq<Entry>, pinned: set<Name>) returns (taken: seq<Entry>)
    ensures taken == Choose(entries, pinned, [])
  {
    taken := [];
    var bytes := HEADER_BYTES;
    var i := 0;
    while i < |entries|
      invariant i <= |entries| && |taken| <= MAX_SOURCES
      invariant bytes == HEADER_BYTES + BytesOf(taken)
      invariant Choose(entries, pinned, []) == Choose(entries[i..], pinned, taken)
    {
      var candidate := entries[i];
      assert entries[i..][1..] == entries[i + 1..];
      if candidate.name in pinned || bytes + candidate.segment.bytes > MAX_SEGMENT_BYTES {
        i := i + 1;
        continue;
      }
      if |taken| == MAX_SOURCES {
        break;
      }
      assert (taken + [candidate])[..|taken|] == taken;
      taken, bytes, i := taken + [candidate], bytes + candidate.segment.bytes, i + 1;
    }
  }

  /** What the choice guarantees about its result. */
  ghost predicate Choosable(taken: seq<Entry>, pinned: set<Name>) {
    && |taken| <= MAX_SOURCES && HEADER_BYTES + BytesOf(taken) <= MAX_SEGMENT_BYTES
    && forall e :: e in taken ==> e.name !in pinned
  }

  lemma {:induction false} ChoiceIsSafe(entries: seq<Entry>, pinned: set<Name>, taken: seq<Entry>)
    requires Choosable(taken, pinned)
    ensures Choosable(Choose(entries, pinned, taken), pinned)
    decreases |entries|
  {
    if entries != [] && |taken| < MAX_SOURCES {
      if entries[0].name in pinned || HEADER_BYTES + BytesOf(taken) + entries[0].segment.bytes > MAX_SEGMENT_BYTES {
        ChoiceIsSafe(entries[1..], pinned, taken);
      } else {
        assert (taken + [entries[0]])[..|taken|] == taken;
        ChoiceIsSafe(entries[1..], pinned, taken + [entries[0]]);
      }
    }
  }

  /** The choice lists entries it was offered, each once, in the order offered. */
  lemma {:induction false} ChoiceIsOrdered(entries: seq<Entry>, pinned: set<Name>, taken: seq<Entry>)
    requires Ordered(taken + entries)
    ensures Ordered(Choose(entries, pinned, taken))
    ensures forall e :: e in Choose(entries, pinned, taken) ==> e in taken || e in entries
    decreases |entries|
  {
    var all := taken + entries;
    if entries == [] {
      assert all == taken;
    } else if |taken| == MAX_SOURCES {
      assert forall i :: 0 <= i < |taken| ==> all[i] == taken[i];
    } else {
      var with, without := taken + [entries[0]] + entries[1..], taken + entries[1..];
      assert with == all;
      forall i, j | 0 <= i < j < |without|
        ensures Precedes(without[i], without[j])
      {
        assert without[i] == all[if i < |taken| then i else i + 1];
        assert without[j] == all[if j < |taken| then j else j + 1];
      }
      if entries[0].name in pinned || HEADER_BYTES + BytesOf(taken) + entries[0].segment.bytes > MAX_SEGMENT_BYTES {
        ChoiceIsOrdered(entries[1..], pinned, taken);
      } else {
        ChoiceIsOrdered(entries[1..], pinned, taken + [entries[0]]);
      }
    }
  }

  /** Ordered entries of one index have distinct names. */
  lemma {:induction false} OrderedNamesAreDistinct(segments: map<Name, Segment>, entries: seq<Entry>)
    requires Ordered(entries) && forall e :: e in entries ==> e.name in segments && segments[e.name] == e.segment
    ensures DistinctNames(NamesOf(entries))
  {
    var names := NamesOf(entries);
    forall i, j | 0 <= i < j < |names|
      ensures names[i] != names[j]
    {
      assert entries[i] in entries && entries[j] in entries;
      assert Precedes(entries[i], entries[j]);
    }
  }

  // ---------------------------------------------------------------- sizes

  /** Twelve digits are what a segment name can hold. */
  const SEQUENCES: nat := 1_000_000_000_000

  ghost predicate ShortSequences(names: seq<Name>) {
    forall n :: n in names ==> n.sequence < SEQUENCES
  }

  lemma {:induction false} DigitsOf(n: nat, limit: nat, digits: nat)
    requires n < limit && digits >= 1 && limit == Power10(digits)
    ensures Digits(n) <= digits
  {
    if n >= 10 {
      DigitsOf(n / 10, limit / 10, digits - 1);
    }
  }

  function Power10(e: nat): nat {
    if e == 0 then 1 else 10 * Power10(e - 1)
  }

  lemma {:induction false} ShortNamesFit(names: seq<Name>)
    requires ShortSequences(names)
    ensures NamesBytes(names) <= 79 * |names|
  {
    if names != [] {
      var last := names[|names| - 1];
      assert last in names;
      assert Power10(12) == SEQUENCES;
      DigitsOf(last.sequence, SEQUENCES, 12);
      ShortNamesFit(names[..|names| - 1]);
    }
  }

  /** The header of every compaction fits what recovery reads of a file. */
  lemma {:induction false} HeaderFits(names: seq<Name>)
    requires |names| <= MAX_SOURCES && ShortSequences(names)
    ensures HeaderLineBytes(names) <= HEADER_BYTES
  {
    ShortNamesFit(names);
  }

  lemma {:induction false} EventBytesAppend(a: seq<Event>, b: seq<Event>)
    ensures EventBytes(a + b) == EventBytes(a) + EventBytes(b)
  {
    if b == [] {
      assert a + b == a;
    } else {
      var rest := b[..|b| - 1];
      assert (a + b)[..|a + b| - 1] == a + rest;
      EventBytesAppend(a, rest);
    }
  }

  /** The bytes of the concatenated records are at most the bytes of the files they come from. */
  lemma {:induction false} ContentsFit(disk: Disk, segments: map<Name, Segment>, taken: seq<Entry>)
    requires NameSet(NamesOf(taken)) <= disk.Keys
    requires forall e :: e in taken ==> e.name in disk && e.segment == Recount(disk[e.name])
    ensures EventBytes(Contents(disk, NamesOf(taken))) <= BytesOf(taken)
  {
    if taken != [] {
      var rest, last := taken[..|taken| - 1], taken[|taken| - 1];
      assert last in taken;
      assert NamesOf(rest) == NamesOf(taken)[..|taken| - 1];
      assert NameSet(NamesOf(rest)) <= NameSet(NamesOf(taken));
      ContentsFit(disk, segments, rest);
      EventBytesAppend(Contents(disk, NamesOf(rest)), disk[last.name].events);
      RecountKeepsBytes(EmptySegment(FileBytes(disk[last.name])), disk[last.name].events);
    }
  }

  lemma {:induction false} RecountKeepsBytes(s: Segment, events: seq<Event>)
    ensures CountEvents(s, events).bytes == s.bytes && CountEvents(s, events).count == s.count + |events|
  {
    if events != [] {
      RecountKeepsBytes(s, events[..|events| - 1]);
    }
  }

  /** A compaction never writes more than one segment may hold. */
  lemma {:induction false} CompactionFits(disk: Disk, segments: map<Name, Segment>, taken: seq<Entry>,
      pinned: set<Name>)
    requires Choosable(taken, pinned) && ShortSequences(NamesOf(taken)) && NameSet(NamesOf(taken)) <= disk.Keys
    requires forall e :: e in taken ==> e.name in disk && e.segment == Recount(disk[e.name])
    ensures FileBytes(File(NamesOf(taken), Contents(disk, NamesOf(taken)))) <= MAX_SEGMENT_BYTES
  {
    HeaderFits(NamesOf(taken));
    ContentsFit(disk, segments, taken);
  }

  /** Every segment is at most 4 MiB long, under a name that a header has room for. */
  ghost predicate AllFit(disk: Disk) {
    forall n :: n in disk ==> n.sequence < SEQUENCES && FileBytes(disk[n]) <= MAX_SEGMENT_BYTES
  }

  // ---------------------------------------------------------------- retention and quota

  datatype Bounds = Bounds(cutoff: int, bytes: nat, count: nat)

  /** The head is recent enough and what remains is within the quota: nothing more is removed. */
  predicate Settled(entries: seq<Entry>, bytes: int, count: int, limits: Bounds) {
    entries == [] || (entries[0].segment.newest >= limits.cutoff && bytes <= limits.bytes && count <= limits.count)
  }

  /** The names the removal loop unlinks, in order, with `bytes` and `count` still kept. */
  function Victims(entries: seq<Entry>, pinned: set<Name>, bytes: int, count: int, limits: Bounds): seq<Name>
    decreases |entries|
  {
    if Settled(entries, bytes, count, limits) then []
    else if entries[0].name in pinned then Victims(entries[1..], pinned, bytes, count, limits)
    else [entries[0].name] + Victims(entries[1..], pinned, bytes - entries[0].segment.bytes, count - 1, limits)
  }

  /** All bounds hold of the listed segments. */
  ghost predicate WithinBounds(entries: seq<Entry>, limits: Bounds) {
    && (forall e :: e in entries ==> e.segment.newest >= limits.cutoff)
    && BytesOf(entries) <= limits.bytes
    && |entries| <= limits.count
  }

  lemma {:induction false} BytesFromFront(entries: seq<Entry>)
    requires entries != []
    ensures BytesOf(entries) == entries[0].segment.bytes + BytesOf(entries[1..])
  {
    var rest := entries[1..];
    if rest != [] {
      assert entries[..|entries| - 1][1..] == rest[..|rest| - 1];
      BytesFromFront(entries[..|entries| - 1]);
    } else {
      assert entries[..0] == [];
    }
  }

  lemma {:induction false} SettledIsWithinBounds(entries: seq<Entry>, limits: Bounds)
    requires Ordered(entries)
    ensures Settled(entries, BytesOf(entries), |entries|, limits) <==> WithinBounds(entries, limits)
  {
    if entries != [] {
      assert entries[0] in entries;
      forall e | e in entries
        ensures entries[0].segment.newest <= e.segment.newest
      {
        var i :| 0 <= i < |entries| && entries[i] == e;
        assert i > 0 ==> Precedes(entries[0], entries[i]);
      }
    }
  }

  /** With no pins, the removed segments are the shortest prefix whose removal restores the bounds. */
  ghost predicate IsMinimalPrefix(entries: seq<Entry>, k: nat, limits: Bounds)
    requires k <= |entries|
  {
    WithinBounds(entries[k..], limits) && forall j :: 0 <= j < k ==> !WithinBounds(entries[j..], limits)
  }

  lemma {:induction false} MinimalPrefixExtends(entries: seq<Entry>, k: nat, limits: Bounds)
    requires entries != [] && k < |entries| && !WithinBounds(entries, limits)
      && IsMinimalPrefix(entries[1..], k, limits)
    ensures IsMinimalPrefix(entries, k + 1, limits)
  {
    hide WithinBounds;
    assert entries[1..][k..] == entries[k + 1..];
    forall j | 0 <= j < k + 1
      ensures !WithinBounds(entries[j..], limits)
    {
      if j == 0 {
        assert entries[0..] == entries;
      } else {
        assert entries[1..][j - 1..] == entries[j..];
      }
    }
  }

  lemma {:induction false} VictimsAreTheMinimalPrefix(entries: seq<Entry>, limits: Bounds)
    requires Ordered(entries)
    ensures var victims := Victims(entries, {}, BytesOf(entries), |entries|, limits);
      && |victims| <= |entries|
      && victims == NamesOf(entries[..|victims|])
      && IsMinimalPrefix(entries, |victims|, limits)
    decreases |entries|
  {
    hide WithinBounds, IsMinimalPrefix, Settled, NamesOf, BytesOf, Precedes;
    SettledIsWithinBounds(entries, limits);
    if WithinBounds(entries, limits) {
      NothingToRemove(entries, limits);
    } else {
      NotEmpty(entries, limits);
      BytesFromFront(entries);
      VictimsAreTheMinimalPrefix(entries[1..], limits);
      var tail := Victims(entries[1..], {}, BytesOf(entries[1..]), |entries[1..]|, limits);
      MinimalPrefixExtends(entries, |tail|, limits);
      assert entries[..|tail| + 1] == [entries[0]] + entries[1..][..|tail|];
      NamesFromFront(entries[0], entries[1..][..|tail|]);
    }
  }

  lemma {:induction false} NamesFromFront(first: Entry, rest: seq<Entry>)
    ensures NamesOf([first] + rest) == [first.name] + NamesOf(rest)
  {
  }

  lemma {:induction false} NotEmpty(entries: seq<Entry>, limits: Bounds)
    requires !WithinBounds(entries, limits)
    ensures entries != []
  {
  }

  lemma {:induction false} NothingToRemove(entries: seq<Entry>, limits: Bounds)
    requires WithinBounds(entries, limits)
    ensures IsMinimalPrefix(entries, 0, limits)
    ensures NamesOf(entries[..0]) == []
  {
    assert entries[0..] == entries;
  }

  /** A pinned segment is never among the victims, and every victim is listed. */
  lemma {:induction false} VictimsAreUnpinned(entries: seq<Entry>, pinned: set<Name>, bytes: int, count: int,
      limits: Bounds)
    ensures forall n :: n in Victims(entries, pinned, bytes, count, limits) ==> n !in pinned && n in NamesOf(entries)
    decreases |entries|
  {
    if !Settled(entries, bytes, count, limits) {
      assert forall n :: n in NamesOf(entries[1..]) ==> n in NamesOf(entries);
      assert NamesOf(entries)[0] == entries[0].name;
      if entries[0].name in pinned {
        VictimsAreUnpinned(entries[1..], pinned, bytes, count, limits);
      } else {
        VictimsAreUnpinned(entries[1..], pinned, bytes - entries[0].segment.bytes, count - 1, limits);
      }
    }
  }
}
