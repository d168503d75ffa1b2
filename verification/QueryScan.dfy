/** The scan behind a query: excluding segments by their index entries, and stopping early. */
module QueryScan {
  import opened Wrappers
  import opened StoreTypes
  import opened StoreDisk
  import opened StoreMaintenance
  import opened Pagination
  import opened StoreInvariant

  // ---------------------------------------------------------------- the exclusion index

  /** Whether the index entry leaves a chance that the segment holds a matching event. */
  predicate Eligible(q: Query, s: Segment) {
    var from := if q.filter.from.Some? && q.filter.from.value > q.cutoff then q.filter.from.value else q.cutoff;
    && s.newest >= from
    && (q.filter.to.Some? ==> s.oldest.Some? && s.oldest.value <= q.filter.to.value)
    && (q.filter.level.Some? ==> CountOf(s.counts, q.filter.level.value) > 0)
    && (q.filter.category.Some? ==> CountOf(s.categories, q.filter.category.value) > 0)
  }

  /** An index entry covers its events. */
  ghost predicate Covers(s: Segment, e: Event) {
    && e.timestamp <= s.newest
    && s.oldest.Some? && s.oldest.value <= e.timestamp
    && CountOf(s.counts, e.level) > 0
    && CountOf(s.categories, e.category) > 0
  }

  lemma {:induction false} CountsCover(s: Segment, events: seq<Event>)
    ensures forall e :: e in events ==> Covers(CountEvents(s, events), e)
  {
    if events != [] {
      var rest, last := events[..|events| - 1], events[|events| - 1];
      CountsCover(s, rest);
      forall e | e in events
        ensures Covers(CountEvents(s, events), e)
      {
        if e != last {
          assert e in rest;
        }
      }
    }
  }

  /** A file that the index excludes holds no wanted event. */
  lemma {:induction false} ExcludedHoldsNothing(q: Query, f: File, e: Event)
    requires !Eligible(q, Recount(f)) && e in f.events
    ensures !Wants(q, e)
  {
    CountsCover(EmptySegment(FileBytes(f)), f.events);
    assert Covers(Recount(f), e);
  }

  lemma {:induction false} NoneWantedIn(disk: Disk, segments: map<Name, Segment>, names: set<Name>, q: Query, e: Event)
    requires EntriesExact(segments, disk) && names <= segments.Keys && names <= disk.Keys
    requires forall n :: n in names ==> !Eligible(q, segments[n])
    requires Wants(q, e)
    ensures Total(disk, names)[e] == 0
    decreases names
  {
    hide Eligible, Wants, Recount;
    if names != {} {
      var n :| n in names;
      if e in disk[n].events {
        ExcludedHoldsNothing(q, disk[n], e);
        assert false;
      }
      NoneWantedIn(disk, segments, names - {n}, q, e);
      TotalRemove(disk, names, n);
    }
  }

  // ---------------------------------------------------------------- newest segments first

  predicate Newer(a: Entry, b: Entry) {
    a.segment.newest > b.segment.newest || (a.segment.newest == b.segment.newest && NameLess(a.name, b.name))
  }

  ghost predicate NewestFirst(entries: seq<Entry>) {
    forall i, j :: 0 <= i < j < |entries| ==> Newer(entries[i], entries[j])
  }

  method InsertNewer(entries: seq<Entry>, e: Entry) returns (longer: seq<Entry>)
    requires NewestFirst(entries) && forall x :: x in entries ==> x.name != e.name
    ensures NewestFirst(longer) && forall x :: x in longer <==> x in entries || x == e
  {
    var i := 0;
    while i < |entries| && Newer(entries[i], e)
      invariant i <= |entries|
      invariant forall j :: 0 <= j < i ==> Newer(entries[j], e)
    {
      i := i + 1;
    }
    assert i < |entries| ==> entries[i] in entries;
    longer := entries[..i] + [e] + entries[i..];
    assert entries == entries[..i] + entries[i..];
    forall j | i <= j < |entries|
      ensures Newer(e, entries[j])
    {
    }
  }

  ghost predicate ListsEligible(segments: map<Name, Segment>, q: Query, entries: seq<Entry>) {
    && NewestFirst(entries)
    && (forall e :: e in entries ==> e.name in segments && segments[e.name] == e.segment)
    && (forall n :: n in segments && Eligible(q, segments[n]) ==> Entry(n, segments[n]) in entries)
  }

  method EligibleSegments(segments: map<Name, Segment>, q: Query) returns (entries: seq<Entry>)
    ensures ListsEligible(segments, q, entries)
  {
    hide Eligible;
    entries := [];
    var rest := segments.Keys;
    while rest != {}
      invariant rest <= segments.Keys && NewestFirst(entries)
      invariant forall e :: e in entries ==> e.name in segments && e.name !in rest && segments[e.name] == e.segment
      invariant forall n :: n in segments && n !in rest && Eligible(q, segments[n]) ==> Entry(n, segments[n]) in entries
      decreases rest
    {
      var n :| n in rest;
      if Eligible(q, segments[n]) {
        entries := InsertNewer(entries, Entry(n, segments[n]));
      }
      rest := rest - {n};
    }
  }

  // ---------------------------------------------------------------- the bounded list

  /** The best limit + 1 of what has been scanned. */
  function Best(scanned: seq<Event>, q: Query): seq<Event> {
    Keep(Ranked(Wanted(scanned, q)), q.limit + 1)
  }

  /** What the query does with one more event. */
  function Consider(kept: seq<Event>, e: Event, q: Query): seq<Event> {
    if !Wants(q, e) then kept
    else if |kept| == q.limit + 1 && !Below(KeyOf(kept[q.limit]), KeyOf(e)) then kept
    else Keep(InsertRanked(kept, e), q.limit + 1)
  }

  lemma {:induction false} ConsiderKeepsTheBest(scanned: seq<Event>, e: Event, q: Query)
    ensures Consider(Best(scanned, q), e, q) == Best(scanned + [e], q)
  {
    hide Below, KeyOf, Wants, InsertRanked;
    assert (scanned + [e])[..|scanned|] == scanned;
    var ranked := Ranked(Wanted(scanned, q));
    RankedIsSorted(Wanted(scanned, q));
    if !Wants(q, e) {
      assert Wanted(scanned + [e], q) == Wanted(scanned, q) + [] == Wanted(scanned, q);
    } else {
      assert Wanted(scanned + [e], q) == Wanted(scanned, q) + [e];
      assert (Wanted(scanned, q) + [e])[..|Wanted(scanned, q)|] == Wanted(scanned, q);
      assert Ranked(Wanted(scanned + [e], q)) == InsertRanked(ranked, e);
      InsertBounded(ranked, e, q.limit + 1);
      if |ranked| >= q.limit + 1 && !Below(KeyOf(ranked[q.limit]), KeyOf(e)) {
        InsertBeyond(ranked, e, q.limit + 1);
      }
    }
  }

  /** Once limit + 1 events are held, events older than the last of them cannot matter. */
  lemma {:induction false} OlderCannotMatter(scanned: seq<Event>, rest: seq<Event>, q: Query)
    requires |Best(scanned, q)| == q.limit + 1
    requires forall e :: e in rest ==> e.timestamp < Best(scanned, q)[q.limit].timestamp
    ensures Best(scanned + rest, q) == Best(scanned, q)
  {
    hide Best, Wants, InsertRanked;
    if rest == [] {
      assert scanned + rest == scanned;
    } else {
      var init, last := rest[..|rest| - 1], rest[|rest| - 1];
      assert last in rest && forall e :: e in init ==> e in rest;
      OlderCannotMatter(scanned, init, q);
      ConsiderKeepsTheBest(scanned + init, last, q);
      assert scanned + init + [last] == scanned + rest;
    }
  }

  method ScanEvents(events: seq<Event>, kept: seq<Event>, q: Query, ghost scanned: seq<Event>)
    returns (best: seq<Event>)
    requires kept == Best(scanned, q)
    ensures best == Best(scanned + events, q)
  {
    hide Best, Wants, InsertRanked;
    best := kept;
    assert scanned + events[..0] == scanned;
    for i := 0 to |events|
      invariant best == Best(scanned + events[..i], q)
    {
      var e := events[i];
      ConsiderKeepsTheBest(scanned + events[..i], e, q);
      assert scanned + events[..i] + [e] == scanned + events[..i + 1];
      if Wants(q, e) && !(|best| == q.limit + 1 && !Below(KeyOf(best[q.limit]), KeyOf(e))) {
        best := InsertRanked(best, e);
        if |best| > q.limit + 1 {
          best := best[..q.limit + 1];
        }
      }
    }
    assert events[..|events|] == events;
  }

  // ---------------------------------------------------------------- the query

  lemma {:induction false} ContentsSplit(disk: Disk, names: seq<Name>, i: nat)
    requires i <= |names| && NameSet(names) <= disk.Keys
    ensures NameSet(names[..i]) <= disk.Keys && NameSet(names[i..]) <= disk.Keys
    ensures Contents(disk, names) == Contents(disk, names[..i]) + Contents(disk, names[i..])
  {
    if i == |names| {
      assert names[..i] == names;
    } else {
      var rest, last, tail := names[..|names| - 1], names[|names| - 1], names[i..];
      assert last in names;
      assert NameSet(rest) <= NameSet(names) && NameSet(tail) <= NameSet(names);
      ContentsSplit(disk, rest, i);
      assert rest[..i] == names[..i];
      assert tail[..|tail| - 1] == rest[i..] && tail[|tail| - 1] == last;
      assert Contents(disk, tail) == Contents(disk, rest[i..]) + disk[last].events;
      assert Contents(disk, names) == Contents(disk, rest) + disk[last].events;
    }
  }

  lemma {:induction false} FromSomeFile(disk: Disk, names: seq<Name>, e: Event)
    requires NameSet(names) <= disk.Keys && e in Contents(disk, names)
    ensures exists i :: 0 <= i < |names| && names[i] in disk && e in disk[names[i]].events
  {
    var rest, last := names[..|names| - 1], names[|names| - 1];
    assert last in NameSet(names) && NameSet(rest) <= NameSet(names);
    if e in disk[last].events {
      assert names[|names| - 1] == last;
    } else {
      FromSomeFile(disk, rest, e);
      var i :| 0 <= i < |rest| && rest[i] in disk && e in disk[rest[i]].events;
      assert names[i] == rest[i];
    }
  }

  lemma {:induction false} NextFile(disk: Disk, names: seq<Name>, i: nat)
    requires i < |names| && NameSet(names) <= disk.Keys
    ensures NameSet(names[..i]) <= disk.Keys && NameSet(names[..i + 1]) <= disk.Keys && names[i] in disk
    ensures Contents(disk, names[..i + 1]) == Contents(disk, names[..i]) + disk[names[i]].events
  {
    assert names[i] in NameSet(names);
    assert NameSet(names[..i]) <= NameSet(names) && NameSet(names[..i + 1]) <= NameSet(names);
    assert names[..i + 1][..i] == names[..i];
  }

  lemma {:induction false} ListedNames(disk: Disk, segments: map<Name, Segment>, q: Query, entries: seq<Entry>)
    requires EntriesExact(segments, disk) && ListsEligible(segments, q, entries)
    ensures NameSet(NamesOf(entries)) <= segments.Keys && NameSet(NamesOf(entries)) <= disk.Keys
    ensures DistinctNames(NamesOf(entries))
    ensures forall n :: n in segments && n !in NameSet(NamesOf(entries)) ==> !Eligible(q, segments[n])
  {
    hide Eligible, Recount;
    var names := NamesOf(entries);
    forall n | n in NameSet(names)
      ensures n in segments
    {
      var i :| 0 <= i < |names| && names[i] == n;
      assert entries[i] in entries;
    }
    forall n | n in segments && Eligible(q, segments[n])
      ensures n in NameSet(names)
    {
      var i :| 0 <= i < |entries| && entries[i] == Entry(n, segments[n]);
      assert names[i] == n;
    }
    forall i, j | 0 <= i < j < |names|
      ensures names[i] != names[j]
    {
      assert entries[i] in entries && entries[j] in entries && Newer(entries[i], entries[j]);
    }
  }

  /** The early stop: no later file holds an event that could still enter the page. */
  lemma {:induction false} StopIsSound(disk: Disk, segments: map<Name, Segment>, q: Query, entries: seq<Entry>, i: nat,
      scanned: seq<Event>)
    requires EntriesExact(segments, disk) && ListsEligible(segments, q, entries) && i < |entries|
    requires NameSet(NamesOf(entries)[i..]) <= disk.Keys
    requires |Best(scanned, q)| == q.limit + 1 && entries[i].segment.newest < Best(scanned, q)[q.limit].timestamp
    ensures Best(scanned + Contents(disk, NamesOf(entries)[i..]), q) == Best(scanned, q)
  {
    hide Best, Eligible, Recount;
    var names := NamesOf(entries);
    forall e | e in Contents(disk, names[i..])
      ensures e.timestamp < Best(scanned, q)[q.limit].timestamp
    {
      FromSomeFile(disk, names[i..], e);
      var k :| 0 <= k < |names[i..]| && names[i..][k] in disk && e in disk[names[i..][k]].events;
      var later := entries[i + k];
      assert later in entries && later.name == names[i..][k];
      NotNewer(disk[later.name], e);
      assert k == 0 || Newer(entries[i], later);
    }
    OlderCannotMatter(scanned, Contents(disk, names[i..]), q);
  }

  lemma {:induction false} NotNewer(f: File, e: Event)
    requires e in f.events
    ensures e.timestamp <= Recount(f).newest
  {
    CountsCover(EmptySegment(FileBytes(f)), f.events);
  }

  /** The scan of all eligible files in newest-first order, after the in-memory events. */
  method ScanSegments(disk: Disk, segments: map<Name, Segment>, fallback: seq<Event>, q: Query, entries: seq<Entry>)
    returns (best: seq<Event>)
    requires EntriesExact(segments, disk) && ListsEligible(segments, q, entries)
    requires NameSet(NamesOf(entries)) <= disk.Keys
    ensures best == Best(fallback + Contents(disk, NamesOf(entries)), q)
  {
    hide Best, Eligible, Recount, ListsEligible, EntriesExact, Wanted;
    ghost var names := NamesOf(entries);
    assert [] + fallback == fallback;
    NothingScanned(q);
    best := ScanEvents(fallback, [], q, []);
    assert fallback + Contents(disk, names[..0]) == fallback;
    for i := 0 to |entries|
      invariant NameSet(names[..i]) <= disk.Keys
      invariant best == Best(fallback + Contents(disk, names[..i]), q)
    {
      ContentsSplit(disk, names, i);
      NextFile(disk, names, i);
      if |best| == q.limit + 1 && entries[i].segment.newest < best[q.limit].timestamp {
        StopIsSound(disk, segments, q, entries, i, fallback + Contents(disk, names[..i]));
        assert fallback + Contents(disk, names[..i]) + Contents(disk, names[i..]) == fallback + Contents(disk, names);
        return;
      }
      best := ScanEvents(disk[entries[i].name].events, best, q, fallback + Contents(disk, names[..i]));
      assert fallback + Contents(disk, names[..i]) + disk[names[i]].events == fallback + Contents(disk, names[..i + 1]);
    }
    assert names[..|entries|] == names;
  }

  lemma {:induction false} NothingScanned(q: Query)
    ensures Best([], q) == []
  {
  }

  /** The scan saw every wanted event of the store, however `all` lists them. */
  lemma {:induction false} ScanSeesAllWanted(disk: Disk, segments: map<Name, Segment>, fallback: seq<Event>, q: Query,
    entries: seq<Entry>, all: seq<Event>)
    requires EntriesExact(segments, disk) && ListsEligible(segments, q, entries)
    requires segments.Keys <= disk.Keys && NameSet(NamesOf(entries)) <= disk.Keys
    requires multiset(all) == multiset(fallback) + Total(disk, segments.Keys)
    ensures multiset(Wanted(all, q)) == multiset(Wanted(fallback + Contents(disk, NamesOf(entries)), q))
  {
    hide Eligible, Recount, Wants, ListsEligible, EntriesExact, Total, Contents, Wanted, DistinctNames;
    var names := NameSet(NamesOf(entries));
    var others := segments.Keys - names;
    ListedNames(disk, segments, q, entries);
    TotalUnion(disk, names, others);
    assert names + others == segments.Keys;
    ContentsAreTotal(disk, NamesOf(entries));
    var scanned := fallback + Contents(disk, NamesOf(entries));
    forall e
      ensures multiset(Wanted(all, q))[e] == multiset(Wanted(scanned, q))[e]
    {
      WantedCount(all, q, e);
      WantedCount(scanned, q, e);
      if Wants(q, e) {
        NoneWantedIn(disk, segments, others, q, e);
      }
    }
  }

  /**
   Answers one query. `all` lists the stored events, on disk and in memory, in any order: with
   distinct keys the page is the one that ranking all of them would give.
   */
  method ReadPage(disk: Disk, segments: map<Name, Segment>, fallback: seq<Event>, q: Query, ghost all: seq<Event>)
    returns (page: Page)
    requires EntriesExact(segments, disk) && q.limit > 0
    requires segments.Keys <= disk.Keys && multiset(all) == multiset(fallback) + Total(disk, segments.Keys)
    ensures DistinctKeys(Wanted(all, q)) ==> page == PageOf(all, q)
    ensures Descending(page.events) && |page.events| == |Keep(Wanted(all, q), q.limit)|
    ensures page.next.Some? <==> |Wanted(all, q)| > q.limit
    ensures forall e :: e in page.events ==> e in all && Wants(q, e)
  {
    hide Eligible, Recount, Wants, ListsEligible, EntriesExact, Wanted, Ranked, KeyOf, DistinctKeys, Total;
    var entries := EligibleSegments(segments, q);
    ListedNames(disk, segments, q, entries);
    var best := ScanSegments(disk, segments, fallback, q, entries);
    ScanSeesAllWanted(disk, segments, fallback, q, entries, all);
    ghost var scanned := fallback + Contents(disk, NamesOf(entries));
    PageHolds(scanned, all, q);
    page := Page(Keep(best, q.limit), if |best| > q.limit then Some(KeyOf(best[q.limit - 1])) else None);
    BestGivesPage(scanned, q);
    if DistinctKeys(Wanted(all, q)) {
      PageIgnoresScanOrder(all, scanned, q);
    }
  }

  lemma {:induction false} BestGivesPage(scanned: seq<Event>, q: Query)
    requires q.limit > 0
    ensures var best := Best(scanned, q);
      PageOf(scanned, q) == Page(Keep(best, q.limit), if |best| > q.limit then Some(KeyOf(best[q.limit - 1])) else None)
  {
    hide Ranked, Wanted, KeyOf;
  }

  lemma {:induction false} PageHolds(scanned: seq<Event>, all: seq<Event>, q: Query)
    requires q.limit > 0 && multiset(Wanted(all, q)) == multiset(Wanted(scanned, q))
    ensures var page := PageOf(scanned, q);
      && Descending(page.events) && |page.events| == |Keep(Wanted(all, q), q.limit)|
      && (page.next.Some? <==> |Wanted(all, q)| > q.limit)
      && forall e :: e in page.events ==> e in all && Wants(q, e)
  {
    hide Ranked, Wanted, KeyOf, Wants, Below;
    var wanted, ranked := Wanted(all, q), Ranked(Wanted(scanned, q));
    RankedIsSorted(Wanted(scanned, q));
    assert |wanted| == |multiset(wanted)| == |ranked|;
    forall e | e in PageOf(scanned, q).events
      ensures e in all && Wants(q, e)
    {
      assert e in multiset(ranked);
      WantedCount(all, q, e);
    }
  }
}
