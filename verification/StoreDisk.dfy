/**
 The segment files on disk. A file is doomed once the header of another file on disk replaces
 it; the live files are the others, and recovery keeps exactly their events.
 */
module StoreDisk {
  import opened StoreTypes

  type Disk = map<Name, File>

  ghost predicate Replaced(disk: Disk, name: Name) {
    exists f :: f in disk && name in disk[f].supersedes
  }

  ghost function Doomed(disk: Disk): set<Name> {
    set n | n in disk && Replaced(disk, n)
  }

  ghost function Live(disk: Disk): set<Name> {
    set n | n in disk && !Replaced(disk, n)
  }

  /** A file that still replaces something on disk is not itself replaced. */
  ghost predicate NoChains(disk: Disk) {
    forall f, r :: f in disk && r in disk[f].supersedes && r in disk ==> !Replaced(disk, f)
  }

  ghost predicate Unmentioned(disk: Disk, name: Name) {
    name !in disk && !Replaced(disk, name)
  }

  /** All events of the named files, counted with multiplicity. */
  ghost function Total(disk: Disk, names: set<Name>): multiset<Event>
    requires names <= disk.Keys
  {
    if names == {} then multiset{}
    else
      var n :| n in names;
      Total(disk, names - {n}) + multiset(disk[n].events)
  }

  ghost function LiveEvents(disk: Disk): multiset<Event> {
    Total(disk, Live(disk))
  }

  lemma {:induction false} TotalRemove(disk: Disk, names: set<Name>, name: Name)
    requires names <= disk.Keys && name in names
    ensures Total(disk, names) == Total(disk, names - {name}) + multiset(disk[name].events)
    decreases names
  {
    var n :| n in names && Total(disk, names) == Total(disk, names - {n}) + multiset(disk[n].events);
    if n != name {
      TotalRemove(disk, names - {n}, name);
      TotalRemove(disk, names - {name}, n);
      assert names - {n} - {name} == names - {name} - {n};
    }
  }

  lemma {:induction false} TotalAdd(disk: Disk, names: set<Name>, name: Name)
    requires names <= disk.Keys && name in disk && name !in names
    ensures Total(disk, names + {name}) == Total(disk, names) + multiset(disk[name].events)
  {
    TotalRemove(disk, names + {name}, name);
    assert names + {name} - {name} == names;
  }

  lemma {:induction false} TotalFrame(disk: Disk, other: Disk, names: set<Name>)
    requires names <= disk.Keys && names <= other.Keys
    requires forall n :: n in names ==> disk[n] == other[n]
    ensures Total(disk, names) == Total(other, names)
    decreases names
  {
    if names != {} {
      var n :| n in names;
      TotalFrame(disk, other, names - {n});
      TotalRemove(disk, names, n);
      TotalRemove(other, names, n);
    }
  }

  function NameSet(names: seq<Name>): set<Name> {
    set n | n in names
  }

  ghost predicate DistinctNames(names: seq<Name>) {
    forall i, j :: 0 <= i < j < |names| ==> names[i] != names[j]
  }

  /** The records of the named files, file after file. */
  ghost function Contents(disk: Disk, names: seq<Name>): seq<Event>
    requires NameSet(names) <= disk.Keys
  {
    if names == [] then []
    else
      var last := names[|names| - 1];
      assert last in NameSet(names);
      assert NameSet(names[..|names| - 1]) <= NameSet(names);
      Contents(disk, names[..|names| - 1]) + disk[last].events
  }

  lemma {:induction false} ContentsAreTotal(disk: Disk, names: seq<Name>)
    requires NameSet(names) <= disk.Keys && DistinctNames(names)
    ensures multiset(Contents(disk, names)) == Total(disk, NameSet(names))
  {
    if names != [] {
      var rest, last := names[..|names| - 1], names[|names| - 1];
      assert last in names && last !in rest;
      assert NameSet(names) == NameSet(rest) + {last};
      ContentsAreTotal(disk, rest);
      TotalAdd(disk, NameSet(rest), last);
    }
  }

  // ---------------------------------------------------------------- the four changes a disk can undergo

  /** A new segment without a header adds its events and dooms nothing. */
  lemma {:induction false} AddSegment(disk: Disk, name: Name, events: seq<Event>)
    requires NoChains(disk) && Unmentioned(disk, name)
    ensures var next := disk[name := File([], events)];
      NoChains(next) && Doomed(next) == Doomed(disk) && Live(next) == Live(disk) + {name}
      && LiveEvents(next) == LiveEvents(disk) + multiset(events)
  {
    var next := disk[name := File([], events)];
    forall n
      ensures Replaced(next, n) <==> Replaced(disk, n)
    {
      if f :| f in disk && n in disk[f].supersedes {
        assert f in next && n in next[f].supersedes;
      }
    }
    assert Live(next) == Live(disk) + {name};
    TotalFrame(disk, next, Live(disk));
    TotalAdd(next, Live(disk), name);
  }

  /** A replacement that carries exactly its sources' events dooms them and changes no live event. */
  lemma {:induction false} AddReplacement(disk: Disk, name: Name, sources: seq<Name>)
    requires NoChains(disk) && Doomed(disk) == {} && Unmentioned(disk, name)
    requires DistinctNames(sources) && NameSet(sources) <= disk.Keys
    ensures var next := disk[name := File(sources, Contents(disk, sources))];
      NoChains(next) && Doomed(next) == NameSet(sources) && Live(next) == disk.Keys - NameSet(sources) + {name}
      && LiveEvents(next) == LiveEvents(disk)
  {
    var next := disk[name := File(sources, Contents(disk, sources))];
    var kept := disk.Keys - NameSet(sources);
    forall n
      ensures Replaced(next, n) <==> Replaced(disk, n) || n in sources
    {
      if f :| f in disk && n in disk[f].supersedes {
        assert f in next && n in next[f].supersedes;
      }
      if n in sources {
        assert name in next && n in next[name].supersedes;
      }
    }
    assert forall n :: n in disk ==> !Replaced(disk, n) by {
      assert forall n :: n in disk && Replaced(disk, n) ==> n in Doomed(disk);
    }
    assert Live(disk) == kept + NameSet(sources);
    assert Doomed(next) == NameSet(sources) && Live(next) == kept + {name};
    TotalFrame(disk, next, kept);
    TotalAdd(next, kept, name);
    ContentsAreTotal(disk, sources);
    TotalUnion(disk, kept, NameSet(sources));
  }

  lemma {:induction false} TotalUnion(disk: Disk, a: set<Name>, b: set<Name>)
    requires a <= disk.Keys && b <= disk.Keys && a !! b
    ensures Total(disk, a + b) == Total(disk, a) + Total(disk, b)
    decreases b
  {
    if b == {} {
      assert a + b == a;
    } else {
      var n :| n in b;
      TotalUnion(disk, a, b - {n});
      TotalRemove(disk, b, n);
      TotalRemove(disk, a + b, n);
      assert a + b - {n} == a + (b - {n});
    }
  }

  /** Unlinking a doomed file neither loses a live event nor brings a doomed file back. */
  lemma {:induction false} RemoveDoomed(disk: Disk, name: Name)
    requires NoChains(disk) && name in Doomed(disk)
    ensures NoChains(disk - {name}) && Doomed(disk - {name}) == Doomed(disk) - {name}
    ensures Live(disk - {name}) == Live(disk) && LiveEvents(disk - {name}) == LiveEvents(disk)
  {
    var next := disk - {name};
    forall n | n in next
      ensures Replaced(next, n) <==> Replaced(disk, n)
    {
      if f :| f in disk && n in disk[f].supersedes {
        assert f != name;
        assert f in next && n in next[f].supersedes;
      }
    }
    forall f, r | f in next && r in next[f].supersedes && r in next
      ensures !Replaced(next, f)
    {
      assert r in disk[f].supersedes;
    }
    assert Live(next) == Live(disk);
    TotalFrame(disk, next, Live(disk));
  }

  lemma {:induction false} FewerReplace(disk: Disk, name: Name, n: Name)
    ensures Replaced(disk - {name}, n) ==> Replaced(disk, n)
  {
    if f :| f in disk - {name} && n in (disk - {name})[f].supersedes {
      assert f in disk && n in disk[f].supersedes;
    }
  }

  /** Unlinking a live file while nothing is doomed removes its events and nothing else. */
  lemma {:induction false} RemoveLive(disk: Disk, name: Name)
    requires Doomed(disk) == {} && name in disk
    ensures NoChains(disk - {name}) && Doomed(disk - {name}) == {} && Live(disk - {name}) == Live(disk) - {name}
    ensures LiveEvents(disk) == LiveEvents(disk - {name}) + multiset(disk[name].events)
  {
    var next := disk - {name};
    assert forall n :: n in disk ==> !Replaced(disk, n) by {
      assert forall n :: n in disk && Replaced(disk, n) ==> n in Doomed(disk);
    }
    forall n | n in next
      ensures !Replaced(next, n)
    {
      FewerReplace(disk, name, n);
    }
    assert Live(next) == Live(disk) - {name};
    TotalRemove(disk, Live(disk), name);
    TotalFrame(disk, next, Live(next));
  }
}
