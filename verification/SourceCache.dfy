/**
 The cache of downloaded sources between two chunks of a job: its byte count, and the eviction of the
 least recently used entries before a download.
 */
module SourceCaches {
  import opened Wrappers

  datatype Key = Key(id: nat)
  datatype Entry = Entry(bytes: nat, lastUsedAt: int, job: nat)

  ghost function Total(cache: map<Key, Entry>, keys: set<Key>): nat
    requires keys <= cache.Keys
  {
    if keys == {} then 0
    else
      var k :| k in keys;
      cache[k].bytes + Total(cache, keys - {k})
  }

  lemma {:induction false} TotalWithout(cache: map<Key, Entry>, keys: set<Key>, key: Key)
    requires keys <= cache.Keys && key in keys
    ensures Total(cache, keys) == cache[key].bytes + Total(cache, keys - {key})
    decreases keys
  {
    var k :| k in keys && Total(cache, keys) == cache[k].bytes + Total(cache, keys - {k});
    if k != key {
      TotalWithout(cache, keys - {k}, key);
      TotalWithout(cache, keys - {key}, k);
      assert keys - {k} - {key} == keys - {key} - {k};
    }
  }

  lemma {:induction false} TotalFrame(a: map<Key, Entry>, b: map<Key, Entry>, keys: set<Key>)
    requires keys <= a.Keys && keys <= b.Keys && forall k :: k in keys ==> a[k].bytes == b[k].bytes
    ensures Total(a, keys) == Total(b, keys)
    decreases keys
  {
    if keys != {} {
      var k :| k in keys;
      TotalFrame(a, b, keys - {k});
      TotalWithout(a, keys, k);
      TotalWithout(b, keys, k);
    }
  }

  ghost predicate ByUse(cache: map<Key, Entry>, order: seq<Key>) {
    && (forall k :: k in order <==> k in cache)
    && (forall i, j :: 0 <= i < j < |order| ==> order[i] != order[j])
    && (forall i, j :: 0 <= i < j < |order| && order[i] in cache && order[j] in cache ==>
          cache[order[i]].lastUsedAt <= cache[order[j]].lastUsedAt)
  }

  /** One more used entry, after the ones that were used no later. */
  method InsertByUse(used: seq<(Key, int)>, key: Key, at: int) returns (longer: seq<(Key, int)>)
    requires forall i, j :: 0 <= i < j < |used| ==> used[i].1 <= used[j].1
    ensures forall i, j :: 0 <= i < j < |longer| ==> longer[i].1 <= longer[j].1
    ensures exists i :: 0 <= i <= |used| && longer == used[..i] + [(key, at)] + used[i..]
  {
    var i := 0;
    while i < |used| && used[i].1 <= at
      invariant i <= |used| && forall j :: 0 <= j < i ==> used[j].1 <= at
    {
      i := i + 1;
    }
    longer := used[..i] + [(key, at)] + used[i..];
    assert used == used[..i] + used[i..];
  }

  ghost predicate Listed(used: seq<(Key, int)>, k: Key) {
    exists i :: 0 <= i < |used| && used[i].0 == k
  }

  ghost predicate Lists(cache: map<Key, Entry>, keys: set<Key>, used: seq<(Key, int)>) {
    && (forall k :: k in keys <==> Listed(used, k))
    && (forall i :: 0 <= i < |used| ==> used[i].0 in cache && used[i].1 == cache[used[i].0].lastUsedAt)
    && (forall i, j :: 0 <= i < j < |used| ==> used[i].0 != used[j].0)
  }

  lemma {:induction false} ListedOneMore(used: seq<(Key, int)>, i: nat, x: (Key, int), k: Key)
    requires i <= |used|
    ensures Listed(used[..i] + [x] + used[i..], k) <==> Listed(used, k) || k == x.0
  {
    var longer := used[..i] + [x] + used[i..];
    if Listed(used, k) {
      var j :| 0 <= j < |used| && used[j].0 == k;
      assert longer[if j < i then j else j + 1] == used[j];
    }
    assert longer[i] == x;
    if Listed(longer, k) && k != x.0 {
      var j :| 0 <= j < |longer| && longer[j].0 == k;
      assert longer[j] == used[if j < i then j else j - 1];
    }
  }

  lemma {:induction false} ListsOneMore(cache: map<Key, Entry>, keys: set<Key>, used: seq<(Key, int)>, i: nat, key: Key,
      longer: seq<(Key, int)>)
    requires Lists(cache, keys, used) && key in cache && key !in keys && i <= |used|
    requires longer == used[..i] + [(key, cache[key].lastUsedAt)] + used[i..]
    ensures Lists(cache, keys + {key}, longer)
  {
    forall j | 0 <= j < |used|
      ensures used[j].0 != key
    {
      assert Listed(used, used[j].0);
    }
    hide Listed;
    forall k
      ensures k in keys + {key} <==> Listed(longer, k)
    {
      ListedOneMore(used, i, (key, cache[key].lastUsedAt), k);
    }
  }

  function KeysOf(used: seq<(Key, int)>): (keys: seq<Key>)
    ensures |keys| == |used| && forall i :: 0 <= i < |used| ==> keys[i] == used[i].0
  {
    seq(|used|, i requires 0 <= i < |used| => used[i].0)
  }

  /** The keys, least recently used first. */
  method LeastRecentlyUsed(cache: map<Key, Entry>) returns (order: seq<Key>)
    ensures ByUse(cache, order)
  {
    var used: seq<(Key, int)> := [];
    var rest := cache.Keys;
    while rest != {}
      invariant rest <= cache.Keys && Lists(cache, cache.Keys - rest, used)
      invariant forall i, j :: 0 <= i < j < |used| ==> used[i].1 <= used[j].1
      decreases rest
    {
      hide Lists;
      var k :| k in rest;
      var longer := InsertByUse(used, k, cache[k].lastUsedAt);
      ghost var i :| 0 <= i <= |used| && longer == used[..i] + [(k, cache[k].lastUsedAt)] + used[i..];
      ListsOneMore(cache, cache.Keys - rest, used, i, k, longer);
      assert cache.Keys - (rest - {k}) == cache.Keys - rest + {k};
      used, rest := longer, rest - {k};
    }
    order := KeysOf(used);
    ListedByUse(cache, used);
  }

  lemma {:induction false} ListedByUse(cache: map<Key, Entry>, used: seq<(Key, int)>)
    requires Lists(cache, cache.Keys - {}, used) && forall i, j :: 0 <= i < j < |used| ==> used[i].1 <= used[j].1
    ensures ByUse(cache, KeysOf(used))
  {
    var order := KeysOf(used);
    assert cache.Keys - {} == cache.Keys;
    forall k
      ensures k in order <==> k in cache
    {
      if k in order {
        var i :| 0 <= i < |order| && order[i] == k;
        assert Listed(used, used[i].0);
      }
      if k in cache {
        assert k in cache.Keys - {} && Listed(used, k);
        var i :| 0 <= i < |used| && used[i].0 == k;
        assert order[i] == k;
      }
    }
  }

  /** What is left after dropping the keys of a list. */
  function Without(cache: map<Key, Entry>, dropped: seq<Key>): map<Key, Entry> {
    map k | k in cache && k !in dropped :: cache[k]
  }

  /** The shortest prefix of the listing whose eviction makes room. */
  ghost predicate MakesRoom(cache: map<Key, Entry>, order: seq<Key>, n: nat, reserve: nat, budget: nat)
    requires n <= |order|
  {
    && Bytes(Without(cache, order[..n])) + reserve <= budget
    && forall m :: 0 <= m < n ==> Bytes(Without(cache, order[..m])) + reserve > budget
  }

  ghost function Bytes(cache: map<Key, Entry>): nat {
    Total(cache, cache.Keys)
  }

  lemma {:induction false} DropOne(cache: map<Key, Entry>, key: Key)
    requires key in cache
    ensures Bytes(cache) == Bytes(cache - {key}) + cache[key].bytes
  {
    TotalWithout(cache, cache.Keys, key);
    TotalFrame(cache, cache - {key}, cache.Keys - {key});
    assert (cache - {key}).Keys == cache.Keys - {key};
  }

  lemma {:induction false} AddOne(cache: map<Key, Entry>, key: Key, e: Entry)
    requires key !in cache
    ensures Bytes(cache[key := e]) == Bytes(cache) + e.bytes
  {
    DropOne(cache[key := e], key);
    assert cache[key := e] - {key} == cache;
  }

  datatype Error = AudioTooLarge | DownloadFailed

  class SourceCache {
    const budget: nat
    var cache: map<Key, Entry>
    var bytes: nat

    ghost predicate Valid()
      reads this
    {
      bytes == Bytes(cache)
    }

    constructor (budget: nat)
      ensures Valid() && cache == map[] && this.budget == budget
    {
      this.budget, cache, bytes := budget, map[], 0;
    }

    /** Dropping a key that is already gone does nothing. */
    method Drop(key: Key)
      requires Valid()
      modifies this
      ensures Valid() && cache == old(cache) - {key} && bytes <= old(bytes)
    {
      if key !in cache {
        assert cache == cache - {key};
        return;
      }
      DropOne(cache, key);
      bytes := bytes - cache[key].bytes;
      cache := cache - {key};
    }

    /** Evicts the least recently used entries, and no more of them than needed. */
    method MakeRoom(reserve: nat) returns (ghost order: seq<Key>, ghost n: nat)
      requires Valid() && reserve <= budget
      modifies this
      ensures Valid() && bytes + reserve <= budget
      ensures ByUse(old(cache), order) && n <= |order|
      ensures cache == Without(old(cache), order[..n]) && MakesRoom(old(cache), order, n, reserve, budget)
    {
      hide Total;
      var keys := LeastRecentlyUsed(cache);
      var i := 0;
      assert cache == Without(cache, keys[..0]);
      while i < |keys| && bytes + reserve > budget
        invariant i <= |keys| && Valid() && cache == Without(old(cache), keys[..i])
        invariant forall m :: 0 <= m < i ==> Bytes(Without(old(cache), keys[..m])) + reserve > budget
      {
        Drop(keys[i]);
        assert keys[..i + 1] == keys[..i] + [keys[i]];
        assert cache == Without(old(cache), keys[..i + 1]);
        i := i + 1;
      }
      if i == |keys| {
        assert keys[..i] == keys;
        assert cache == map[];
        EmptyHasNoBytes();
      }
      return keys, i;
    }

    /**
     The cached source, or a download for which room has been made first. Entries of other jobs may
     expire during the download; the budget holds as long as it delivers no more than was reserved.
     */
    method SourceFor(key: Key, job: nat, reserve: nat, onDisk: bool, now: int) returns (r: Result<Entry, Error>)
      requires Valid()
      modifies this
      ensures Valid()
      ensures r.Success? ==> key in cache && cache[key] == r.value
      ensures key in old(cache) && onDisk ==> r.Success? && bytes == old(bytes) && cache.Keys == old(cache).Keys
      ensures !(key in old(cache) && onDisk) && reserve > budget ==> r == Failure(AudioTooLarge)
      ensures !(key in old(cache) && onDisk) && r.Success? && r.value.bytes <= reserve ==> bytes <= budget
    {
      if key in cache && onDisk {
        var used := cache[key].(lastUsedAt := now);
        Touch(cache, key, used);
        cache := cache[key := used];
        return Success(used);
      }
      Drop(key);
      if reserve > budget {
        return Failure(AudioTooLarge);
      }
      var _, _ := MakeRoom(reserve);
      Expire(job);
      var delivered: bool, size: nat := *, *;
      if !delivered {
        return Failure(DownloadFailed);
      }
      var entry := Entry(size, now, job);
      AddOne(cache, key, entry);
      cache, bytes := cache[key := entry], bytes + size;
      return Success(entry);
    }

    /** The timer that drops entries of other jobs, as many as it likes. */
    method Expire(job: nat)
      requires Valid()
      modifies this
      ensures Valid() && bytes <= old(bytes) && cache.Keys <= old(cache).Keys
      ensures forall k :: k in old(cache) && old(cache)[k].job == job ==> k in cache && cache[k] == old(cache)[k]
    {
      var rest := cache.Keys;
      while rest != {}
        invariant Valid() && bytes <= old(bytes) && cache.Keys <= old(cache).Keys
        invariant forall k :: k in cache ==> cache[k] == old(cache)[k]
        invariant forall k :: k in old(cache) && old(cache)[k].job == job ==> k in cache
        decreases rest
      {
        var k :| k in rest;
        var expired: bool := *;
        if k in cache && cache[k].job != job && expired {
          DropOne(cache, k);
          Drop(k);
        }
        rest := rest - {k};
      }
    }
  }

  lemma {:induction false} EmptyHasNoBytes()
    ensures Bytes(map[]) == 0
  {
  }

  lemma {:induction false} Touch(cache: map<Key, Entry>, key: Key, used: Entry)
    requires key in cache && used.bytes == cache[key].bytes
    ensures Bytes(cache[key := used]) == Bytes(cache)
  {
    DropOne(cache, key);
    DropOne(cache[key := used], key);
    assert cache[key := used] - {key} == cache - {key};
  }
}
