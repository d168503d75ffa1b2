/**
 Cursor pagination over the index: the segment metadata only excludes files, the scan keeps the
 best limit + 1 events and stops early, and following the cursors lists every matching event once.
 */
module Pagination {
  import opened Wrappers
  import opened StoreTypes
  import opened StoreDisk
  import opened StoreMaintenance

  /** A position in a listing; events are ordered by timestamp, then identifier. */
  datatype Cursor = Cursor(timestamp: int, id: nat)

  predicate Below(a: Cursor, b: Cursor) {
    a.timestamp < b.timestamp || (a.timestamp == b.timestamp && a.id < b.id)
  }

  function KeyOf(e: Event): Cursor {
    Cursor(e.timestamp, e.id)
  }

  datatype Filter = Filter(
    from: Option<int>,
    to: Option<int>,
    level: Option<Level>,
    category: Option<Category>,
    code: Option<nat>,
    traceId: Option<nat>,
    callId: Option<nat>,
    instanceId: Option<nat>
  )

  predicate Matches(e: Event, filter: Filter) {
    && (filter.from.Some? ==> e.timestamp >= filter.from.value)
    && (filter.to.Some? ==> e.timestamp <= filter.to.value)
    && (filter.level.Some? ==> e.level == filter.level.value)
    && (filter.category.Some? ==> e.category == filter.category.value)
    && (filter.code.Some? ==> e.code == filter.code.value)
    && (filter.traceId.Some? ==> e.traceId == filter.traceId)
    && (filter.callId.Some? ==> e.callId == filter.callId)
    && (filter.instanceId.Some? ==> e.instanceId == filter.instanceId)
  }

  /** One request: `cutoff` is the start of the retention period by the store's clock. */
  datatype Query = Query(filter: Filter, cutoff: int, cursor: Option<Cursor>, limit: nat)

  predicate Wants(q: Query, e: Event) {
    e.timestamp >= q.cutoff && Matches(e, q.filter) && (q.cursor.Some? ==> Below(KeyOf(e), q.cursor.value))
  }

  function Wanted(all: seq<Event>, q: Query): seq<Event> {
    if all == [] then []
    else Wanted(all[..|all| - 1], q) + if Wants(q, all[|all| - 1]) then [all[|all| - 1]] else []
  }

  // ---------------------------------------------------------------- ranking

  /** Where a stable descending sort puts one more event at the end of a sorted list. */
  function Position(list: seq<Event>, e: Event): (p: nat)
    ensures p <= |list|
  {
    if list == [] || !Below(KeyOf(list[|list| - 1]), KeyOf(e)) then |list| else Position(list[..|list| - 1], e)
  }

  /** Push, then sort. */
  function InsertRanked(list: seq<Event>, e: Event): seq<Event> {
    list[..Position(list, e)] + [e] + list[Position(list, e)..]
  }

  function Ranked(all: seq<Event>): seq<Event> {
    if all == [] then [] else InsertRanked(Ranked(all[..|all| - 1]), all[|all| - 1])
  }

  function Keep(list: seq<Event>, k: nat): seq<Event> {
    if |list| <= k then list else list[..k]
  }

  ghost predicate Descending(list: seq<Event>) {
    forall i, j :: 0 <= i < j < |list| ==> !Below(KeyOf(list[i]), KeyOf(list[j]))
  }

  ghost predicate DistinctKeys(list: seq<Event>) {
    forall i, j :: 0 <= i < j < |list| ==> KeyOf(list[i]) != KeyOf(list[j])
  }

  lemma {:induction false} PositionSplits(list: seq<Event>, e: Event)
    requires Descending(list)
    ensures forall i :: 0 <= i < Position(list, e) ==> !Below(KeyOf(list[i]), KeyOf(e))
    ensures forall i :: Position(list, e) <= i < |list| ==> Below(KeyOf(list[i]), KeyOf(e))
  {
    if list != [] && Below(KeyOf(list[|list| - 1]), KeyOf(e)) {
      PositionSplits(list[..|list| - 1], e);
    }
  }

  lemma {:induction false} PositionIs(list: seq<Event>, e: Event, p: nat)
    requires p <= |list|
    requires forall i :: 0 <= i < p ==> !Below(KeyOf(list[i]), KeyOf(e))
    requires forall i :: p <= i < |list| ==> Below(KeyOf(list[i]), KeyOf(e))
    ensures Position(list, e) == p
  {
    if p < |list| {
      PositionIs(list[..|list| - 1], e, p);
    }
  }

  lemma {:induction false} InsertKeepsOrder(list: seq<Event>, e: Event)
    requires Descending(list)
    ensures Descending(InsertRanked(list, e)) && multiset(InsertRanked(list, e)) == multiset(list) + multiset{e}
    ensures |InsertRanked(list, e)| == |list| + 1
  {
    PositionSplits(list, e);
    var p := Position(list, e);
    assert list == list[..p] + list[p..];
  }

  lemma {:induction false} RankedIsSorted(all: seq<Event>)
    ensures Descending(Ranked(all)) && multiset(Ranked(all)) == multiset(all) && |Ranked(all)| == |all|
  {
    if all != [] {
      var rest, last := all[..|all| - 1], all[|all| - 1];
      RankedIsSorted(rest);
      InsertKeepsOrder(Ranked(rest), last);
      assert all == rest + [last];
    }
  }

  /** An event that does not rank among the first k changes nothing there. */
  lemma {:induction false} InsertBeyond(list: seq<Event>, e: Event, k: nat)
    requires Descending(list) && 0 < k <= |list| && !Below(KeyOf(list[k - 1]), KeyOf(e))
    ensures Keep(InsertRanked(list, e), k) == Keep(list, k)
  {
    PositionSplits(list, e);
    assert Position(list, e) >= k;
  }

  /** Only the first k need to be remembered. */
  lemma {:induction false} InsertBounded(list: seq<Event>, e: Event, k: nat)
    requires Descending(list) && 0 < k
    ensures Keep(InsertRanked(Keep(list, k), e), k) == Keep(InsertRanked(list, e), k)
  {
    PositionSplits(list, e);
    var p, r := Position(list, e), Position(Keep(list, k), e);
    PositionIs(Keep(list, k), e, if p <= k then p else k);
    var short, long := InsertRanked(Keep(list, k), e), InsertRanked(list, e);
    forall i | 0 <= i < k && i < |short|
      ensures short[i] == long[i]
    {
    }
  }

  /** Two listings of the same events with distinct keys in descending order are the same listing. */
  lemma {:induction false} OrderIsUnique(a: seq<Event>, b: seq<Event>)
    requires Descending(a) && Descending(b) && multiset(a) == multiset(b) && DistinctKeys(a)
    ensures a == b
    decreases |a|
  {
    assert |multiset(a)| == |a| && |multiset(b)| == |b|;
    if a != [] {
      hide Descending, DistinctKeys;
      FirstIsSame(a, b);
      Tail(a);
      Tail(b);
      OrderIsUnique(a[1..], b[1..]);
    }
  }

  lemma {:induction false} Tail(a: seq<Event>)
    requires a != []
    ensures a == [a[0]] + a[1..] && multiset(a[1..]) == multiset(a) - multiset{a[0]}
    ensures Descending(a) ==> Descending(a[1..])
    ensures DistinctKeys(a) ==> DistinctKeys(a[1..])
  {
    assert a == [a[0]] + a[1..];
  }

  lemma {:induction false} FirstIsSame(a: seq<Event>, b: seq<Event>)
    requires Descending(a) && Descending(b) && multiset(a) == multiset(b) && DistinctKeys(a)
    requires a != [] && b != []
    ensures a[0] == b[0]
  {
    assert a[0] in multiset(b) && b[0] in multiset(a);
    var i :| 0 <= i < |b| && b[i] == a[0];
    var j :| 0 <= j < |a| && a[j] == b[0];
    assert j == 0 || KeyOf(a[0]) != KeyOf(a[j]);
  }

  lemma {:induction false} DistinctKeysOf(a: seq<Event>, b: seq<Event>)
    requires multiset(a) == multiset(b) && DistinctKeys(a)
    ensures DistinctKeys(b)
  {
    forall i, j | 0 <= i < j < |b|
      ensures KeyOf(b[i]) != KeyOf(b[j])
    {
      assert b[i] in multiset(a) && b[j] in multiset(a);
      var x :| 0 <= x < |a| && a[x] == b[i];
      var y :| 0 <= y < |a| && a[y] == b[j];
      if x == y {
        OccursTwice(b, i, j);
        OccursOnce(a, x);
      }
    }
  }

  lemma {:induction false} OccursTwice(b: seq<Event>, i: nat, j: nat)
    requires i < j < |b| && b[i] == b[j]
    ensures multiset(b)[b[i]] >= 2
  {
    assert b == b[..j] + b[j..];
    assert b[i] in b[..j];
    assert b[j] in b[j..] by {
      assert b[j..][0] == b[j];
    }
  }

  lemma {:induction false} OccursOnce(a: seq<Event>, x: nat)
    requires x < |a| && DistinctKeys(a)
    ensures multiset(a)[a[x]] == 1
  {
    assert a == a[..x] + [a[x]] + a[x + 1..];
    assert a[x] !in a[..x] && a[x] !in a[x + 1..];
  }

  lemma {:induction false} WantedCount(all: seq<Event>, q: Query, e: Event)
    ensures multiset(Wanted(all, q))[e] == if Wants(q, e) then multiset(all)[e] else 0
  {
    if all != [] {
      var rest, last := all[..|all| - 1], all[|all| - 1];
      WantedCount(rest, q, e);
      assert all == rest + [last];
    }
  }

  lemma {:induction false} WantedAppend(a: seq<Event>, b: seq<Event>, q: Query)
    ensures Wanted(a + b, q) == Wanted(a, q) + Wanted(b, q)
  {
    if b == [] {
      assert a + b == a;
    } else {
      assert (a + b)[..|a + b| - 1] == a + b[..|b| - 1];
      WantedAppend(a, b[..|b| - 1], q);
    }
  }

  // ---------------------------------------------------------------- the page a query must return

  datatype Page = Page(events: seq<Event>, next: Option<Cursor>)

  function CursorAfter(ranked: seq<Event>, n: nat): Option<Cursor>
    requires n > 0
  {
    if |ranked| > n then Some(KeyOf(ranked[n - 1])) else None
  }

  /** The first `limit` wanted events in descending order, and a cursor exactly if there are more. */
  function PageOf(all: seq<Event>, q: Query): Page
    requires q.limit > 0
  {
    var ranked := Ranked(Wanted(all, q));
    Page(Keep(ranked, q.limit), CursorAfter(ranked, q.limit))
  }

  /** With distinct keys the page does not depend on the order in which the events are scanned. */
  lemma {:induction false} PageIgnoresScanOrder(a: seq<Event>, b: seq<Event>, q: Query)
    requires multiset(Wanted(a, q)) == multiset(Wanted(b, q)) && DistinctKeys(Wanted(a, q))
    ensures Ranked(Wanted(a, q)) == Ranked(Wanted(b, q))
  {
    RankedIsSorted(Wanted(a, q));
    RankedIsSorted(Wanted(b, q));
    DistinctKeysOf(Wanted(a, q), Ranked(Wanted(a, q)));
    OrderIsUnique(Ranked(Wanted(a, q)), Ranked(Wanted(b, q)));
  }

  /** The answer to the same request from the position after the first k events of the listing. */
  lemma {:induction false} RestAfter(all: seq<Event>, q: Query, k: nat)
    requires q.cursor.None? && DistinctKeys(all) && 0 < k <= |Wanted(all, q)|
    ensures |Ranked(Wanted(all, q))| == |Wanted(all, q)|
    ensures Ranked(Wanted(all, q.(cursor := Some(KeyOf(Ranked(Wanted(all, q))[k - 1]))))) == Ranked(Wanted(all, q))[k..]
  {
    hide Ranked, Wanted;
    RankedIsSorted(Wanted(all, q));
    var ranked := Ranked(Wanted(all, q));
    WantedIsDistinct(all, q);
    DistinctKeysOf(Wanted(all, q), ranked);
    var c := KeyOf(ranked[k - 1]);
    var after := q.(cursor := Some(c));
    RankedIsSorted(Wanted(all, after));
    forall e
      ensures multiset(ranked[k..])[e] == multiset(Wanted(all, after))[e]
    {
      WantedCount(all, q, e);
      WantedCount(all, after, e);
      SplitCount(ranked, k, e);
    }
    assert multiset(ranked[k..]) == multiset(Ranked(Wanted(all, after)));
    OrderIsUnique(ranked[k..], Ranked(Wanted(all, after)));
  }

  lemma {:induction false} SplitCount(ranked: seq<Event>, k: nat, e: Event)
    requires Descending(ranked) && DistinctKeys(ranked) && 0 < k <= |ranked|
    ensures multiset(ranked[k..])[e] == if Below(KeyOf(e), KeyOf(ranked[k - 1])) then multiset(ranked)[e] else 0
  {
    assert ranked == ranked[..k] + ranked[k..];
    if Below(KeyOf(e), KeyOf(ranked[k - 1])) {
      assert e !in ranked[..k];
    } else {
      forall i | k <= i < |ranked|
        ensures ranked[i] != e
      {
        assert KeyOf(ranked[k - 1]) != KeyOf(ranked[i]);
      }
      assert e !in ranked[k..];
    }
  }

  lemma {:induction false} WantedIsDistinct(all: seq<Event>, q: Query)
    requires DistinctKeys(all)
    ensures DistinctKeys(Wanted(all, q)) && forall e :: e in Wanted(all, q) ==> e in all
  {
    if all != [] {
      var rest, last := all[..|all| - 1], all[|all| - 1];
      WantedIsDistinct(rest, q);
      forall e | e in Wanted(rest, q)
        ensures KeyOf(e) != KeyOf(last)
      {
        var i :| 0 <= i < |rest| && rest[i] == e;
        assert all[i] == e;
      }
    }
  }

  // ---------------------------------------------------------------- following the cursors

  function Listed(pages: seq<Page>): seq<Event> {
    if pages == [] then [] else Listed(pages[..|pages| - 1]) + pages[|pages| - 1].events
  }

  /** Each page is the answer at the cursor of the page before it. */
  ghost predicate Follows(all: seq<Event>, q: Query, pages: seq<Page>)
    requires q.limit > 0
  {
    && pages != []
    && if |pages| == 1 then pages[0] == PageOf(all, q)
       else
         && Follows(all, q, pages[..|pages| - 1])
         && pages[|pages| - 2].next.Some?
         && pages[|pages| - 1] == PageOf(all, q.(cursor := pages[|pages| - 2].next))
  }

  /** After n pages exactly the first n * limit events have been listed. */
  lemma {:induction false} PagesSoFar(all: seq<Event>, q: Query, pages: seq<Page>)
    requires q.cursor.None? && q.limit > 0 && DistinctKeys(all) && Follows(all, q, pages)
    ensures Listed(pages) == Keep(Ranked(Wanted(all, q)), |pages| * q.limit)
    ensures pages[|pages| - 1].next == CursorAfter(Ranked(Wanted(all, q)), |pages| * q.limit)
  {
    hide Ranked, Wanted, DistinctKeys, Descending, KeyOf, Keep;
    var ranked := Ranked(Wanted(all, q));
    var last := pages[|pages| - 1];
    if |pages| == 1 {
      assert Listed(pages[..0]) == [];
      assert Listed(pages) == last.events;
      assert |pages| * q.limit == q.limit;
    } else {
      var rest := pages[..|pages| - 1];
      PagesSoFar(all, q, rest);
      var n := |rest| * q.limit;
      assert |pages| * q.limit == n + q.limit by {
        assert |pages| == |rest| + 1;
      }
      Positive(|rest|, q.limit);
      assert rest[|rest| - 1] == pages[|pages| - 2];
      NextPage(all, q, n);
    }
  }

  lemma {:induction false} Positive(a: nat, b: nat)
    requires a > 0 && b > 0
    ensures a * b > 0
  {
  }

  lemma {:induction false} NextPage(all: seq<Event>, q: Query, n: nat)
    requires q.cursor.None? && q.limit > 0 && DistinctKeys(all) && 0 < n < |Ranked(Wanted(all, q))|
    ensures var ranked := Ranked(Wanted(all, q));
      var page := PageOf(all, q.(cursor := Some(KeyOf(ranked[n - 1]))));
      && Keep(ranked, n) + page.events == Keep(ranked, n + q.limit)
      && page.next == CursorAfter(ranked, n + q.limit)
  {
    hide Ranked, Wanted, DistinctKeys, Descending, KeyOf;
    RankedIsSorted(Wanted(all, q));
    RestAfter(all, q, n);
  }

  /**
   Pagination is exact: the pages up to the one without a cursor list every matching retained
   event exactly once, in descending order.
   */
  lemma {:induction false} PaginationIsExact(all: seq<Event>, q: Query, pages: seq<Page>)
    requires q.cursor.None? && q.limit > 0 && DistinctKeys(all) && Follows(all, q, pages)
    requires pages[|pages| - 1].next.None?
    ensures Descending(Listed(pages)) && DistinctKeys(Listed(pages))
    ensures forall e :: e in Listed(pages) <==> e in all && Wants(q, e)
  {
    hide Ranked, Wanted, DistinctKeys, Descending, Listed;
    PagesSoFar(all, q, pages);
    RankedIsSorted(Wanted(all, q));
    WantedIsDistinct(all, q);
    DistinctKeysOf(Wanted(all, q), Ranked(Wanted(all, q)));
    forall e
      ensures e in Listed(pages) <==> e in all && Wants(q, e)
    {
      WantedCount(all, q, e);
      assert e in Listed(pages) <==> e in multiset(Ranked(Wanted(all, q)));
      assert e in all <==> e in multiset(all);
    }
  }

  /** The walk ends: a page with a cursor is never the last one possible, and there are few of them. */
  lemma {:induction false} WalkIsFinite(all: seq<Event>, q: Query, pages: seq<Page>)
    requires q.cursor.None? && q.limit > 0 && DistinctKeys(all) && Follows(all, q, pages)
    ensures pages[|pages| - 1].next.Some? <==> |pages| * q.limit < |Wanted(all, q)|
  {
    PagesSoFar(all, q, pages);
    RankedIsSorted(Wanted(all, q));
  }
}
