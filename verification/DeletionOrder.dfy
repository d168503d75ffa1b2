/**
 The order in which temporary manifests are deleted: a referencing manifest goes before its
 children and before its subject, so that a batch which stops early leaves no listed manifest
 pointing at a version it removed.
 */
module DeletionOrder {
  import opened Wrappers
  import opened ManifestGraph
  import opened RetentionTypes

  datatype OrderError =
    | UnknownVersion(digest: Digest)  // a candidate that the inventory does not list
    | CyclicReferences

  /** What the candidate `digest` points at among the candidates: its children and its subject. */
  function References(versions: seq<Manifest>, nodes: set<Digest>, digest: Digest): set<Digest>
    requires digest in Names(versions)
  {
    var v := Lookup(versions, digest);
    (set c | c in v.children && c in nodes)
      + (if v.subject.Some? && v.subject.value in nodes then {v.subject.value} else {})
  }

  /** The reference graph among the candidates. */
  function ReferenceGraph(versions: seq<Manifest>, nodes: set<Digest>): (g: Graph)
    requires nodes <= Names(versions)
    ensures g.Keys == nodes && WellFormed(g)
  {
    map d | d in nodes :: References(versions, nodes, d)
  }

  function Digests(rows: seq<Row>): (ds: seq<Digest>)
    ensures |ds| == |rows| && forall i :: 0 <= i < |rows| ==> ds[i] == rows[i].digest
  {
    seq(|rows|, i requires 0 <= i < |rows| => rows[i].digest)
  }

  function DigestSet(rows: seq<Row>): set<Digest> {
    set i | 0 <= i < |rows| :: rows[i].digest
  }

  /** Who points at `node` from within `from`. */
  function Referrers(g: Graph, from: set<Digest>, node: Digest): set<Digest> {
    set p | p in from && Edge(g, p, node)
  }

  /** The smallest element of a nonempty set. */
  method Smallest(s: set<Digest>) returns (least: Digest)
    requires s != {}
    ensures least in s && forall d :: d in s ==> least.rank <= d.rank
  {
    least :| least in s;
    var rest := s - {least};
    while rest != {}
      invariant least in s && rest <= s
      invariant forall d :: d in s && d !in rest ==> least.rank <= d.rank
      decreases rest
    {
      var d :| d in rest;
      if d.rank < least.rank { least := d; }
      rest := rest - {d};
    }
  }

  ghost predicate Increasing(s: seq<Digest>) {
    forall i, j :: 0 <= i < j < |s| ==> s[i].rank < s[j].rank
  }

  /** The elements of a set in increasing order. */
  method Sorted(s: set<Digest>) returns (sorted: seq<Digest>)
    ensures Increasing(sorted) && forall d :: d in sorted <==> d in s
  {
    sorted := [];
    var rest := s;
    while rest != {}
      invariant rest <= s && Increasing(sorted)
      invariant forall d :: d in sorted <==> d in s - rest
      invariant forall d, e :: d in sorted && e in rest ==> d.rank < e.rank
      decreases rest
    {
      var least := Smallest(rest);
      sorted := sorted + [least];
      rest := rest - {least};
    }
  }

  /** The in-degree of every candidate, counted edge by edge. */
  method CountIncoming(g: Graph) returns (incoming: map<Digest, int>)
    requires WellFormed(g)
    ensures incoming.Keys == g.Keys
    ensures forall k :: k in g ==> incoming[k] == |Referrers(g, g.Keys, k)|
  {
    incoming := map k | k in g :: 0;
    var unseen := g.Keys;
    while unseen != {}
      invariant unseen <= g.Keys && incoming.Keys == g.Keys
      invariant forall k :: k in g ==> incoming[k] == |Referrers(g, g.Keys - unseen, k)|
      decreases unseen
    {
      var p :| p in unseen;
      assert forall child :: child in g[p] ==> Edge(g, p, child);
      var counted := CountTargets(incoming, g[p]);
      forall k | k in g
        ensures counted[k] == |Referrers(g, g.Keys - (unseen - {p}), k)|
      {
        AddReferrer(g, g.Keys - unseen, p, k);
        assert g.Keys - (unseen - {p}) == g.Keys - unseen + {p};
      }
      incoming, unseen := counted, unseen - {p};
    }
    assert g.Keys - unseen == g.Keys;
  }

  method CountTargets(incoming: map<Digest, int>, targets: set<Digest>) returns (counted: map<Digest, int>)
    requires targets <= incoming.Keys
    ensures counted.Keys == incoming.Keys
    ensures forall k :: k in incoming ==> counted[k] == incoming[k] + if k in targets then 1 else 0
  {
    counted := incoming;
    var rest := targets;
    while rest != {}
      invariant rest <= targets && counted.Keys == incoming.Keys
      invariant forall k :: k in incoming ==> counted[k] == incoming[k] + if k in targets && k !in rest then 1 else 0
      decreases rest
    {
      var child :| child in rest;
      counted := counted[child := counted[child] + 1];
      rest := rest - {child};
    }
  }

  lemma {:induction false} AddReferrer(g: Graph, from: set<Digest>, p: Digest, node: Digest)
    requires p !in from
    ensures |Referrers(g, from + {p}, node)| == |Referrers(g, from, node)| + (if Edge(g, p, node) then 1 else 0)
  {
    if Edge(g, p, node) {
      assert Referrers(g, from + {p}, node) == Referrers(g, from, node) + {p};
    } else {
      assert Referrers(g, from + {p}, node) == Referrers(g, from, node);
    }
  }

  lemma {:induction false} NoReferrersLeft(g: Graph, from: set<Digest>, node: Digest)
    ensures |Referrers(g, from, node)| == 0 <==> forall p :: p in from ==> !Edge(g, p, node)
  {
    if |Referrers(g, from, node)| == 0 {
      assert Referrers(g, from, node) == {};
      forall p | p in from
        ensures !Edge(g, p, node)
      {
        assert p !in Referrers(g, from, node);
      }
    } else {
      var p :| p in Referrers(g, from, node);
    }
  }

  /** What a finished order promises about the candidates it lists. */
  ghost predicate IsDeletionOrder(g: Graph, ordered: seq<Digest>) {
    && NoRepeats(ordered)
    && (forall d :: d in ordered <==> d in g)
    && Topological(g, ordered)
  }

  /**
   What holds between two rounds of Kahn's algorithm. `listed` is the output followed by the
   queue, and `incoming` counts the referrers that have not been emitted.
   */
  ghost predicate KahnInvariant(g: Graph, ordered: seq<Digest>, listed: seq<Digest>, incoming: map<Digest, int>) {
    && WellFormed(g)
    && incoming.Keys == g.Keys
    && ordered <= listed
    && NoRepeats(listed)
    && (forall d :: d in listed ==> d in g)
    && (forall k :: k in g ==> incoming[k] == |Referrers(g, g.Keys - Elements(ordered), k)|)
    && (forall k :: k in g ==> (incoming[k] == 0 <==> k in listed))
    && Topological(g, ordered)
  }

  /** Once a node is queued, every node that points at it has been emitted. */
  lemma {:induction false} QueuedNodesAreFree(g: Graph, ordered: seq<Digest>, listed: seq<Digest>,
      incoming: map<Digest, int>, p: Digest, k: Digest)
    requires KahnInvariant(g, ordered, listed, incoming)
    requires k in listed && Edge(g, p, k)
    ensures p in ordered
  {
    assert incoming[k] == |Referrers(g, g.Keys - Elements(ordered), k)|;
    NoReferrersLeft(g, g.Keys - Elements(ordered), k);
  }

  /** Decrements the counters of `children` and queues those that reach zero. */
  method Release(incoming: map<Digest, int>, children: seq<Digest>)
    returns (incoming': map<Digest, int>, released: seq<Digest>)
    requires Increasing(children)
    requires forall c :: c in children ==> c in incoming && incoming[c] > 0
    ensures incoming'.Keys == incoming.Keys
    ensures forall k :: k in incoming ==> incoming'[k] == incoming[k] - (if k in children then 1 else 0)
    ensures NoRepeats(released) && Increasing(released)
    ensures forall k :: k in released <==> k in children && incoming'[k] == 0
  {
    incoming', released := incoming, [];
    for i := 0 to |children|
      invariant incoming'.Keys == incoming.Keys
      invariant forall k :: k in incoming ==> incoming'[k] == incoming[k] - (if k in children[..i] then 1 else 0)
      invariant NoRepeats(released) && Increasing(released)
      invariant forall d, j :: d in released && i <= j < |children| ==> d.rank < children[j].rank
      invariant forall k :: k in released <==> k in children[..i] && incoming'[k] == 0
    {
      var child := children[i];
      assert child in children && child !in children[..i];
      assert children[..i + 1] == children[..i] + [child];
      incoming' := incoming'[child := incoming'[child] - 1];
      if incoming'[child] == 0 {
        released := released + [child];
      }
    }
    assert children[..|children|] == children;
  }

  /** Removing an emitted node from the count changes exactly the counters of its targets. */
  lemma {:induction false} CountersAfterEmit(g: Graph, ordered: seq<Digest>, key: Digest, k: Digest)
    requires key in g && key !in ordered
    ensures |Referrers(g, g.Keys - Elements(ordered), k)|
         == |Referrers(g, g.Keys - Elements(ordered + [key]), k)| + (if k in g[key] then 1 else 0)
  {
    var left := g.Keys - Elements(ordered + [key]);
    AddReferrer(g, left, key, k);
    assert g.Keys - Elements(ordered) == left + {key};
  }

  lemma {:induction false} HeadIsFresh(ordered: seq<Digest>, ready: seq<Digest>)
    requires NoRepeats(ordered + ready) && ready != []
    ensures ready[0] !in ordered && ready[0] in ordered + ready
    ensures ordered + [ready[0]] + ready[1..] == ordered + ready
  {
    var listed := ordered + ready;
    assert listed[|ordered|] == ready[0];
    assert forall i :: 0 <= i < |ordered| ==> listed[i] == ordered[i];
  }

  lemma {:induction false} TopologicalAfterEmit(g: Graph, ordered: seq<Digest>, listed: seq<Digest>,
      incoming: map<Digest, int>, key: Digest)
    requires KahnInvariant(g, ordered, listed, incoming)
    requires key in listed && key !in ordered
    ensures Topological(g, ordered + [key])
  {
    var longer := ordered + [key];
    forall i, j | 0 <= i < |longer| && 0 <= j < |longer| && Edge(g, longer[i], longer[j])
      ensures i < j
    {
      assert longer[j] in listed;
      QueuedNodesAreFree(g, ordered, listed, incoming, longer[i], longer[j]);
      assert i < |ordered|;
      if j < |ordered| {
        assert Edge(g, ordered[i], ordered[j]);
      }
    }
  }

  lemma {:induction false} AppendFresh(listed: seq<Digest>, released: seq<Digest>)
    requires NoRepeats(listed) && NoRepeats(released) && forall d :: d in released ==> d !in listed
    ensures NoRepeats(listed + released)
  {
    var all := listed + released;
    forall i, j | 0 <= i < j < |all|
      ensures all[i] != all[j]
    {
      if i < |listed| <= j {
        assert all[j] in released && all[i] in listed;
      }
    }
  }

  /** One round: the head of the queue goes out, and the nodes only it still pointed at are queued. */
  lemma {:induction false} RoundKeepsInvariant(g: Graph, ordered: seq<Digest>, listed: seq<Digest>,
      incoming: map<Digest, int>, key: Digest, released: seq<Digest>, incoming': map<Digest, int>)
    requires KahnInvariant(g, ordered, listed, incoming)
    requires key in listed && key !in ordered && ordered + [key] <= listed
    requires WellFormed(g) && incoming'.Keys == incoming.Keys == g.Keys
    requires forall k :: k in incoming ==> incoming'[k] == incoming[k] - (if k in g[key] then 1 else 0)
    requires NoRepeats(released) && forall k :: k in released <==> Edge(g, key, k) && incoming'[k] == 0
    ensures KahnInvariant(g, ordered + [key], listed + released, incoming')
  {
    assert forall k :: k in g[key] ==> Edge(g, key, k);
    forall k | k in released
      ensures k !in listed
    {
      CountersAfterEmit(g, ordered, key, k);
    }
    AppendFresh(listed, released);
    TopologicalAfterEmit(g, ordered, listed, incoming, key);
    forall k | k in g
      ensures incoming'[k] == |Referrers(g, g.Keys - Elements(ordered + [key]), k)|
    {
      CountersAfterEmit(g, ordered, key, k);
    }
  }

  /** A round that ends with nothing queued has emitted every node, unless the rest is a cycle. */
  lemma {:induction false} NothingLeftIffAcyclic(g: Graph, ordered: seq<Digest>, incoming: map<Digest, int>)
    requires KahnInvariant(g, ordered, ordered, incoming)
    ensures IsDeletionOrder(g, ordered) <==> !Cyclic(g)
    ensures |ordered| == |g.Keys| <==> !Cyclic(g)
  {
    DistinctFits(ordered, g.Keys);
    if g.Keys == Elements(ordered) {
      TopologicalOrderExcludesCycles(g, ordered);
    } else {
      StuckMeansCyclic(g, ordered, incoming);
      CardinalityOfProperSubset(Elements(ordered), g.Keys);
    }
  }

  lemma {:induction false} StuckMeansCyclic(g: Graph, ordered: seq<Digest>, incoming: map<Digest, int>)
    requires KahnInvariant(g, ordered, ordered, incoming) && g.Keys != Elements(ordered)
    ensures Cyclic(g)
  {
    StuckNodesHavePredecessors(g, ordered, incoming);
    ProperSubsetLeavesSome(Elements(ordered), g.Keys);
    PredecessorsEverywhereMakeACycle(g, g.Keys - Elements(ordered));
  }

  lemma {:induction false} ProperSubsetLeavesSome(small: set<Digest>, large: set<Digest>)
    requires small != large && small <= large
    ensures large - small != {}
  {
    var d :| d in large && d !in small;
    assert d in large - small;
  }

  lemma {:induction false} StuckNodesHavePredecessors(g: Graph, ordered: seq<Digest>, incoming: map<Digest, int>)
    requires KahnInvariant(g, ordered, ordered, incoming)
    ensures forall n :: n in g.Keys - Elements(ordered) ==> HasPredecessorIn(g, g.Keys - Elements(ordered), n)
  {
    forall n | n in g.Keys - Elements(ordered)
      ensures HasPredecessorIn(g, g.Keys - Elements(ordered), n)
    {
      StuckNodeHasPredecessor(g, ordered, incoming, n);
    }
  }

  lemma {:induction false} StuckNodeHasPredecessor(g: Graph, ordered: seq<Digest>, incoming: map<Digest, int>,
      n: Digest)
    requires KahnInvariant(g, ordered, ordered, incoming) && n in g && n !in ordered
    ensures HasPredecessorIn(g, g.Keys - Elements(ordered), n)
  {
    NoReferrersLeft(g, g.Keys - Elements(ordered), n);
    assert incoming[n] != 0;
  }

  lemma {:induction false} CardinalityOfProperSubset(small: set<Digest>, large: set<Digest>)
    requires small < large
    ensures |small| < |large|
  {
    assert large == small + (large - small);
  }

  /** Kahn's algorithm over the candidates' reference graph. */
  method KahnOrder(g: Graph) returns (ordered: seq<Digest>, ghost free: seq<Digest>)
    requires WellFormed(g)
    ensures IsDeletionOrder(g, ordered) <==> !Cyclic(g)
    ensures |ordered| == |g.Keys| <==> !Cyclic(g)
    ensures Increasing(free) && free <= ordered && forall d :: d in free <==> d in g && Referrers(g, g.Keys, d) == {}
  {
    var incoming := CountIncoming(g);
    var ready := Sorted(set k | k in g && incoming[k] == 0);
    ordered, free := [], ready;
    StartOfKahn(g, ready, incoming);
    while ready != []
      invariant KahnInvariant(g, ordered, ordered + ready, incoming)
      invariant free <= ordered + ready
      decreases |g.Keys| - |ordered|
    {
      HeadIsFresh(ordered, ready);
      DistinctFits(ordered + ready, g.Keys);
      var key := ready[0];
      var children := Sorted(g[key]);
      ghost var listed, before := ordered + ready, incoming;
      forall c | c in children
        ensures c in incoming && incoming[c] > 0
      {
        assert Edge(g, key, c);
        CountersAfterEmit(g, ordered, key, c);
      }
      var released;
      incoming, released := Release(incoming, children);
      RoundKeepsInvariant(g, ordered, listed, before, key, released, incoming);
      QueueAfterRound(ordered, ready, released);
      ordered, ready := ordered + [key], ready[1..] + released;
    }
    assert ordered + ready == ordered;
    NothingLeftIffAcyclic(g, ordered, incoming);
  }

  lemma {:induction false} QueueAfterRound(ordered: seq<Digest>, ready: seq<Digest>, released: seq<Digest>)
    requires ready != []
    ensures ordered + [ready[0]] + (ready[1..] + released) == ordered + ready + released
  {
  }

  lemma {:induction false} StartOfKahn(g: Graph, ready: seq<Digest>, incoming: map<Digest, int>)
    requires WellFormed(g) && incoming.Keys == g.Keys && Increasing(ready)
    requires forall k :: k in g ==> incoming[k] == |Referrers(g, g.Keys, k)|
    requires forall k :: k in ready <==> k in g && incoming[k] == 0
    ensures KahnInvariant(g, [], [] + ready, incoming)
    ensures forall d :: d in ready <==> d in g && Referrers(g, g.Keys, d) == {}
  {
    assert [] + ready == ready && g.Keys - Elements([]) == g.Keys;
  }

  // ---------------------------------------------------------------- rows

  function RowOf(rows: seq<Row>, digest: Digest): (row: Row)
    requires digest in DigestSet(rows)
    ensures row in rows && row.digest == digest
  {
    var last := rows[|rows| - 1];
    if last.digest == digest then last else RowOf(rows[..|rows| - 1], digest)
  }

  /** Orders the candidate rows for deletion, or refuses an unlisted candidate or a reference cycle. */
  method OrderForDeletion(candidates: seq<Row>, versions: seq<Manifest>) returns (r: Result<seq<Row>, OrderError>)
    ensures r.Failure? && r.error.UnknownVersion? <==> !(DigestSet(candidates) <= Names(versions))
    ensures DigestSet(candidates) <= Names(versions) ==>
      var g := ReferenceGraph(versions, DigestSet(candidates));
      && (r == Failure(CyclicReferences) <==> Cyclic(g))
      && (r.Success? ==> IsDeletionOrder(g, Digests(r.value)))
    ensures r.Success? && NoRepeats(Digests(candidates)) ==> multiset(r.value) == multiset(candidates)
  {
    if unknown :| unknown in DigestSet(candidates) && unknown !in Names(versions) {
      return Failure(UnknownVersion(unknown));
    }
    var nodes := DigestSet(candidates);
    var g := ReferenceGraph(versions, nodes);
    var order, _ := KahnOrder(g);
    if |order| != |nodes| {
      return Failure(CyclicReferences);
    }
    RowsKeepOrder(candidates, order);
    return Success(RowsInOrder(candidates, order));
  }

  function RowsInOrder(candidates: seq<Row>, order: seq<Digest>): seq<Row>
    requires forall d :: d in order ==> d in DigestSet(candidates)
  {
    seq(|order|, i requires 0 <= i < |order| && order[i] in DigestSet(candidates) => RowOf(candidates, order[i]))
  }

  lemma {:induction false} RowsKeepOrder(candidates: seq<Row>, order: seq<Digest>)
    requires NoRepeats(order) && forall d :: d in order <==> d in DigestSet(candidates)
    ensures Digests(RowsInOrder(candidates, order)) == order
    ensures NoRepeats(Digests(candidates)) ==> multiset(RowsInOrder(candidates, order)) == multiset(candidates)
  {
    var rows := RowsInOrder(candidates, order);
    assert Digests(rows) == order;
    if NoRepeats(Digests(candidates)) {
      forall d | d in Digests(candidates)
        ensures d in Digests(rows)
      {
        var i :| 0 <= i < |candidates| && Digests(candidates)[i] == d;
        assert candidates[i].digest in DigestSet(candidates);
      }
      SameRowsSameMultiset(rows, candidates);
    }
  }

  lemma {:induction false} CountOfDistinct(rows: seq<Row>, row: Row)
    requires NoRepeats(Digests(rows))
    ensures multiset(rows)[row] == if row in rows then 1 else 0
  {
    if rows != [] {
      var rest := rows[..|rows| - 1];
      assert rows == rest + [rows[|rows| - 1]];
      assert Digests(rest) == Digests(rows)[..|rows| - 1];
      CountOfDistinct(rest, row);
      if row in rest {
        var i :| 0 <= i < |rest| && rest[i] == row;
        assert Digests(rows)[i] != Digests(rows)[|rows| - 1];
      }
    }
  }

  lemma {:induction false} SameRowsSameMultiset(a: seq<Row>, b: seq<Row>)
    requires NoRepeats(Digests(a)) && NoRepeats(Digests(b))
    requires forall row :: row in a ==> row in b
    requires forall d :: d in Digests(b) ==> d in Digests(a)
    ensures multiset(a) == multiset(b)
  {
    forall row
      ensures multiset(a)[row] == multiset(b)[row]
    {
      CountOfDistinct(a, row);
      CountOfDistinct(b, row);
      if row in b {
        var i :| 0 <= i < |b| && b[i] == row;
        assert Digests(b)[i] in Digests(a);
        var j :| 0 <= j < |a| && Digests(a)[j] == Digests(b)[i];
        assert a[j] in a;
        var k :| 0 <= k < |b| && b[k] == a[j];
        assert Digests(b)[k] == Digests(b)[i];
      }
    }
  }
}
