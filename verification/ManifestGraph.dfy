/**
 Directed graphs of manifest digests, as used by the registry retention planner:
 walks, reachability from a set of roots, and cycles.

 A digest is the number behind the registry's "sha256:..." string, whose order is that of the strings.
 */
module ManifestGraph {

  datatype Digest = Digest(rank: nat)
  type Graph = map<Digest, set<Digest>>

  predicate Edge(g: Graph, from: Digest, to: Digest) {
    from in g && to in g[from]
  }

  /** A nonempty walk along the edges of `g`. */
  ghost predicate IsWalk(g: Graph, walk: seq<Digest>) {
    && |walk| > 0
    && (|walk| > 1 ==> Edge(g, walk[0], walk[1]) && IsWalk(g, walk[1..]))
  }

  ghost predicate WalkFrom(g: Graph, roots: set<Digest>, walk: seq<Digest>, node: Digest) {
    IsWalk(g, walk) && walk[0] in roots && walk[|walk| - 1] == node
  }

  ghost predicate Reachable(g: Graph, roots: set<Digest>, node: Digest) {
    exists walk :: WalkFrom(g, roots, walk, node)
  }

  /** `nodes` contains the target of each edge that leaves it. */
  ghost predicate Closed(g: Graph, nodes: set<Digest>) {
    forall n, m :: n in nodes && Edge(g, n, m) ==> m in nodes
  }

  /** Every edge of `g` leads to a node of `g`. */
  ghost predicate WellFormed(g: Graph) {
    forall n, m :: Edge(g, n, m) ==> m in g
  }

  lemma {:induction false} RootsAreReachable(g: Graph, roots: set<Digest>, node: Digest)
    requires node in roots
    ensures Reachable(g, roots, node)
  {
    assert WalkFrom(g, roots, [node], node);
  }

  lemma {:induction false} AppendStep(g: Graph, walk: seq<Digest>, target: Digest)
    requires IsWalk(g, walk) && Edge(g, walk[|walk| - 1], target)
    ensures IsWalk(g, walk + [target])
  {
    var longer := walk + [target];
    if |walk| > 1 {
      AppendStep(g, walk[1..], target);
      assert longer[1..] == walk[1..] + [target];
    } else {
      assert longer[1..] == [target];
    }
  }

  lemma {:induction false} EdgeExtendsReach(g: Graph, roots: set<Digest>, node: Digest, target: Digest)
    requires Reachable(g, roots, node) && Edge(g, node, target)
    ensures Reachable(g, roots, target)
  {
    var walk :| WalkFrom(g, roots, walk, node);
    AppendStep(g, walk, target);
    assert WalkFrom(g, roots, walk + [target], target);
  }

  lemma {:induction false} WalkStaysInClosedSet(g: Graph, nodes: set<Digest>, walk: seq<Digest>)
    requires Closed(g, nodes) && IsWalk(g, walk) && walk[0] in nodes
    ensures walk[|walk| - 1] in nodes
  {
    if |walk| > 1 {
      WalkStaysInClosedSet(g, nodes, walk[1..]);
    }
  }

  /** The reachable nodes are the least closed set that contains the roots. */
  lemma {:induction false} ReachableIsLeastClosedSet(g: Graph, roots: set<Digest>, nodes: set<Digest>)
    requires roots <= nodes && Closed(g, nodes)
    ensures forall n :: Reachable(g, roots, n) ==> n in nodes
  {
    forall n | Reachable(g, roots, n)
      ensures n in nodes
    {
      var walk :| WalkFrom(g, roots, walk, n);
      WalkStaysInClosedSet(g, nodes, walk);
    }
  }

  // ---------------------------------------------------------------- cycles

  /** A walk of at least one edge that returns to its first node. */
  ghost predicate IsCycle(g: Graph, walk: seq<Digest>) {
    |walk| > 1 && IsWalk(g, walk) && walk[0] == walk[|walk| - 1]
  }

  ghost predicate Cyclic(g: Graph) {
    exists walk :: IsCycle(g, walk)
  }

  /** Every edge between listed nodes leads forwards in `order`. */
  ghost predicate Topological(g: Graph, order: seq<Digest>) {
    forall i, j :: 0 <= i < |order| && 0 <= j < |order| && Edge(g, order[i], order[j]) ==> i < j
  }

  function Elements(s: seq<Digest>): set<Digest> {
    set d | d in s
  }

  ghost predicate NoRepeats(s: seq<Digest>) {
    forall i, j :: 0 <= i < j < |s| ==> s[i] != s[j]
  }

  /** Along a walk inside a topological order the positions only move forwards. */
  lemma {:induction false} WalkMovesForward(g: Graph, order: seq<Digest>, walk: seq<Digest>, first: nat, last: nat)
    requires WellFormed(g) && Topological(g, order) && NoRepeats(order) && (forall n :: n in g ==> n in order)
    requires IsWalk(g, walk)
    requires first < |order| && order[first] == walk[0]
    requires last < |order| && order[last] == walk[|walk| - 1]
    ensures first + |walk| - 1 <= last
  {
    if |walk| > 1 {
      assert Edge(g, walk[0], walk[1]);
      var second :| 0 <= second < |order| && order[second] == walk[1];
      WalkMovesForward(g, order, walk[1..], second, last);
    }
  }

  /** A graph whose nodes can all be ordered topologically has no cycle. */
  lemma {:induction false} TopologicalOrderExcludesCycles(g: Graph, order: seq<Digest>)
    requires WellFormed(g) && Topological(g, order) && NoRepeats(order)
    requires forall n :: n in g ==> n in order
    ensures !Cyclic(g)
  {
    if walk :| IsCycle(g, walk) {
      assert Edge(g, walk[0], walk[1]);
      var k :| 0 <= k < |order| && order[k] == walk[0];
      WalkMovesForward(g, order, walk, k, k);
    }
  }

  ghost predicate HasPredecessorIn(g: Graph, nodes: set<Digest>, node: Digest) {
    exists p :: p in nodes && Edge(g, p, node)
  }

  /** If every node of a nonempty finite set has a predecessor in the set, the graph has a cycle. */
  lemma {:induction false} PredecessorsEverywhereMakeACycle(g: Graph, nodes: set<Digest>)
    requires nodes != {}
    requires forall n :: n in nodes ==> HasPredecessorIn(g, nodes, n)
    ensures Cyclic(g)
  {
    assert nodes != {};
    var start :| start in nodes;
    ExtendBackwards(g, nodes, [start]);
  }

  lemma {:induction false} ExtendBackwards(g: Graph, nodes: set<Digest>, walk: seq<Digest>)
    requires forall n :: n in nodes ==> HasPredecessorIn(g, nodes, n)
    requires IsWalk(g, walk) && NoRepeats(walk) && Elements(walk) <= nodes
    ensures Cyclic(g)
    decreases nodes - Elements(walk)
  {
    assert walk[0] in Elements(walk);
    assert HasPredecessorIn(g, nodes, walk[0]);
    var p :| p in nodes && Edge(g, p, walk[0]);
    PrependStep(g, p, walk);
    if p in walk {
      var k :| 0 <= k < |walk| && walk[k] == p;
      ReturningWalkMakesACycle(g, [p] + walk, k + 1);
    } else {
      ExtendBackwards(g, nodes, [p] + walk);
    }
  }

  lemma {:induction false} PrependStep(g: Graph, p: Digest, walk: seq<Digest>)
    requires IsWalk(g, walk) && NoRepeats(walk) && Edge(g, p, walk[0])
    ensures IsWalk(g, [p] + walk) && Elements([p] + walk) == {p} + Elements(walk)
    ensures p !in walk ==> NoRepeats([p] + walk)
  {
    assert ([p] + walk)[1..] == walk;
  }

  lemma {:induction false} ReturningWalkMakesACycle(g: Graph, walk: seq<Digest>, back: nat)
    requires IsWalk(g, walk) && 0 < back < |walk| && walk[back] == walk[0]
    ensures Cyclic(g)
  {
    PrefixOfWalk(g, walk, back + 1);
    assert IsCycle(g, walk[..back + 1]);
  }

  lemma {:induction false} PrefixOfWalk(g: Graph, walk: seq<Digest>, n: nat)
    requires IsWalk(g, walk) && 1 <= n <= |walk|
    ensures IsWalk(g, walk[..n])
  {
    if n > 1 {
      PrefixOfWalk(g, walk[1..], n - 1);
      assert walk[..n][1..] == walk[1..][..n - 1];
    }
  }

  /** A sequence without repeats over a finite set is no longer than the set. */
  lemma {:induction false} DistinctFits(s: seq<Digest>, nodes: set<Digest>)
    requires NoRepeats(s) && Elements(s) <= nodes
    ensures |s| <= |nodes|
    ensures |Elements(s)| == |s|
  {
    if s != [] {
      var rest := s[1..];
      assert s[0] in Elements(s) && s[0] !in rest;
      assert Elements(s) == {s[0]} + Elements(rest);
      DistinctFits(rest, nodes - {s[0]});
    }
  }
}
