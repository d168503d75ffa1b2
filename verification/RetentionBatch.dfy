/**
 What the plan and the deletion order promise together about a batch that may stop anywhere.
 */
module RetentionBatch {
  import opened Wrappers
  import opened ManifestGraph
  import opened RetentionTypes
  import opened RetentionPlan
  import opened RetentionPolicy
  import opened DeletionOrder

  /** `v` keeps its children and the manifests attached to it alive: `w` is one of them. */
  predicate Protects(v: Manifest, w: Manifest) {
    w.name in v.children || w.subject == Some(v.name)
  }

  /** Nothing that a preserved manifest needs is offered for deletion. */
  ghost predicate PreservationIsClosed(versions: seq<Manifest>, rows: seq<Row>)
    requires |rows| == |versions|
  {
    forall i, j ::
      0 <= i < |rows| && 0 <= j < |rows| && rows[i].decision == Preserve && Protects(versions[i], versions[j]) ==>
      rows[j].decision == Preserve
  }

  /** For every inventory and policy, the preserved manifests are closed under children and referrers. */
  lemma {:induction false} PreservedSetIsClosed(package: string, versions: seq<Manifest>, policy: Policy, now: Time,
      rows: seq<Row>)
    requires IsPlan(package, versions, policy, now, Success(rows))
    ensures PreservationIsClosed(versions, rows)
  {
    hide Reachable, Ground, Seeds;
    forall i, j |
      0 <= i < |rows| && 0 <= j < |rows| && rows[i].decision == Preserve && Protects(versions[i], versions[j])
      ensures rows[j].decision == Preserve
    {
      if Trusted(package, versions, policy) {
        assert Verdict(package, versions, policy, now, versions[i], rows[i]);
        assert Verdict(package, versions, policy, now, versions[j], rows[j]);
        assert versions[j] in versions;
        assert versions[i] in versions;
        EdgeOrigin(versions, versions[i].name, versions[j].name);
        EdgeExtendsReach(ProtectionGraph(versions), Seeds(package, versions, policy, now), versions[i].name,
          versions[j].name);
      } else {
        assert rows[j] in rows;
      }
    }
  }

  /** The rows a batch may delete. */
  function CandidatesOf(rows: seq<Row>): (candidates: seq<Row>)
    ensures forall row :: row in candidates <==> row in rows && row.decision == Candidate
  {
    if rows == [] then []
    else
      var last := rows[|rows| - 1];
      CandidatesOf(rows[..|rows| - 1]) + if last.decision == Candidate then [last] else []
  }

  predicate IsCandidate(rows: seq<Row>, name: Digest) {
    name in DigestSet(CandidatesOf(rows))
  }

  lemma {:induction false} CandidateOrigin(rows: seq<Row>, d: Digest)
    ensures IsCandidate(rows, d) <==> exists i ::
      0 <= i < |rows| && rows[i].digest == d && rows[i].decision == Candidate
  {
    var candidates := CandidatesOf(rows);
    if IsCandidate(rows, d) {
      var k :| 0 <= k < |candidates| && candidates[k].digest == d;
      assert candidates[k] in candidates;
    } else if i :| 0 <= i < |rows| && rows[i].digest == d && rows[i].decision == Candidate {
      assert rows[i] in candidates;
    }
  }

  lemma {:induction false} CandidateRow(versions: seq<Manifest>, rows: seq<Row>, i: nat)
    requires Covers(rows, versions) && DistinctNames(versions) && i < |rows|
    ensures IsCandidate(rows, versions[i].name) <==> rows[i].decision == Candidate
  {
    hide IsCandidate;
    CandidateOrigin(rows, versions[i].name);
  }

  lemma {:induction false} CandidatesAreListed(versions: seq<Manifest>, rows: seq<Row>)
    requires Covers(rows, versions)
    ensures DigestSet(CandidatesOf(rows)) <= Names(versions)
  {
    forall d | d in DigestSet(CandidatesOf(rows))
      ensures d in Names(versions)
    {
      CandidateOrigin(rows, d);
      var j :| 0 <= j < |rows| && rows[j].digest == d;
      assert versions[j].name == d;
    }
  }

  ghost predicate Deleted(order: seq<Digest>, k: nat, name: Digest)
    requires k <= |order|
  {
    name in order[..k]
  }

  /** `order` is a deletion order for the candidates of a plan of a trusted inventory. */
  ghost predicate IsBatch(versions: seq<Manifest>, rows: seq<Row>, order: seq<Digest>) {
    && Covers(rows, versions) && DistinctNames(versions)
    && DigestSet(CandidatesOf(rows)) <= Names(versions)
    && IsDeletionOrder(ReferenceGraph(versions, DigestSet(CandidatesOf(rows))), order)
  }

  lemma {:induction false} CandidateReference(versions: seq<Manifest>, rows: seq<Row>, v: Manifest, target: Digest)
    requires DistinctNames(versions) && DigestSet(CandidatesOf(rows)) <= Names(versions)
    requires v in versions && IsCandidate(rows, v.name) && IsCandidate(rows, target)
    requires target in v.children || v.subject == Some(target)
    ensures Edge(ReferenceGraph(versions, DigestSet(CandidatesOf(rows))), v.name, target)
  {
    LookupDistinct(versions, v);
  }

  lemma {:induction false} LookupDistinct(versions: seq<Manifest>, v: Manifest)
    requires DistinctNames(versions) && v in versions
    ensures v.name in Names(versions) && Lookup(versions, v.name) == v
  {
    var i :| 0 <= i < |versions| && versions[i] == v;
    assert versions[i].name == v.name;
    var w := Lookup(versions, v.name);
    var j :| 0 <= j < |versions| && versions[j] == w;
  }

  /** A referrer in the order goes out no later than what it references. */
  lemma {:induction false} ReferrerGoesFirst(g: Graph, order: seq<Digest>, k: nat, from: Digest, to: Digest)
    requires IsDeletionOrder(g, order) && k <= |order| && Edge(g, from, to) && Deleted(order, k, to)
    ensures Deleted(order, k, from)
  {
    var j :| 0 <= j < k && order[j] == to;
    assert from in order;
    var i :| 0 <= i < |order| && order[i] == from;
    assert i < j;
    assert order[..k][i] == from;
  }

  /**
   After any prefix of the deletion order, no manifest that is still listed has lost a child,
   and no candidate that is still listed has lost its subject.
   */
  lemma {:induction false} PrefixNeverDangles(versions: seq<Manifest>, rows: seq<Row>, order: seq<Digest>, k: nat,
      v: Manifest)
    requires IsBatch(versions, rows, order) && PreservationIsClosed(versions, rows) && k <= |order|
    requires v in versions && !Deleted(order, k, v.name)
    ensures forall c :: c in v.children && c in Names(versions) ==> !Deleted(order, k, c)
    ensures IsCandidate(rows, v.name) && v.subject.Some? ==> !Deleted(order, k, v.subject.value)
  {
    var g := ReferenceGraph(versions, DigestSet(CandidatesOf(rows)));
    var i :| 0 <= i < |versions| && versions[i] == v;
    CandidateRow(versions, rows, i);
    forall c | c in v.children && c in Names(versions)
      ensures !Deleted(order, k, c)
    {
      if Deleted(order, k, c) {
        assert c in order && IsCandidate(rows, c);
        var j :| 0 <= j < |versions| && versions[j].name == c;
        CandidateRow(versions, rows, j);
        assert Protects(v, versions[j]);
        CandidateReference(versions, rows, v, c);
        ReferrerGoesFirst(g, order, k, v.name, c);
      }
    }
    if IsCandidate(rows, v.name) && v.subject.Some? {
      var subject := v.subject.value;
      if Deleted(order, k, subject) {
        assert subject in order;
        CandidateReference(versions, rows, v, subject);
        ReferrerGoesFirst(g, order, k, v.name, subject);
      }
    }
  }

  /** Seen from the inventory: some manifest that is kept is attached to one that nothing keeps. */
  ghost predicate KeptWithoutSubject(package: string, versions: seq<Manifest>, policy: Policy, now: Time) {
    exists v ::
      v in versions && v.subject.Some? && Kept(package, versions, policy, now, v.name)
      && !Kept(package, versions, policy, now, v.subject.value)
  }

  /** Seen from the plan: some manifest that is preserved is attached to a candidate. */
  predicate KeptReferrerOfCandidate(versions: seq<Manifest>, rows: seq<Row>) {
    exists v :: v in versions && !IsCandidate(rows, v.name) && v.subject.Some? && IsCandidate(rows, v.subject.value)
  }

  ghost predicate LeavesDanglingSubject(versions: seq<Manifest>, order: seq<Digest>, k: nat)
    requires k <= |order|
  {
    exists v :: v in versions && !Deleted(order, k, v.name) && v.subject.Some? && Deleted(order, k, v.subject.value)
  }

  lemma {:induction false} CandidateIff(package: string, versions: seq<Manifest>, policy: Policy, now: Time,
      rows: seq<Row>, name: Digest)
    requires Trusted(package, versions, policy) && IsPlan(package, versions, policy, now, Success(rows))
    requires name in Names(versions)
    ensures IsCandidate(rows, name) <==> !Kept(package, versions, policy, now, name)
  {
    hide Trusted, Kept, IsCandidate, Ground, Roots;
    assert DistinctNames(versions) by { TrustedIsDistinct(package, versions, policy); }
    var i :| 0 <= i < |versions| && versions[i].name == name;
    CandidateRow(versions, rows, i);
    assert Verdict(package, versions, policy, now, versions[i], rows[i]);
  }

  lemma {:induction false} TrustedIsDistinct(package: string, versions: seq<Manifest>, policy: Policy)
    requires Trusted(package, versions, policy)
    ensures DistinctNames(versions) && ReferencesListed(versions)
  {
  }

  lemma {:induction false} KeptReferrerIff(package: string, versions: seq<Manifest>, policy: Policy, now: Time,
      rows: seq<Row>)
    requires Trusted(package, versions, policy) && IsPlan(package, versions, policy, now, Success(rows))
    ensures KeptReferrerOfCandidate(versions, rows) <==> KeptWithoutSubject(package, versions, policy, now)
  {
    hide Trusted, IsPlan, Kept, IsCandidate;
    TrustedIsDistinct(package, versions, policy);
    forall v | v in versions
      ensures IsCandidate(rows, v.name) <==> !Kept(package, versions, policy, now, v.name)
      ensures v.subject.Some? ==>
        (IsCandidate(rows, v.subject.value) <==> !Kept(package, versions, policy, now, v.subject.value))
    {
      var i :| 0 <= i < |versions| && versions[i] == v;
      assert versions[i].name in Names(versions);
      CandidateIff(package, versions, policy, now, rows, v.name);
      if v.subject.Some? {
        CandidateIff(package, versions, policy, now, rows, v.subject.value);
      }
    }
  }

  /**
   Subjects are safe in every prefix exactly when the inventory has no kept manifest attached to one that
   nothing keeps: the plan protects a subject's referrers, but not the subject of a kept referrer.
   */
  lemma {:induction false} SubjectsAreSafeIff(package: string, versions: seq<Manifest>, policy: Policy, now: Time,
    rows: seq<Row>, order: seq<Digest>)
    requires Trusted(package, versions, policy) && IsPlan(package, versions, policy, now, Success(rows))
    requires IsBatch(versions, rows, order)
    ensures (forall k :: 0 <= k <= |order| ==> !LeavesDanglingSubject(versions, order, k))
      <==> !KeptWithoutSubject(package, versions, policy, now)
  {
    hide IsBatch, PreservationIsClosed, Trusted, IsPlan, KeptWithoutSubject;
    PreservedSetIsClosed(package, versions, policy, now, rows);
    KeptReferrerIff(package, versions, policy, now, rows);
    if v :| v in versions && !IsCandidate(rows, v.name) && v.subject.Some? && IsCandidate(rows, v.subject.value) {
      KeptReferrerDangles(versions, rows, order, v);
    } else {
      forall k | 0 <= k <= |order|
        ensures !LeavesDanglingSubject(versions, order, k)
      {
        NoKeptReferrerNoDangling(versions, rows, order, k);
      }
    }
  }

  lemma {:induction false} KeptReferrerDangles(versions: seq<Manifest>, rows: seq<Row>, order: seq<Digest>, v: Manifest)
    requires IsBatch(versions, rows, order)
    requires v in versions && !IsCandidate(rows, v.name) && v.subject.Some? && IsCandidate(rows, v.subject.value)
    ensures LeavesDanglingSubject(versions, order, |order|)
  {
    hide IsBatch, IsCandidate;
    BatchListsCandidates(versions, rows, order, v.name);
    BatchListsCandidates(versions, rows, order, v.subject.value);
    assert order[..|order|] == order;
  }

  lemma {:induction false} BatchListsCandidates(versions: seq<Manifest>, rows: seq<Row>, order: seq<Digest>, d: Digest)
    requires IsBatch(versions, rows, order)
    ensures d in order <==> IsCandidate(rows, d)
  {
    hide Topological, Covers, NoRepeats;
  }

  lemma {:induction false} NoKeptReferrerNoDangling(versions: seq<Manifest>, rows: seq<Row>, order: seq<Digest>, k: nat)
    requires IsBatch(versions, rows, order) && PreservationIsClosed(versions, rows) && k <= |order|
    requires !KeptReferrerOfCandidate(versions, rows)
    ensures !LeavesDanglingSubject(versions, order, k)
  {
    forall v | v in versions && !Deleted(order, k, v.name) && v.subject.Some?
      ensures !Deleted(order, k, v.subject.value)
    {
      if IsCandidate(rows, v.name) {
        PrefixNeverDangles(versions, rows, order, k, v);
      } else {
        assert !IsCandidate(rows, v.subject.value);
        assert v.subject.value !in order;
      }
    }
  }

  /** The steps before deletion starts: plan the package, pick the candidates, order them. */
  method PlanBatch(package: string, versions: seq<Manifest>, policy: Policy, now: Time)
    returns (rows: seq<Row>, ordered: Option<seq<Row>>)
    ensures ordered.Some? ==>
      IsPlan(package, versions, policy, now, Success(rows)) && Trusted(package, versions, policy)
      && IsBatch(versions, rows, Digests(ordered.value)) && PreservationIsClosed(versions, rows)
    ensures Trusted(package, versions, policy) && Roots(package, versions, policy) <= Names(versions) ==>
      |rows| == |versions| && DigestSet(CandidatesOf(rows)) <= Names(versions)
      && (ordered.None? ==> CandidatesOf(rows) == [] || Cyclic(ReferenceGraph(versions, DigestSet(CandidatesOf(rows)))))
  {
    hide PlansExactly, PreservationIsClosed, Cyclic, Roots;
    var plan := PlanPackage(package, versions, policy, now);
    if plan.Failure? {
      return [], None;
    }
    rows := plan.value;
    CandidatesAreListed(versions, rows);
    var candidates := CandidatesOf(rows);
    if candidates == [] {
      return rows, None;
    }
    assert candidates[0] in candidates;
    PreservedSetIsClosed(package, versions, policy, now, rows);
    var order := OrderForDeletion(candidates, versions);
    ordered := if order.Success? then Some(order.value) else None;
  }

  // ---------------------------------------------------------------- a kept referrer that loses its subject

  const RELEASE := Digest(1)
  const BASE := Digest(2)
  const ATTACHMENT := Digest(3)

  /** The canonical release, an old untagged image, and a recent manifest attached to that image. */
  function ExampleInventory(): seq<Manifest> {
    [Manifest(1, RELEASE, true, Some([Text(CANONICAL)]), [], None, Some(0), Some(0)),
     Manifest(2, BASE, true, Some([]), [], None, Some(0), Some(0)),
     Manifest(3, ATTACHMENT, true, Some([]), [], Some(BASE), Some(2 * HOUR), Some(2 * HOUR))]
  }

  function ExamplePolicy(): Policy {
    Policy(["image"], [], [CANONICAL], map["image" := map[CANONICAL := RELEASE]], ["latest", "develop"], 1,
           _ => true, _ => true, _ => false, _ => true)
  }

  function ExampleFile(): PolicyFile {
    PolicyFile(Some(1), Some(false), Some(false), Some(false), Some(2), Some(1), Some(1), ExamplePolicy())
  }

  function ExampleRows(): seq<Row> {
    [Row(1, RELEASE, Preserve, ProtectedDigestOrDescendant), Row(2, BASE, Candidate, ExpiredTemporary),
     Row(3, ATTACHMENT, Preserve, RollbackGracePeriod)]
  }

  /**
   Under a policy that the gate accepts, the plan keeps the attachment and offers its subject; deleting
   the batch leaves the attachment dangling.
   */
  lemma {:induction false} KeptReferrerExample()
    ensures Sound(ExampleFile(), Patterns(_ => true)) && ExampleFile().policy == ExamplePolicy()
    ensures IsPlan("image", ExampleInventory(), ExamplePolicy(), 2 * HOUR, Success(ExampleRows()))
    ensures IsBatch(ExampleInventory(), ExampleRows(), [BASE])
    ensures LeavesDanglingSubject(ExampleInventory(), [BASE], 1)
  {
    hide IsPlan, IsBatch;
    ExampleIsPlan();
    ExampleIsBatch();
    var v := ExampleInventory()[2];
    assert v in ExampleInventory() && [BASE][..1] == [BASE];
    assert !Deleted([BASE], 1, v.name) && Deleted([BASE], 1, v.subject.value);
  }

  lemma {:induction false} ExampleIsBatch()
    ensures IsBatch(ExampleInventory(), ExampleRows(), [BASE])
  {
    var versions, rows := ExampleInventory(), ExampleRows();
    forall d
      ensures d in DigestSet(CandidatesOf(rows)) <==> d == BASE
    {
      CandidateOrigin(rows, d);
      assert rows[1].digest == BASE;
    }
    CandidatesAreListed(versions, rows);
    assert versions[1] in versions;
    LookupDistinct(versions, versions[1]);
  }

  lemma {:induction false} ExamplePins()
    ensures Pins("image", ExamplePolicy()) == map[CANONICAL := RELEASE]
    ensures Pins("image", ExamplePolicy()).Values == {RELEASE}
  {
    assert CANONICAL in Pins("image", ExamplePolicy());
  }

  lemma {:induction false} ExampleNames()
    ensures Names(ExampleInventory()) == {RELEASE, BASE, ATTACHMENT}
  {
    var versions := ExampleInventory();
    assert versions[0].name == RELEASE && versions[1].name == BASE && versions[2].name == ATTACHMENT;
  }

  lemma {:induction false} ExampleTags(v: Manifest, tag: string)
    requires v in ExampleInventory()
    ensures HasTag(v, tag) <==> v == ExampleInventory()[0] && tag == CANONICAL
    ensures NotText !in v.tags.value
  {
  }

  lemma {:induction false} ExampleIsTrusted()
    ensures Trusted("image", ExampleInventory(), ExamplePolicy())
  {
    var versions := ExampleInventory();
    ExamplePins();
    ExampleNames();
    assert versions[0] in versions && HasTag(versions[0], CANONICAL);
    hide HasTag;
    forall v, tag | v in versions
      ensures HasTag(v, tag) ==> v == versions[0]
      ensures NotText !in v.tags.value
    {
      ExampleTags(v, tag);
    }
  }

  lemma {:induction false} ExampleRoots()
    ensures Roots("image", ExampleInventory(), ExamplePolicy()) == {RELEASE}
  {
    var versions, policy := ExampleInventory(), ExamplePolicy();
    ExamplePins();
    forall v | v in versions && (CarriesProtectedTag(v, policy) || NewestRelease(versions, policy, v))
      ensures v.name == RELEASE
    {
      assert IsReleaseImage(v, policy) || CarriesProtectedTag(v, policy);
    }
  }

  lemma {:induction false} ExampleSeeds()
    ensures Seeds("image", ExampleInventory(), ExamplePolicy(), 2 * HOUR) == {RELEASE, ATTACHMENT}
  {
    var versions, policy := ExampleInventory(), ExamplePolicy();
    ExampleRoots();
    hide Roots;
    assert KeptAlone(versions[2], policy, 2 * HOUR) && versions[2] in versions;
  }

  lemma {:induction false} ExampleEdges(m: Digest)
    ensures !Edge(ProtectionGraph(ExampleInventory()), ATTACHMENT, m)
      && !Edge(ProtectionGraph(ExampleInventory()), RELEASE, m)
  {
    ExampleNames();
    EdgeOrigin(ExampleInventory(), ATTACHMENT, m);
    EdgeOrigin(ExampleInventory(), RELEASE, m);
    hide ProtectionGraph, Edge;
  }

  lemma {:induction false} ExampleReach()
    ensures Rooted("image", ExampleInventory(), ExamplePolicy(), RELEASE)
    ensures !Rooted("image", ExampleInventory(), ExamplePolicy(), BASE)
    ensures !Rooted("image", ExampleInventory(), ExamplePolicy(), ATTACHMENT)
    ensures !Kept("image", ExampleInventory(), ExamplePolicy(), 2 * HOUR, BASE)
    ensures Kept("image", ExampleInventory(), ExamplePolicy(), 2 * HOUR, ATTACHMENT)
    ensures Kept("image", ExampleInventory(), ExamplePolicy(), 2 * HOUR, RELEASE)
  {
    var versions := ExampleInventory();
    var g := ProtectionGraph(versions);
    ExampleRoots();
    ExampleSeeds();
    hide Roots, Seeds, Reachable, ProtectionGraph;
    forall m
      ensures !Edge(g, ATTACHMENT, m) && !Edge(g, RELEASE, m)
    {
      ExampleEdges(m);
    }
    hide Edge;
    ReachableIsLeastClosedSet(g, {RELEASE, ATTACHMENT}, {RELEASE, ATTACHMENT});
    ReachableIsLeastClosedSet(g, {RELEASE}, {RELEASE});
    RootsAreReachable(g, {RELEASE, ATTACHMENT}, ATTACHMENT);
    RootsAreReachable(g, {RELEASE, ATTACHMENT}, RELEASE);
    RootsAreReachable(g, {RELEASE}, RELEASE);
  }

  lemma {:induction false} ExampleIsPlan()
    ensures IsPlan("image", ExampleInventory(), ExamplePolicy(), 2 * HOUR, Success(ExampleRows()))
  {
    ExampleIsTrusted();
    ExampleRoots();
    ExampleNames();
    ExampleReach();
    hide Trusted, Roots, Rooted, Kept;
  }
}
