/**
 The retention plan of one registry package: which manifests are kept, and why.

 Regular expressions of the policy are predicates on tags; ages are exact timestamps.
 */
module RetentionPlan {
  import opened Wrappers
  import opened ManifestGraph
  import opened RetentionTypes

  const HOUR: Time := 3_600_000_000

  datatype Policy = Policy(
    imagePackages: seq<string>,
    protectedPackages: seq<string>,
    canonicalVersions: seq<string>,
    canonicalDigests: map<string, map<string, Digest>>,
    protectedTags: seq<string>,
    imageHours: nat,
    isDigest: Digest -> bool,    // the name has the form of a digest
    isRelease: string -> bool,   // three dotted numbers
    isSealed: string -> bool,    // "canonical" or "base", alone or before '-', '_' or '.'
    isTemporary: string -> bool  // some candidate pattern matches
  )

  /** A pinned digest of a version outside the canonical list is missing from the inventory. */
  datatype PlanError = UnlistedPin

  // ---------------------------------------------------------------- what the plan is measured against

  ghost predicate Unmanaged(package: string, policy: Policy) {
    package in policy.protectedPackages || package !in policy.imagePackages
  }

  predicate Usable(v: Manifest, policy: Policy) {
    policy.isDigest(v.name) && v.complete && v.tags.Some?
  }

  ghost predicate CompleteInventory(versions: seq<Manifest>, policy: Policy) {
    DistinctNames(versions) && forall v :: v in versions ==> Usable(v, policy)
  }

  function Pins(package: string, policy: Policy): map<string, Digest> {
    if package in policy.canonicalDigests then policy.canonicalDigests[package] else map[]
  }

  predicate SealedPins(package: string, versions: seq<Manifest>, policy: Policy) {
    forall version :: version in policy.canonicalVersions ==>
      version in Pins(package, policy) && Pins(package, policy)[version] in Names(versions)
  }

  predicate HasTag(v: Manifest, tag: string) {
    v.tags.Some? && Text(tag) in v.tags.value
  }

  ghost predicate TextTagsOnly(versions: seq<Manifest>) {
    forall v :: v in versions && v.tags.Some? ==> NotText !in v.tags.value
  }

  ghost predicate UnambiguousTags(versions: seq<Manifest>) {
    forall v, w, tag :: v in versions && w in versions && HasTag(v, tag) && HasTag(w, tag) ==> v.name == w.name
  }

  /** Every canonical version is still a tag of exactly the manifest it is pinned to. */
  ghost predicate CanonicalTagsInPlace(package: string, versions: seq<Manifest>, policy: Policy) {
    forall version :: version in policy.canonicalVersions && version in Pins(package, policy) ==>
      exists v :: v in versions && HasTag(v, version) && v.name == Pins(package, policy)[version]
  }

  ghost predicate ReferencesListed(versions: seq<Manifest>) {
    forall v :: v in versions ==>
      && (forall c :: c in v.children ==> c in Names(versions))
      && (v.subject.Some? ==> v.subject.value in Names(versions))
  }

  /** The inventory is trusted enough for any manifest to become a candidate. */
  ghost predicate Trusted(package: string, versions: seq<Manifest>, policy: Policy) {
    && !Unmanaged(package, policy)
    && CompleteInventory(versions, policy)
    && SealedPins(package, versions, policy)
    && TextTagsOnly(versions)
    && UnambiguousTags(versions)
    && CanonicalTagsInPlace(package, versions, policy)
    && ReferencesListed(versions)
  }

  /** Why the tags of the inventory are refused: the kind of fault of the first manifest that has one. */
  ghost predicate TagFault(versions: seq<Manifest>, reason: Reason) {
    exists i :: 0 <= i < |versions| && FirstTagFault(versions, i, reason)
  }

  ghost predicate FirstTagFault(versions: seq<Manifest>, i: nat, reason: Reason)
    requires i < |versions|
  {
    && TextTagsOnly(versions[..i]) && UnambiguousTags(versions[..i])
    && match reason
       case InvalidTagInventory => HasUnreadableTag(versions[i])
       case AmbiguousTag => !HasUnreadableTag(versions[i]) && CarriesTakenTag(versions, i)
       case _ => false
  }

  ghost predicate HasUnreadableTag(v: Manifest) {
    v.tags.Some? && NotText in v.tags.value
  }

  ghost predicate CarriesTakenTag(versions: seq<Manifest>, i: nat)
    requires i < |versions|
  {
    exists v, tag :: v in versions[..i] && HasTag(v, tag) && HasTag(versions[i], tag) && v.name != versions[i].name
  }

  /** Why the references of the inventory are refused: what the first manifest with a missing one lacks. */
  ghost predicate ReferenceFault(versions: seq<Manifest>, reason: Reason) {
    exists i :: 0 <= i < |versions| && FirstReferenceFault(versions, i, reason)
  }

  ghost predicate FirstReferenceFault(versions: seq<Manifest>, i: nat, reason: Reason)
    requires i < |versions|
  {
    && ReferencesUpTo(versions, i)
    && match reason
       case MissingManifestChild => !ChildrenListed(versions[i], Names(versions))
       case MissingArtifactSubject =>
         ChildrenListed(versions[i], Names(versions)) && !SubjectListed(versions[i], Names(versions))
       case _ => false
  }

  /** `reason` is the first check, in order, that an untrusted inventory fails. */
  ghost predicate Distrusted(package: string, versions: seq<Manifest>, policy: Policy, reason: Reason) {
    if Unmanaged(package, policy) then reason == ProtectedOrUnmanagedPackage
    else if !CompleteInventory(versions, policy) then reason == IncompleteInventory
    else if !SealedPins(package, versions, policy) then reason == UnsealedOrMissingCanonicalDigest
    else if !TextTagsOnly(versions) || !UnambiguousTags(versions) then TagFault(versions, reason)
    else if !CanonicalTagsInPlace(package, versions, policy) then reason == CanonicalTagMissingOrMoved
    else ReferenceFault(versions, reason)
  }

  /** An inventory with a reason to distrust it is untrusted, and has no second reason. */
  lemma {:induction false} DistrustHasOneReason(package: string, versions: seq<Manifest>, policy: Policy, r: Reason,
      s: Reason)
    requires Distrusted(package, versions, policy, r)
    ensures !Trusted(package, versions, policy)
    ensures Distrusted(package, versions, policy, s) ==> r == s
  {
    if ReferenceFault(versions, r) {
      var i :| 0 <= i < |versions| && FirstReferenceFault(versions, i, r);
      assert versions[i] in versions;
    }
    if Distrusted(package, versions, policy, s) {
      if TagFault(versions, r) && TagFault(versions, s) {
        FirstTagFaultIsUnique(versions, r, s);
      }
      if ReferenceFault(versions, r) && ReferenceFault(versions, s) {
        FirstReferenceFaultIsUnique(versions, r, s);
      }
    }
  }

  lemma {:induction false} FirstTagFaultIsUnique(versions: seq<Manifest>, r: Reason, s: Reason)
    requires TagFault(versions, r) && TagFault(versions, s)
    ensures r == s
  {
    var i :| 0 <= i < |versions| && FirstTagFault(versions, i, r);
    var j :| 0 <= j < |versions| && FirstTagFault(versions, j, s);
    FaultSpoilsLaterPrefixes(versions, i, j, r);
    FaultSpoilsLaterPrefixes(versions, j, i, s);
  }

  lemma {:induction false} FaultSpoilsLaterPrefixes(versions: seq<Manifest>, i: nat, j: nat, reason: Reason)
    requires i < |versions| && j <= |versions| && FirstTagFault(versions, i, reason)
    ensures i < j ==> !(TextTagsOnly(versions[..j]) && UnambiguousTags(versions[..j]))
  {
    if j <= i {
      return;
    }
    assert versions[..j][i] == versions[i] && versions[i] in versions[..j];
    if reason == AmbiguousTag {
      var v, tag :| v in versions[..i] && HasTag(v, tag) && HasTag(versions[i], tag) && v.name != versions[i].name;
      var k :| 0 <= k < i && versions[..i][k] == v;
      assert versions[..j][k] == v && v in versions[..j];
    }
  }

  lemma {:induction false} FirstReferenceFaultIsUnique(versions: seq<Manifest>, r: Reason, s: Reason)
    requires ReferenceFault(versions, r) && ReferenceFault(versions, s)
    ensures r == s
  {
    var i :| 0 <= i < |versions| && FirstReferenceFault(versions, i, r);
    var j :| 0 <= j < |versions| && FirstReferenceFault(versions, j, s);
    if i < j {
      ReferencesUpToAt(versions, j, i);
    } else if j < i {
      ReferencesUpToAt(versions, i, j);
    }
  }

  /** The children that the first `n` manifests list under `name`. */
  function ChildrenOf(versions: seq<Manifest>, n: nat, name: Digest): set<Digest>
    requires n <= |versions|
  {
    if n == 0 then {}
    else
      ChildrenOf(versions, n - 1, name)
      + if versions[n - 1].name == name then Elements(versions[n - 1].children) else {}
  }

  /** The manifests among the first `n` whose subject is `name`. */
  function AttachedTo(versions: seq<Manifest>, n: nat, name: Digest): set<Digest>
    requires n <= |versions|
  {
    if n == 0 then {}
    else
      AttachedTo(versions, n - 1, name)
      + if versions[n - 1].subject == Some(name) then {versions[n - 1].name} else {}
  }

  lemma {:induction false} ChildOrigin(versions: seq<Manifest>, n: nat, name: Digest, c: Digest)
    requires n <= |versions|
    ensures c in ChildrenOf(versions, n, name) <==> exists i ::
      0 <= i < n && versions[i].name == name && c in versions[i].children
  {
    if n > 0 {
      ChildOrigin(versions, n - 1, name, c);
    }
  }

  lemma {:induction false} AttachmentOrigin(versions: seq<Manifest>, n: nat, name: Digest, d: Digest)
    requires n <= |versions|
    ensures d in AttachedTo(versions, n, name) <==> exists i ::
      0 <= i < n && versions[i].subject == Some(name) && versions[i].name == d
  {
    if n > 0 {
      AttachmentOrigin(versions, n - 1, name, d);
    }
  }

  /** A kept manifest keeps its children and the manifests attached to it. */
  function ProtectionEdges(versions: seq<Manifest>, name: Digest): set<Digest> {
    ChildrenOf(versions, |versions|, name) + AttachedTo(versions, |versions|, name)
  }

  function ProtectionGraph(versions: seq<Manifest>): Graph {
    map name | name in Names(versions) :: ProtectionEdges(versions, name)
  }

  predicate ProtectedTag(tag: string, policy: Policy) {
    tag in policy.protectedTags || tag in policy.canonicalVersions || policy.isSealed(tag)
  }

  predicate CarriesProtectedTag(v: Manifest, policy: Policy) {
    v.tags.Some? && exists e :: e in v.tags.value && e.Text? && ProtectedTag(e.tag, policy)
  }

  predicate IsReleaseImage(v: Manifest, policy: Policy) {
    v.tags.Some? && exists e :: e in v.tags.value && e.Text? && policy.isRelease(e.tag)
  }

  /** An unreadable creation date counts as older than every date. */
  predicate CreatedBefore(v: Manifest, w: Manifest) {
    w.created.Some? && (v.created.None? || v.created.value < w.created.value)
  }

  /** `v` is the first of the most recently created release images. */
  ghost predicate NewestRelease(versions: seq<Manifest>, policy: Policy, v: Manifest) {
    exists i :: 0 <= i < |versions| && versions[i] == v && IsReleaseImage(v, policy)
      && (forall j :: 0 <= j < |versions| && IsReleaseImage(versions[j], policy) ==> !CreatedBefore(v, versions[j]))
      && (forall j :: 0 <= j < i && IsReleaseImage(versions[j], policy) ==> CreatedBefore(versions[j], v))
  }

  ghost function Roots(package: string, versions: seq<Manifest>, policy: Policy): set<Digest> {
    Pins(package, policy).Values
    + (set v | v in versions && CarriesProtectedTag(v, policy) :: v.name)
    + (set v | v in versions && NewestRelease(versions, policy, v) :: v.name)
  }

  function Latest(a: Time, b: Time): Time {
    if a < b then b else a
  }

  predicate UnknownAgeOf(v: Manifest) {
    v.created.None? || v.updated.None?
  }

  predicate Recent(v: Manifest, policy: Policy, now: Time) {
    v.created.Some? && v.updated.Some? && Latest(v.created.value, v.updated.value) >= now - policy.imageHours * HOUR
  }

  predicate UnknownAlias(v: Manifest, policy: Policy) {
    v.tags.Some? && exists e :: e in v.tags.value && e.Text? && !policy.isTemporary(e.tag)
  }

  /** The manifest is kept on its own account, whatever points at it. */
  predicate KeptAlone(v: Manifest, policy: Policy, now: Time) {
    UnknownAgeOf(v) || Recent(v, policy, now) || UnknownAlias(v, policy)
  }

  ghost function Seeds(package: string, versions: seq<Manifest>, policy: Policy, now: Time): set<Digest> {
    Roots(package, versions, policy) + set v | v in versions && KeptAlone(v, policy, now) :: v.name
  }

  ghost predicate Rooted(package: string, versions: seq<Manifest>, policy: Policy, name: Digest) {
    Reachable(ProtectionGraph(versions), Roots(package, versions, policy), name)
  }

  ghost predicate Kept(package: string, versions: seq<Manifest>, policy: Policy, now: Time, name: Digest) {
    Reachable(ProtectionGraph(versions), Seeds(package, versions, policy, now), name)
  }

  /** The first ground on which the manifest is kept, in the order in which the plan looks for one. */
  ghost function Ground(package: string, versions: seq<Manifest>, policy: Policy, now: Time, v: Manifest): Reason {
    if Rooted(package, versions, policy, v.name) then ProtectedDigestOrDescendant
    else if UnknownAgeOf(v) then UnknownAge
    else if Recent(v, policy, now) then RollbackGracePeriod
    else if UnknownAlias(v, policy) then UnknownOrPermanentAlias
    else if Kept(package, versions, policy, now, v.name) then ReferencedByRetainedManifest
    else ExpiredTemporary
  }

  /** One row per manifest, in inventory order. */
  ghost predicate Covers(rows: seq<Row>, versions: seq<Manifest>) {
    |rows| == |versions| && forall i :: 0 <= i < |rows| ==>
      rows[i].digest == versions[i].name && rows[i].id == versions[i].id
  }

  // ---------------------------------------------------------------- closures

  /** What a closure loop has to deliver: the least closed superset of its seeds. */
  ghost predicate IsClosure(g: Graph, seeds: set<Digest>, nodes: set<Digest>) {
    && seeds <= nodes
    && Closed(g, nodes)
    && forall n :: n in nodes ==> Reachable(g, seeds, n)
  }

  lemma {:induction false} ClosureIsReachability(g: Graph, seeds: set<Digest>, nodes: set<Digest>)
    requires IsClosure(g, seeds, nodes)
    ensures forall n :: n in nodes <==> Reachable(g, seeds, n)
  {
    ReachableIsLeastClosedSet(g, seeds, nodes);
  }

  /** Closing a closed set with extra seeds is closing all the seeds together. */
  lemma {:induction false} ClosuresCompose(g: Graph, roots: set<Digest>, extra: set<Digest>, inner: set<Digest>,
      outer: set<Digest>)
    requires IsClosure(g, roots, inner) && IsClosure(g, inner + extra, outer)
    ensures IsClosure(g, roots + extra, outer)
  {
    var all := roots + extra;
    forall n | n in inner + extra
      ensures Reachable(g, all, n)
    {
      if n in extra {
        RootsAreReachable(g, all, n);
      } else {
        MoreRootsReachMore(g, roots, all, n);
      }
    }
    ReachExtends(g, all, inner + extra, outer);
  }

  lemma {:induction false} MoreRootsReachMore(g: Graph, roots: set<Digest>, more: set<Digest>, n: Digest)
    requires Reachable(g, roots, n) && roots <= more
    ensures Reachable(g, more, n)
  {
    var walk :| WalkFrom(g, roots, walk, n);
    assert WalkFrom(g, more, walk, n);
  }

  /** What is reachable from reachable nodes is reachable. */
  lemma {:induction false} ReachExtends(g: Graph, roots: set<Digest>, seeds: set<Digest>, outer: set<Digest>)
    requires IsClosure(g, seeds, outer)
    requires forall n :: n in seeds ==> Reachable(g, roots, n)
    ensures forall n :: n in outer ==> Reachable(g, roots, n)
  {
    var reached := set n | n in outer && Reachable(g, roots, n);
    forall n, m | n in reached && Edge(g, n, m)
      ensures m in reached
    {
      EdgeExtendsReach(g, roots, n, m);
    }
    ReachableIsLeastClosedSet(g, seeds, reached);
  }

  /** The elements of a set in some order. */
  method Listed(nodes: set<Digest>) returns (list: seq<Digest>)
    ensures forall n :: n in list <==> n in nodes
  {
    list := [];
    var rest := nodes;
    while rest != {}
      invariant rest <= nodes
      invariant forall n :: n in list <==> n in nodes && n !in rest
      decreases rest
    {
      var n :| n in rest;
      list, rest := list + [n], rest - {n};
    }
  }

  lemma {:induction false} TargetsAreReached(g: Graph, roots: set<Digest>, node: Digest)
    requires WellFormed(g) && node in g && Reachable(g, roots, node)
    ensures forall n :: n in g[node] ==> n in g && Reachable(g, roots, n)
  {
    forall n | n in g[node]
      ensures n in g && Reachable(g, roots, n)
    {
      assert Edge(g, node, n);
      EdgeExtendsReach(g, roots, node, n);
    }
  }

  /**
   Depth-first closure from the roots. A node without an entry in the graph ends the plan: it
   can only be a pin that the inventory does not list.
   */
  method CloseOverRoots(g: Graph, roots: set<Digest>) returns (r: Option<set<Digest>>)
    requires WellFormed(g)
    ensures r.Some? <==> roots <= g.Keys
    ensures r.Some? ==> IsClosure(g, roots, r.value)
  {
    var closed: set<Digest> := {};
    var pending := Listed(roots);
    forall n | n in roots
      ensures Reachable(g, roots, n)
    {
      RootsAreReachable(g, roots, n);
    }
    while pending != []
      invariant closed <= g.Keys
      invariant forall n :: n in pending || n in closed ==> Reachable(g, roots, n)
      invariant forall n :: n in roots ==> n in closed || n in pending
      invariant forall n :: n in pending ==> n in g || n in roots
      invariant forall n, m :: n in closed && Edge(g, n, m) ==> m in closed || m in pending
      decreases g.Keys - closed, |pending|
    {
      var node, rest := pending[|pending| - 1], pending[..|pending| - 1];
      assert pending == rest + [node] && node in pending;
      if node in closed {
        pending := rest;
      } else if node !in g {
        return None;
      } else {
        var next := Listed(g[node]);
        TargetsAreReached(g, roots, node);
        closed, pending := closed + {node}, rest + next;
      }
    }
    return Some(closed);
  }

  /** Between two rounds of the second closure: only queued nodes may still have targets left out. */
  ghost predicate Spreading(g: Graph, seeds: set<Digest>, retained: set<Digest>, pending: seq<Digest>) {
    && seeds <= retained <= g.Keys
    && (forall n :: n in pending ==> n in retained)
    && (forall n :: n in retained ==> Reachable(g, seeds, n))
    && (forall n, m :: n in retained && n !in pending && Edge(g, n, m) ==> m in retained)
  }

  lemma {:induction false} SpreadOnce(g: Graph, seeds: set<Digest>, retained: set<Digest>, rest: seq<Digest>,
      node: Digest, added: seq<Digest>)
    requires WellFormed(g) && Spreading(g, seeds, retained, rest + [node])
    requires forall n :: n in added <==> n in g[node] - retained
    ensures Spreading(g, seeds, retained + g[node], rest + added)
  {
    assert node in rest + [node];
    TargetsAreReached(g, seeds, node);
    forall n, m | n in retained + g[node] && n !in rest + added && Edge(g, n, m)
      ensures m in retained + g[node]
    {
      if n != node {
        assert n in retained && n !in rest + [node];
      }
    }
  }

  /** Closure from the retained manifests; a node is queued only when it is first retained. */
  method CloseOverRetained(g: Graph, seeds: set<Digest>) returns (retained: set<Digest>)
    requires WellFormed(g) && seeds <= g.Keys
    ensures retained <= g.Keys && IsClosure(g, seeds, retained)
  {
    retained := seeds;
    var pending := Listed(seeds);
    forall n | n in seeds
      ensures Reachable(g, seeds, n)
    {
      RootsAreReachable(g, seeds, n);
    }
    while pending != []
      invariant Spreading(g, seeds, retained, pending)
      decreases g.Keys - retained, |pending|
    {
      var node, rest := pending[|pending| - 1], pending[..|pending| - 1];
      assert pending == rest + [node] && node in pending;
      var added := Listed(g[node] - retained);
      SpreadOnce(g, seeds, retained, rest, node, added);
      RetainedGrows(g, node, retained, added);
      retained, pending := retained + g[node], rest + added;
    }
  }

  lemma {:induction false} RetainedGrows(g: Graph, node: Digest, retained: set<Digest>, added: seq<Digest>)
    requires WellFormed(g) && node in g && retained <= g.Keys
    requires forall n :: n in added <==> n in g[node] - retained
    ensures if added == [] then retained + g[node] == retained else g.Keys - (retained + g[node]) < g.Keys - retained
  {
    if added == [] {
      assert g[node] <= retained by {
        assert forall n :: n in g[node] ==> n !in added;
      }
    } else {
      assert added[0] in added;
      assert Edge(g, node, added[0]);
    }
  }

  // ---------------------------------------------------------------- the plan

  function PreserveAll(versions: seq<Manifest>, reason: Reason): (rows: seq<Row>)
    ensures Covers(rows, versions)
    ensures forall row :: row in rows ==> row.decision == Preserve && row.reason == reason
  {
    seq(|versions|, i requires 0 <= i < |versions| => Row(versions[i].id, versions[i].name, Preserve, reason))
  }

  /** `aliases` maps each tag of `versions` to the only manifest that carries it. */
  ghost predicate IsAliasTable(versions: seq<Manifest>, aliases: map<string, Digest>) {
    && (forall v, tag :: v in versions && HasTag(v, tag) ==> tag in aliases && aliases[tag] == v.name)
    && (forall tag :: tag in aliases ==> exists v :: v in versions && HasTag(v, tag) && v.name == aliases[tag])
  }

  /** Enters the tags of one manifest, or reports a tag that another manifest already carries. */
  method AddTags(aliases: map<string, Digest>, name: Digest, tags: seq<TagEntry>)
    returns (r: Option<map<string, Digest>>)
    requires NotText !in tags
    ensures r.None? <==> exists tag :: Text(tag) in tags && tag in aliases && aliases[tag] != name
    ensures r.Some? ==> forall tag :: tag in r.value <==> tag in aliases || Text(tag) in tags
    ensures r.Some? ==> forall tag :: tag in r.value ==>
      r.value[tag] == if Text(tag) in tags then name else aliases[tag]
  {
    var table := aliases;
    for j := 0 to |tags|
      invariant forall tag :: tag in table <==> tag in aliases || Text(tag) in tags[..j]
      invariant forall tag :: tag in table ==> table[tag] == if Text(tag) in tags[..j] then name else aliases[tag]
      invariant forall tag :: Text(tag) in tags[..j] && tag in aliases ==> aliases[tag] == name
    {
      assert tags[j] in tags;
      var tag := tags[j].tag;
      assert tags[..j + 1] == tags[..j] + [tags[j]];
      if tag in table && table[tag] != name {
        return None;
      }
      table := table[tag := name];
    }
    assert tags[..|tags|] == tags;
    return Some(table);
  }

  method CollectAliases(versions: seq<Manifest>, policy: Policy) returns (r: Result<map<string, Digest>, Reason>)
    requires CompleteInventory(versions, policy)
    ensures r.Success? <==> TextTagsOnly(versions) && UnambiguousTags(versions)
    ensures r.Success? ==> IsAliasTable(versions, r.value)
    ensures r.Failure? ==> TagFault(versions, r.error)
  {
    var aliases: map<string, Digest> := map[];
    for i := 0 to |versions|
      invariant TextTagsOnly(versions[..i])
      invariant IsAliasTable(versions[..i], aliases)
    {
      var v := versions[i];
      assert v in versions;
      if NotText in v.tags.value {
        assert FirstTagFault(versions, i, InvalidTagInventory);
        return Failure(InvalidTagInventory);
      }
      assert versions[..i + 1] == versions[..i] + [v];
      var added := AddTags(aliases, v.name, v.tags.value);
      if added.None? {
        var tag :| Text(tag) in v.tags.value && tag in aliases && aliases[tag] != v.name;
        TwoCarriers(versions, i, aliases, tag);
        assert FirstTagFault(versions, i, AmbiguousTag);
        return Failure(AmbiguousTag);
      }
      AliasTableGrows(versions[..i], v, aliases, added.value);
      aliases := added.value;
    }
    assert versions[..|versions|] == versions;
    return Success(aliases);
  }

  lemma {:induction false} TwoCarriers(versions: seq<Manifest>, i: nat, aliases: map<string, Digest>, tag: string)
    requires i < |versions| && IsAliasTable(versions[..i], aliases)
    requires HasTag(versions[i], tag) && tag in aliases && aliases[tag] != versions[i].name
    ensures !UnambiguousTags(versions) && CarriesTakenTag(versions, i)
  {
    var w :| w in versions[..i] && HasTag(w, tag) && w.name == aliases[tag];
    assert versions[i] in versions && w in versions;
  }

  lemma {:induction false} AliasTableGrows(versions: seq<Manifest>, v: Manifest, aliases: map<string, Digest>,
      table: map<string, Digest>)
    requires IsAliasTable(versions, aliases) && v.tags.Some?
    requires forall tag :: tag in table <==> tag in aliases || Text(tag) in v.tags.value
    requires forall tag :: tag in table ==> table[tag] == if Text(tag) in v.tags.value then v.name else aliases[tag]
    requires forall tag :: Text(tag) in v.tags.value && tag in aliases ==> aliases[tag] == v.name
    ensures IsAliasTable(versions + [v], table)
  {
    forall tag | tag in table
      ensures exists w :: w in versions + [v] && HasTag(w, tag) && w.name == table[tag]
    {
      if Text(tag) in v.tags.value {
        assert v in versions + [v] && HasTag(v, tag);
      } else {
        var w :| w in versions && HasTag(w, tag) && w.name == aliases[tag];
        assert w in versions + [v];
      }
    }
  }

  /** The release image to keep for rollback, if there is one. */
  method FindNewestRelease(versions: seq<Manifest>, policy: Policy) returns (r: Option<Manifest>)
    requires DistinctNames(versions)
    ensures forall v :: NewestRelease(versions, policy, v) <==> r == Some(v)
  {
    var best: Option<nat> := None;
    for i := 0 to |versions|
      invariant best.None? <==> forall j :: 0 <= j < i ==> !IsReleaseImage(versions[j], policy)
      invariant best.Some? ==> best.value < i && IsReleaseImage(versions[best.value], policy)
      invariant best.Some? ==> forall j :: 0 <= j < i && IsReleaseImage(versions[j], policy) ==>
        !CreatedBefore(versions[best.value], versions[j])
          && (j < best.value ==> CreatedBefore(versions[j], versions[best.value]))
    {
      if IsReleaseImage(versions[i], policy) && (best.None? || CreatedBefore(versions[best.value], versions[i])) {
        best := Some(i);
      }
    }
    r := if best.None? then None else Some(versions[best.value]);
  }

  ghost predicate ReferencesOf(v: Manifest, listed: set<Digest>) {
    ChildrenListed(v, listed) && SubjectListed(v, listed)
  }

  ghost predicate ChildrenListed(v: Manifest, listed: set<Digest>) {
    forall c :: c in v.children ==> c in listed
  }

  ghost predicate SubjectListed(v: Manifest, listed: set<Digest>) {
    v.subject.Some? ==> v.subject.value in listed
  }

  /** Checks the references of one manifest and enters it under its subject. */
  method Attach(edges: Graph, v: Manifest) returns (r: Result<Graph, Reason>)
    requires v.name in edges
    ensures Attached(edges, v, r)
  {
    if exists c :: c in edges[v.name] && c !in edges {
      return Failure(MissingManifestChild);
    }
    if v.subject.None? {
      return Success(edges);
    }
    if v.subject.value !in edges {
      return Failure(MissingArtifactSubject);
    }
    return Success(edges[v.subject.value := edges[v.subject.value] + {v.name}]);
  }

  /** The protection edges, or what the first manifest with an unlisted reference lacks. */
  ghost predicate BuiltFrom(versions: seq<Manifest>, r: Result<Graph, Reason>) {
    match r
    case Success(g) => ReferencesListed(versions) && g == ProtectionGraph(versions) && WellFormed(g)
    case Failure(reason) => !ReferencesListed(versions) && ReferenceFault(versions, reason)
  }

  method BuildEdges(versions: seq<Manifest>) returns (r: Result<Graph, Reason>)
    requires DistinctNames(versions)
    ensures BuiltFrom(versions, r)
  {
    var edges: Graph := map name | name in Names(versions) :: ChildrenOf(versions, |versions|, name);
    for i := 0 to |versions|
      invariant EdgesUpTo(versions, i, edges) && ReferencesUpTo(versions, i)
    {
      r := Attach(edges, versions[i]);
      AfterAttach(versions, i, edges, r);
      if r.Failure? {
        return;
      }
      edges := r.value;
    }
    EdgesAreComplete(versions, edges);
    return Success(edges);
  }

  /** What `Attach` delivers for one manifest. */
  ghost predicate Attached(edges: Graph, v: Manifest, r: Result<Graph, Reason>)
    requires v.name in edges
  {
    match r
    case Failure(reason) =>
      || (reason == MissingManifestChild && exists c :: c in edges[v.name] && c !in edges)
      || (reason == MissingArtifactSubject && (forall c :: c in edges[v.name] ==> c in edges)
          && v.subject.Some? && v.subject.value !in edges)
    case Success(next) =>
      && (forall c :: c in edges[v.name] ==> c in edges)
      && (v.subject.Some? ==> v.subject.value in edges)
      && next.Keys == edges.Keys
      && forall n :: n in edges ==> next[n] == edges[n] + if v.subject == Some(n) then {v.name} else {}
  }

  lemma {:induction false} AfterAttach(versions: seq<Manifest>, i: nat, edges: Graph, r: Result<Graph, Reason>)
    requires i < |versions| && DistinctNames(versions)
    requires EdgesUpTo(versions, i, edges) && ReferencesUpTo(versions, i) && Attached(edges, versions[i], r)
    ensures if r.Success? then EdgesUpTo(versions, i + 1, r.value) && ReferencesUpTo(versions, i + 1)
      else BuiltFrom(versions, r)
  {
    OneManifestChecked(versions, i, edges);
    if r.Success? {
      EdgesGrow(versions, i, edges, r.value);
    } else {
      assert FirstReferenceFault(versions, i, r.error);
    }
  }

  /** The edges once the subjects of the first `i` manifests have been entered. */
  ghost predicate EdgesUpTo(versions: seq<Manifest>, i: nat, edges: Graph)
    requires i <= |versions|
  {
    edges.Keys == Names(versions) && forall n :: n in edges ==>
      edges[n] == ChildrenOf(versions, |versions|, n) + AttachedTo(versions, i, n)
  }

  ghost predicate ReferencesUpTo(versions: seq<Manifest>, n: nat)
    requires n <= |versions|
  {
    n > 0 ==> ReferencesOf(versions[n - 1], Names(versions)) && ReferencesUpTo(versions, n - 1)
  }

  lemma {:induction false} ReferencesUpToAt(versions: seq<Manifest>, n: nat, j: nat)
    requires j < n <= |versions| && ReferencesUpTo(versions, n)
    ensures ReferencesOf(versions[j], Names(versions))
  {
    if j < n - 1 {
      ReferencesUpToAt(versions, n - 1, j);
    }
  }

  lemma {:induction false} EdgesGrow(versions: seq<Manifest>, i: nat, edges: Graph, next: Graph)
    requires i < |versions| && EdgesUpTo(versions, i, edges) && next.Keys == edges.Keys
    requires forall n :: n in edges ==>
      next[n] == edges[n] + if versions[i].subject == Some(n) then {versions[i].name} else {}
    ensures EdgesUpTo(versions, i + 1, next)
  {
  }

  /** Manifests attached to a node are listed, so only its own references can be missing. */
  lemma {:induction false} OneManifestChecked(versions: seq<Manifest>, i: nat, edges: Graph)
    requires i < |versions| && DistinctNames(versions) && EdgesUpTo(versions, i, edges)
    ensures (forall c :: c in edges[versions[i].name] ==> c in edges) <==> ChildrenListed(versions[i], Names(versions))
    ensures ReferencesListed(versions) ==> ReferencesOf(versions[i], Names(versions))
  {
    forall c
      ensures c in edges[versions[i].name]
        <==> c in versions[i].children || c in AttachedTo(versions, i, versions[i].name)
      ensures c in AttachedTo(versions, i, versions[i].name) ==> c in Names(versions)
    {
      ChildOrigin(versions, |versions|, versions[i].name, c);
      AttachmentOrigin(versions, i, versions[i].name, c);
    }
    assert versions[i] in versions;
  }

  lemma {:induction false} EdgesAreComplete(versions: seq<Manifest>, edges: Graph)
    requires EdgesUpTo(versions, |versions|, edges)
    requires ReferencesUpTo(versions, |versions|)
    ensures ReferencesListed(versions) && edges == ProtectionGraph(versions) && WellFormed(edges)
  {
    forall j | 0 <= j < |versions|
      ensures ReferencesOf(versions[j], Names(versions))
    {
      ReferencesUpToAt(versions, |versions|, j);
    }
    EdgesStayListed(versions);
  }

  lemma {:induction false} EdgesStayListed(versions: seq<Manifest>)
    requires ReferencesListed(versions)
    ensures WellFormed(ProtectionGraph(versions))
  {
    var g := ProtectionGraph(versions);
    forall n, m | Edge(g, n, m)
      ensures m in g
    {
      EdgeOrigin(versions, n, m);
    }
  }

  /** `v` is the reason for the protection edge from `name` to `target`. */
  predicate Refers(v: Manifest, name: Digest, target: Digest) {
    (v.name == name && target in v.children) || (v.subject == Some(name) && v.name == target)
  }

  /** An edge leads to a child, or back from a subject to the manifest attached to it. */
  lemma {:induction false} EdgeOrigin(versions: seq<Manifest>, name: Digest, target: Digest)
    requires name in Names(versions)
    ensures Edge(ProtectionGraph(versions), name, target) <==> exists v :: v in versions && Refers(v, name, target)
  {
    ChildOrigin(versions, |versions|, name, target);
    AttachmentOrigin(versions, |versions|, name, target);
    if target in ChildrenOf(versions, |versions|, name) {
      var i :| 0 <= i < |versions| && versions[i].name == name && target in versions[i].children;
      assert Refers(versions[i], name, target);
    }
    if target in AttachedTo(versions, |versions|, name) {
      var i :| 0 <= i < |versions| && versions[i].subject == Some(name) && versions[i].name == target;
      assert Refers(versions[i], name, target);
    }
    if v :| v in versions && Refers(v, name, target) {
      var i :| 0 <= i < |versions| && versions[i] == v;
    }
  }

  lemma {:induction false} AliasesShowCanonicalTags(package: string, versions: seq<Manifest>, policy: Policy,
      aliases: map<string, Digest>)
    requires IsAliasTable(versions, aliases) && SealedPins(package, versions, policy)
    ensures CanonicalTagsInPlace(package, versions, policy) <==>
      forall version :: version in policy.canonicalVersions ==>
        version in aliases && aliases[version] == Pins(package, policy)[version]
  {
    forall version | version in policy.canonicalVersions
      ensures (version in aliases && aliases[version] == Pins(package, policy)[version]) <==>
        exists v :: v in versions && HasTag(v, version) && v.name == Pins(package, policy)[version]
    {
    }
  }

  /** The row of one manifest before references from other retained manifests are followed. */
  function FirstRow(v: Manifest, closed: set<Digest>, policy: Policy, now: Time): Row {
    if v.name in closed then Row(v.id, v.name, Preserve, ProtectedDigestOrDescendant)
    else if UnknownAgeOf(v) then Row(v.id, v.name, Preserve, UnknownAge)
    else if Recent(v, policy, now) then Row(v.id, v.name, Preserve, RollbackGracePeriod)
    else if UnknownAlias(v, policy) then Row(v.id, v.name, Preserve, UnknownOrPermanentAlias)
    else Row(v.id, v.name, Candidate, ExpiredTemporary)
  }

  ghost predicate FirstRows(versions: seq<Manifest>, closed: set<Digest>, policy: Policy, now: Time, rows: seq<Row>) {
    |rows| == |versions| && forall j :: 0 <= j < |rows| ==> rows[j] == FirstRow(versions[j], closed, policy, now)
  }

  /** Rows every manifest and collects the names of the preserved ones. */
  method ClassifyAlone(versions: seq<Manifest>, closed: set<Digest>, policy: Policy, now: Time)
    returns (rows: seq<Row>, kept: set<Digest>)
    ensures FirstRows(versions, closed, policy, now, rows)
    ensures kept == PreservedNames(rows, |rows|)
  {
    rows, kept := [], {};
    for i := 0 to |versions|
      invariant |rows| == i && forall j :: 0 <= j < i ==> rows[j] == FirstRow(versions[j], closed, policy, now)
      invariant kept == PreservedNames(rows, i)
    {
      var row := FirstRow(versions[i], closed, policy, now);
      PreservedPrefix(rows, row);
      rows := rows + [row];
      if row.decision == Preserve {
        kept := kept + {row.digest};
      }
    }
  }

  ghost predicate FinalRows(first: seq<Row>, retained: set<Digest>, rows: seq<Row>) {
    |rows| == |first| && forall j :: 0 <= j < |rows| ==> rows[j] == FinalRow(first[j], retained)
  }

  /** Keeps the candidates that a retained manifest reaches, overwriting their rows. */
  method KeepReferenced(first: seq<Row>, retained: set<Digest>) returns (rows: seq<Row>)
    ensures FinalRows(first, retained, rows)
  {
    rows := first;
    for i := 0 to |rows|
      invariant |rows| == |first| && forall j :: 0 <= j < i ==> rows[j] == FinalRow(first[j], retained)
      invariant forall j :: i <= j < |rows| ==> rows[j] == first[j]
    {
      if rows[i].digest in retained && rows[i].decision == Candidate {
        rows := rows[i := rows[i].(decision := Preserve, reason := ReferencedByRetainedManifest)];
      }
    }
  }

  function FinalRow(row: Row, retained: set<Digest>): Row {
    if row.digest in retained && row.decision == Candidate
    then row.(decision := Preserve, reason := ReferencedByRetainedManifest) else row
  }

  function PreservedNames(rows: seq<Row>, n: nat): set<Digest>
    requires n <= |rows|
  {
    if n == 0 then {}
    else PreservedNames(rows, n - 1) + if rows[n - 1].decision == Preserve then {rows[n - 1].digest} else {}
  }

  lemma {:induction false} PreservedSlice(rows: seq<Row>, more: seq<Row>, n: nat)
    requires n <= |rows| && rows <= more
    ensures PreservedNames(rows, n) == PreservedNames(more, n)
  {
    if n > 0 {
      PreservedSlice(rows, more, n - 1);
    }
  }

  lemma {:induction false} PreservedPrefix(rows: seq<Row>, row: Row)
    ensures PreservedNames(rows + [row], |rows| + 1)
      == PreservedNames(rows, |rows|) + if row.decision == Preserve then {row.digest} else {}
  {
    PreservedSlice(rows, rows + [row], |rows|);
  }

  function KeptAloneNames(versions: seq<Manifest>, policy: Policy, now: Time): set<Digest> {
    set v | v in versions && KeptAlone(v, policy, now) :: v.name
  }

  lemma {:induction false} PreservedOrigin(rows: seq<Row>, n: nat, d: Digest)
    requires n <= |rows|
    ensures d in PreservedNames(rows, n) <==> exists i ::
      0 <= i < n && rows[i].digest == d && rows[i].decision == Preserve
  {
    if n > 0 {
      PreservedOrigin(rows, n - 1, d);
    }
  }

  lemma {:induction false} PreservedAreSeeds(versions: seq<Manifest>, closed: set<Digest>, policy: Policy, now: Time,
      rows: seq<Row>)
    requires closed <= Names(versions)
    requires FirstRows(versions, closed, policy, now, rows)
    ensures PreservedNames(rows, |rows|) == closed + KeptAloneNames(versions, policy, now)
    ensures PreservedNames(rows, |rows|) <= Names(versions)
  {
    forall d
      ensures d in PreservedNames(rows, |rows|) <==> d in closed + KeptAloneNames(versions, policy, now)
      ensures d in PreservedNames(rows, |rows|) ==> d in Names(versions)
    {
      PreservedOrigin(rows, |rows|, d);
      if d in closed {
        var i :| 0 <= i < |versions| && versions[i].name == d;
        assert rows[i].digest == d;
      } else if v :| v in versions && KeptAlone(v, policy, now) && v.name == d {
        var i :| 0 <= i < |versions| && versions[i] == v;
        assert rows[i].digest == d;
      }
    }
  }

  /** The row states the first ground for keeping the manifest, and offers it only if nothing keeps it. */
  ghost predicate Verdict(package: string, versions: seq<Manifest>, policy: Policy, now: Time, v: Manifest, row: Row) {
    && row.reason == Ground(package, versions, policy, now, v)
    && (row.decision == Candidate <==> !Kept(package, versions, policy, now, v.name))
  }

  /** What a plan promises about a package whose inventory is trusted. */
  ghost predicate PlansExactly(package: string, versions: seq<Manifest>, policy: Policy, now: Time, rows: seq<Row>) {
    Covers(rows, versions) && forall i :: 0 <= i < |rows| ==>
      Verdict(package, versions, policy, now, versions[i], rows[i])
  }

  lemma {:induction false} RowIsExact(package: string, versions: seq<Manifest>, policy: Policy, now: Time,
                                      closed: set<Digest>, retained: set<Digest>, v: Manifest)
    requires IsClosure(ProtectionGraph(versions), Roots(package, versions, policy), closed)
    requires IsClosure(ProtectionGraph(versions), Seeds(package, versions, policy, now), retained)
    requires v in versions && closed <= retained
    ensures Verdict(package, versions, policy, now, v, FinalRow(FirstRow(v, closed, policy, now), retained))
  {
    ClosureIsReachability(ProtectionGraph(versions), Roots(package, versions, policy), closed);
    ClosureIsReachability(ProtectionGraph(versions), Seeds(package, versions, policy, now), retained);
    if KeptAlone(v, policy, now) {
      assert v.name in KeptAloneNames(versions, policy, now);
    }
  }

  lemma {:induction false} RowsAreExact(package: string, versions: seq<Manifest>, policy: Policy, now: Time,
                                        closed: set<Digest>, retained: set<Digest>, first: seq<Row>, rows: seq<Row>)
    requires FirstRows(versions, closed, policy, now, first) && FinalRows(first, retained, rows)
    requires forall v :: v in versions ==>
      Verdict(package, versions, policy, now, v, FinalRow(FirstRow(v, closed, policy, now), retained))
    ensures PlansExactly(package, versions, policy, now, rows)
  {
    hide Verdict;
    forall i | 0 <= i < |rows|
      ensures Verdict(package, versions, policy, now, versions[i], rows[i])
    {
      assert versions[i] in versions;
    }
  }

  lemma {:induction false} ClassifiedExactly(package: string, versions: seq<Manifest>, policy: Policy, now: Time,
      closed: set<Digest>, retained: set<Digest>, first: seq<Row>, rows: seq<Row>)
    requires IsClosure(ProtectionGraph(versions), Roots(package, versions, policy), closed)
    requires IsClosure(ProtectionGraph(versions), closed + KeptAloneNames(versions, policy, now), retained)
    requires FirstRows(versions, closed, policy, now, first) && FinalRows(first, retained, rows)
    ensures PlansExactly(package, versions, policy, now, rows)
  {
    hide Verdict, Reachable, Closed;
    ClosuresCompose(ProtectionGraph(versions), Roots(package, versions, policy), KeptAloneNames(versions, policy, now),
      closed, retained);
    assert Roots(package, versions, policy) + KeptAloneNames(versions, policy, now)
      == Seeds(package, versions, policy, now);
    forall v | v in versions
      ensures Verdict(package, versions, policy, now, v, FinalRow(FirstRow(v, closed, policy, now), retained))
    {
      RowIsExact(package, versions, policy, now, closed, retained, v);
    }
    RowsAreExact(package, versions, policy, now, closed, retained, first, rows);
  }

  /** The protection edges of a package whose inventory is trusted, or why it is not. */
  method TrustedEdges(package: string, versions: seq<Manifest>, policy: Policy) returns (r: Result<Graph, Reason>)
    ensures r.Success? <==> Trusted(package, versions, policy)
    ensures r.Failure? ==> Distrusted(package, versions, policy, r.error)
    ensures r.Success? ==> r.value == ProtectionGraph(versions) && WellFormed(r.value)
  {
    if package in policy.protectedPackages || package !in policy.imagePackages {
      return Failure(ProtectedOrUnmanagedPackage);
    }
    var distinct := AllDistinct(versions);
    if !distinct || exists v :: v in versions && !Usable(v, policy) {
      return Failure(IncompleteInventory);
    }
    if !SealedPins(package, versions, policy) {
      return Failure(UnsealedOrMissingCanonicalDigest);
    }
    var aliases := CollectAliases(versions, policy);
    if aliases.Failure? {
      return Failure(aliases.error);
    }
    var inPlace := CanonicalTagsMatch(package, versions, policy, aliases.value);
    if !inPlace {
      return Failure(CanonicalTagMissingOrMoved);
    }
    r := BuildEdges(versions);
  }

  method CanonicalTagsMatch(package: string, versions: seq<Manifest>, policy: Policy, aliases: map<string, Digest>)
    returns (inPlace: bool)
    requires IsAliasTable(versions, aliases) && SealedPins(package, versions, policy)
    ensures inPlace <==> CanonicalTagsInPlace(package, versions, policy)
  {
    AliasesShowCanonicalTags(package, versions, policy, aliases);
    var pins := Pins(package, policy);
    for i := 0 to |policy.canonicalVersions|
      invariant forall j :: 0 <= j < i ==>
        policy.canonicalVersions[j] in aliases
          && aliases[policy.canonicalVersions[j]] == pins[policy.canonicalVersions[j]]
    {
      var version := policy.canonicalVersions[i];
      assert version in policy.canonicalVersions;
      if version !in aliases || aliases[version] != pins[version] {
        return false;
      }
    }
    return true;
  }

  ghost predicate KeepsEverything(package: string, versions: seq<Manifest>, policy: Policy, rows: seq<Row>) {
    forall row :: row in rows ==> row.decision == Preserve && Distrusted(package, versions, policy, row.reason)
  }

  /** What the plan of one package promises. */
  ghost predicate IsPlan(package: string, versions: seq<Manifest>, policy: Policy, now: Time,
      r: Result<seq<Row>, PlanError>) {
    match r
    case Failure(_) =>
      versions != [] && Trusted(package, versions, policy) && !(Roots(package, versions, policy) <= Names(versions))
    case Success(rows) =>
      && Covers(rows, versions)
      && (versions == [] || !Trusted(package, versions, policy) || Roots(package, versions, policy) <= Names(versions))
      && (!Trusted(package, versions, policy) ==> KeepsEverything(package, versions, policy, rows))
      && (Trusted(package, versions, policy) ==> PlansExactly(package, versions, policy, now, rows))
  }

  /**
   Plans one package. An untrusted inventory keeps everything; otherwise exactly the manifests
   that no root and no individually kept manifest reaches become candidates.
   */
  method PlanPackage(package: string, versions: seq<Manifest>, policy: Policy, now: Time)
    returns (r: Result<seq<Row>, PlanError>)
    ensures IsPlan(package, versions, policy, now, r)
  {
    if versions == [] {
      return Success([]);
    }
    var edges := TrustedEdges(package, versions, policy);
    if edges.Failure? {
      return Success(PreserveAll(versions, edges.error));
    }
    var roots := CollectRoots(package, versions, policy);
    var closed := CloseOverRoots(edges.value, roots);
    if closed.None? {
      return Failure(UnlistedPin);
    }
    ClosureStaysListed(edges.value, roots, closed.value);
    var first, kept := ClassifyAlone(versions, closed.value, policy, now);
    PreservedAreSeeds(versions, closed.value, policy, now, first);
    var retained := CloseOverRetained(edges.value, kept);
    var rows := KeepReferenced(first, retained);
    ClassifiedExactly(package, versions, policy, now, closed.value, retained, first, rows);
    return Success(rows);
  }

  lemma {:induction false} ClosureStaysListed(g: Graph, roots: set<Digest>, closed: set<Digest>)
    requires WellFormed(g) && roots <= g.Keys && IsClosure(g, roots, closed)
    ensures closed <= g.Keys
  {
    ReachableIsLeastClosedSet(g, roots, g.Keys);
  }

  method CollectRoots(package: string, versions: seq<Manifest>, policy: Policy) returns (roots: set<Digest>)
    requires DistinctNames(versions)
    ensures roots == Roots(package, versions, policy)
  {
    var newest := FindNewestRelease(versions, policy);
    roots := Pins(package, policy).Values + set v | v in versions && CarriesProtectedTag(v, policy) :: v.name;
    if newest.Some? {
      assert NewestRelease(versions, policy, newest.value) && newest.value in versions;
      roots := roots + {newest.value.name};
    }
  }

  method AllDistinct(versions: seq<Manifest>) returns (distinct: bool)
    ensures distinct <==> DistinctNames(versions)
  {
    var seen: set<Digest> := {};
    for i := 0 to |versions|
      invariant forall d :: d in seen <==> exists j :: 0 <= j < i && versions[j].name == d
      invariant forall j, k :: 0 <= j < k < i ==> versions[j].name != versions[k].name
    {
      if versions[i].name in seen {
        return false;
      }
      seen := seen + {versions[i].name};
    }
    return true;
  }
}
