/** The policy gate: which policies a retention run accepts, and what a history of them can never lose. */
module RetentionPolicy {
  import opened Wrappers
  import opened ManifestGraph
  import opened RetentionTypes
  import opened RetentionPlan

  /** A policy file; a field that is absent or of another type is missing. */
  datatype PolicyFile = PolicyFile(
    schema: Option<int>,
    deleteReleases: Option<bool>,
    deleteGitTags: Option<bool>,
    deleteReleaseAssets: Option<bool>,
    cacheHours: Option<int>,
    maxDeletionsPerRun: Option<int>,
    imageHours: Option<int>,
    policy: Policy
  )

  datatype PolicyError =
    | CanonicalMustRemain
    | HistoryDeletion
    | ChannelsUnprotected
    | InvalidBoundary
    | CachePolicy
    | BaseIsCandidate
    | OutsideAllowlist
    | InvalidVersion
    | CanonicalRemoved
    | PinChanged
    | UnmanagedPin
    | InvalidPin

  const CANONICAL := "1.1.3"

  /** Package names of the project; version numbers are checked with the policy's release pattern. */
  datatype Patterns = Patterns(inProject: string -> bool)

  predicate Positive(n: Option<int>) {
    n.Some? && n.value >= 1
  }

  predicate KeepsVersions(before: Policy, after: Policy) {
    forall v :: v in before.canonicalVersions ==> v in after.canonicalVersions
  }

  /** Every pin of the earlier policy is a pin of the later one. */
  ghost predicate KeepsPins(before: Policy, after: Policy) {
    forall package, version :: version in Pins(package, before) ==>
      version in Pins(package, after) && Pins(package, after)[version] == Pins(package, before)[version]
  }

  /** What an accepted policy guarantees on its own. */
  ghost predicate Sound(f: PolicyFile, p: Patterns) {
    var policy := f.policy;
    && f.schema == Some(1) && CANONICAL in policy.canonicalVersions
    && f.deleteReleases == Some(false) && f.deleteGitTags == Some(false) && f.deleteReleaseAssets == Some(false)
    && "latest" in policy.protectedTags && "develop" in policy.protectedTags
    && f.cacheHours == Some(2) && Positive(f.imageHours) && Positive(f.maxDeletionsPerRun)
    && (forall n :: n in policy.imagePackages ==> n !in policy.protectedPackages && p.inProject(n))
    && (forall n :: n in policy.protectedPackages ==> p.inProject(n))
    && (forall v :: v in policy.canonicalVersions ==> policy.isRelease(v))
    && (forall n :: n in policy.canonicalDigests ==> n in policy.imagePackages)
    && (forall n, v :: v in Pins(n, policy) ==> policy.isDigest(Pins(n, policy)[v]))
  }

  method AllMembers(names: seq<string>, of: seq<string>) returns (all: bool)
    ensures all <==> forall n :: n in names ==> n in of
  {
    for i := 0 to |names|
      invariant forall j :: 0 <= j < i ==> names[j] in of
    {
      if names[i] !in of {
        return false;
      }
    }
    return true;
  }

  method AllSatisfy(names: seq<string>, accepts: string -> bool) returns (all: bool)
    ensures all <==> forall n :: n in names ==> accepts(n)
  {
    for i := 0 to |names|
      invariant forall j :: 0 <= j < i ==> accepts(names[j])
    {
      if !accepts(names[i]) {
        return false;
      }
    }
    return true;
  }

  method Disjoint(a: seq<string>, b: seq<string>) returns (disjoint: bool)
    ensures disjoint <==> forall n :: n in a ==> n !in b
  {
    for i := 0 to |a|
      invariant forall j :: 0 <= j < i ==> a[j] !in b
    {
      if a[i] in b {
        return false;
      }
    }
    return true;
  }

  /** Whether every pin of `before` for one package is still a pin of `after`. */
  method SamePins(before: map<string, Digest>, after: map<string, Digest>) returns (same: bool)
    ensures same <==> forall v :: v in before ==> v in after && after[v] == before[v]
  {
    var rest := before.Keys;
    while rest != {}
      invariant rest <= before.Keys && forall v :: v in before && v !in rest ==> v in after && after[v] == before[v]
      decreases rest
    {
      var v :| v in rest;
      if v !in after || after[v] != before[v] {
        return false;
      }
      rest := rest - {v};
    }
    return true;
  }

  method HistoryKept(before: Policy, after: Policy) returns (kept: bool)
    ensures kept <==> KeepsPins(before, after)
  {
    var rest := before.canonicalDigests.Keys;
    while rest != {}
      invariant rest <= before.canonicalDigests.Keys
      invariant forall n, v :: n !in rest && v in Pins(n, before) ==>
        v in Pins(n, after) && Pins(n, after)[v] == Pins(n, before)[v]
      decreases rest
    {
      var n :| n in rest;
      var same := SamePins(before.canonicalDigests[n], Pins(n, after));
      if !same {
        return false;
      }
      rest := rest - {n};
    }
    return true;
  }

  method PinsAreDigests(pins: map<string, Digest>, isDigest: Digest -> bool) returns (all: bool)
    ensures all <==> forall v :: v in pins ==> isDigest(pins[v])
  {
    var rest := pins.Keys;
    while rest != {}
      invariant rest <= pins.Keys && forall v :: v in pins && v !in rest ==> isDigest(pins[v])
      decreases rest
    {
      var v :| v in rest;
      if !isDigest(pins[v]) {
        return false;
      }
      rest := rest - {v};
    }
    return true;
  }

  method PinsAreManaged(policy: Policy) returns (r: Result<bool, PolicyError>)
    ensures r.Success? <==>
      && (forall n :: n in policy.canonicalDigests ==> n in policy.imagePackages)
      && (forall n, v :: v in Pins(n, policy) ==> policy.isDigest(Pins(n, policy)[v]))
  {
    var rest := policy.canonicalDigests.Keys;
    while rest != {}
      invariant rest <= policy.canonicalDigests.Keys
      invariant forall n :: n in policy.canonicalDigests && n !in rest ==> n in policy.imagePackages
      invariant forall n, v :: n !in rest && v in Pins(n, policy) ==> policy.isDigest(Pins(n, policy)[v])
      decreases rest
    {
      var n :| n in rest;
      if n !in policy.imagePackages {
        return Failure(UnmanagedPin);
      }
      var digests := PinsAreDigests(policy.canonicalDigests[n], policy.isDigest);
      if !digests {
        assert Pins(n, policy) == policy.canonicalDigests[n];
        assert !forall v :: v in Pins(n, policy) ==> policy.isDigest(Pins(n, policy)[v]);
        return Failure(InvalidPin);
      }
      rest := rest - {n};
    }
    return Success(true);
  }

  /** Accepts a policy exactly if it is sound and keeps everything that the previous one made canonical. */
  method ValidatePolicy(f: PolicyFile, previous: Option<PolicyFile>, p: Patterns)
    returns (r: Result<PolicyFile, PolicyError>)
    ensures r.Success? ==> r.value == f
    ensures r.Success? <==>
      Sound(f, p) && (previous.Some? ==>
        KeepsVersions(previous.value.policy, f.policy) && KeepsPins(previous.value.policy, f.policy))
  {
    var policy := f.policy;
    if f.schema != Some(1) || CANONICAL !in policy.canonicalVersions {
      return Failure(CanonicalMustRemain);
    }
    if f.deleteReleases != Some(false) || f.deleteGitTags != Some(false) || f.deleteReleaseAssets != Some(false) {
      return Failure(HistoryDeletion);
    }
    if "latest" !in policy.protectedTags || "develop" !in policy.protectedTags {
      return Failure(ChannelsUnprotected);
    }
    if !Positive(f.cacheHours) || !Positive(f.imageHours) || !Positive(f.maxDeletionsPerRun) {
      return Failure(InvalidBoundary);
    }
    if f.cacheHours != Some(2) {
      return Failure(CachePolicy);
    }
    var disjoint := Disjoint(policy.imagePackages, policy.protectedPackages);
    if !disjoint {
      return Failure(BaseIsCandidate);
    }
    var images := AllSatisfy(policy.imagePackages, p.inProject);
    var bases := AllSatisfy(policy.protectedPackages, p.inProject);
    if !images || !bases {
      return Failure(OutsideAllowlist);
    }
    var numbered := AllSatisfy(policy.canonicalVersions, policy.isRelease);
    if !numbered {
      return Failure(InvalidVersion);
    }
    if previous.Some? {
      var versions := AllMembers(previous.value.policy.canonicalVersions, policy.canonicalVersions);
      if !versions {
        return Failure(CanonicalRemoved);
      }
      var kept := HistoryKept(previous.value.policy, policy);
      if !kept {
        return Failure(PinChanged);
      }
    }
    var managed := PinsAreManaged(policy);
    if managed.Failure? {
      return Failure(managed.error);
    }
    return Success(f);
  }

  /** Each policy was accepted with the one before it as the previous policy. */
  ghost predicate History(files: seq<PolicyFile>, p: Patterns) {
    && (forall i :: 0 <= i < |files| ==> Sound(files[i], p))
    && (forall i, j :: 0 <= i && j == i + 1 && j < |files| ==>
          KeepsVersions(files[i].policy, files[j].policy) && KeepsPins(files[i].policy, files[j].policy))
  }

  /** Over a whole history of accepted policies no canonical version is dropped and no pin ever changes. */
  lemma {:induction false} CanonicalIsForever(files: seq<PolicyFile>, p: Patterns, i: nat, j: nat)
    requires History(files, p) && i <= j < |files|
    ensures KeepsVersions(files[i].policy, files[j].policy) && KeepsPins(files[i].policy, files[j].policy)
    ensures CANONICAL in files[j].policy.canonicalVersions
    decreases j - i
  {
    hide KeepsVersions, KeepsPins, Sound;
    assert CANONICAL in files[j].policy.canonicalVersions by {
      SoundKeepsCanonical(files[j], p);
    }
    if i == j {
      KeepsItself(files[i].policy);
    } else {
      CanonicalIsForever(files, p, i, j - 1);
      KeepsChain(files[i].policy, files[j - 1].policy, files[j].policy);
    }
  }

  lemma {:induction false} SoundKeepsCanonical(f: PolicyFile, p: Patterns)
    requires Sound(f, p)
    ensures CANONICAL in f.policy.canonicalVersions
  {
  }

  lemma {:induction false} KeepsItself(a: Policy)
    ensures KeepsVersions(a, a) && KeepsPins(a, a)
  {
  }

  lemma {:induction false} KeepsChain(a: Policy, b: Policy, c: Policy)
    requires KeepsVersions(a, b) && KeepsPins(a, b) && KeepsVersions(b, c) && KeepsPins(b, c)
    ensures KeepsVersions(a, c) && KeepsPins(a, c)
  {
  }

  /**
   Under an accepted policy a plan never offers a manifest pinned by an earlier accepted policy, of any
   package, nor anything of a base package.
   */
  lemma {:induction false} PinnedIsNeverOffered(files: seq<PolicyFile>, p: Patterns, i: nat, j: nat, package: string,
    versions: seq<Manifest>, now: Time, rows: seq<Row>, k: nat)
    requires History(files, p) && i <= j < |files| && k < |rows|
    requires IsPlan(package, versions, files[j].policy, now, Success(rows))
    requires |rows| == |versions| && rows[k].decision == Candidate
    ensures rows[k].digest !in Pins(package, files[i].policy).Values
    ensures package !in files[j].policy.protectedPackages
  {
    CanonicalIsForever(files, p, i, j);
    CandidateIsUnpinned(package, versions, files[j].policy, now, rows, k);
    var before, after := Pins(package, files[i].policy), Pins(package, files[j].policy);
    forall d | d in before.Values
      ensures d in after.Values
    {
      var v :| v in before && before[v] == d;
      assert v in after && after[v] == d;
    }
  }

  lemma {:induction false} CandidateIsUnpinned(package: string, versions: seq<Manifest>, policy: Policy, now: Time,
      rows: seq<Row>, k: nat)
    requires IsPlan(package, versions, policy, now, Success(rows)) && |rows| == |versions|
    requires k < |rows| && rows[k].decision == Candidate
    ensures rows[k].digest !in Pins(package, policy).Values && package !in policy.protectedPackages
  {
    hide Seeds, Ground, Kept, Roots;
    assert rows[k] in rows;
    assert Trusted(package, versions, policy);
    assert Verdict(package, versions, policy, now, versions[k], rows[k]);
    hide Trusted, IsPlan, PlansExactly, Verdict;
    if rows[k].digest in Pins(package, policy).Values {
      PinnedIsKept(package, versions, policy, now, rows[k].digest);
    }
  }

  lemma {:induction false} PinnedIsKept(package: string, versions: seq<Manifest>, policy: Policy, now: Time, d: Digest)
    requires d in Pins(package, policy).Values
    ensures Kept(package, versions, policy, now, d)
  {
    assert d in Roots(package, versions, policy);
    assert d in Seeds(package, versions, policy, now);
    hide Roots, Seeds;
    RootsAreReachable(ProtectionGraph(versions), Seeds(package, versions, policy, now), d);
  }
}
