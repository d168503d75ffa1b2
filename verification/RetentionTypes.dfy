/** The registry inventory and the rows of a retention plan. */
module RetentionTypes {
  import opened Wrappers
  import opened ManifestGraph

  type Time = int  // microseconds

  /** An entry of a manifest's tag list; anything but text makes the inventory unusable. */
  datatype TagEntry = Text(tag: string) | NotText

  datatype Manifest = Manifest(
    id: int,
    name: Digest,
    complete: bool,               // the registry document was read and checked
    tags: Option<seq<TagEntry>>,  // None: the inventory holds no tag list
    children: seq<Digest>,
    subject: Option<Digest>,
    created: Option<Time>,        // None: absent or unreadable
    updated: Option<Time>
  )

  datatype Decision = Preserve | Candidate

  datatype Row = Row(id: int, digest: Digest, decision: Decision, reason: Reason)

  datatype Reason =
    | ProtectedOrUnmanagedPackage
    | IncompleteInventory
    | UnsealedOrMissingCanonicalDigest
    | InvalidTagInventory
    | AmbiguousTag
    | CanonicalTagMissingOrMoved
    | MissingManifestChild
    | MissingArtifactSubject
    | ProtectedDigestOrDescendant
    | UnknownAge
    | RollbackGracePeriod
    | UnknownOrPermanentAlias
    | ReferencedByRetainedManifest
    | ExpiredTemporary

  function Names(versions: seq<Manifest>): set<Digest> {
    set i | 0 <= i < |versions| :: versions[i].name
  }

  /** The manifest a dictionary built from `versions` holds under `name`: the last one wins. */
  function Lookup(versions: seq<Manifest>, name: Digest): (v: Manifest)
    requires name in Names(versions)
    ensures v in versions && v.name == name
  {
    var last := versions[|versions| - 1];
    if last.name == name then last else Lookup(versions[..|versions| - 1], name)
  }

  ghost predicate DistinctNames(versions: seq<Manifest>) {
    forall i, j :: 0 <= i < j < |versions| ==> versions[i].name != versions[j].name
  }
}
