/** The captured review archive: a reference-only manifest plus deduplicated content-addressed
    blobs (v2), and the legacy single-document form (v1).  JSON text is a parameter. */
module Archive {
  import opened Prelude
  import opened Ordering
  import opened Paths
  import opened Capture

  const V1 := "mulgae-captured-review-archive.v1"
  const V2 := "mulgae-captured-review-archive.v2"

  lemma VersionsDiffer()
    ensures V1 != V2
  {
    assert V1[32] == '1' && V2[32] == '2';
  }

  // ---------------------------------------------------------------- wire forms

  datatype ContentRef = ContentRef(sha256: string, blob: string)

  datatype FileRef = FileRef(path: string, sha256: string, blob: string, mediaType: string) {
    function Content(): ContentRef { ContentRef(sha256, blob) }
  }

  datatype SideRef = SideRef(side: string, files: seq<FileRef>)

  datatype Manifest = Manifest(
    schemaVersion: string, identity: IdentityWire, target: ContentRef, policy: string, snapshot: seq<FileRef>,
    context: Option<ContentRef>, hasContext: bool, evidence: seq<SideRef>)

  /** A capture with its bytes inline: what a v1 document holds, and what a v2 manifest becomes
      once its references are resolved. */
  datatype PlainFile = PlainFile(path: string, sha256: string, bytes: Bytes, mediaType: string)

  datatype PlainSide = PlainSide(side: string, files: seq<PlainFile>)

  datatype Plain = Plain(
    identity: IdentityWire, target: Bytes, policy: string, snapshot: seq<PlainFile>, context: Bytes,
    hasContext: bool, evidence: seq<PlainSide>)

  datatype ManifestV1 = ManifestV1(schemaVersion: string, plain: Plain)

  datatype Json = Json(
    version: Bytes -> Option<string>,       // the schema_version of a decodable document, None when absent
    encode: Manifest -> Bytes,
    decode: Bytes -> Option<Manifest>,      // one document, no unknown fields, nothing after it
    encodeV1: ManifestV1 -> Bytes,
    decodeV1: Bytes -> Option<ManifestV1>)

  // ---------------------------------------------------------------- content addresses

  const BLOB_PREFIX := "blobs/sha256-"

  /** capturedBlobPath */
  function BlobPath(sha256: string): string {
    if ValidSHA256(sha256) then BLOB_PREFIX + sha256[7..] else ""
  }

  function DigestOfPath(path: string): string {
    if HasPrefix(path, BLOB_PREFIX) then "sha256:" + path[|BLOB_PREFIX|..] else ""
  }

  lemma BlobPathIsPath(sha256: string)
    requires ValidSHA256(sha256)
    ensures ValidPath(BlobPath(sha256)) && DigestOfPath(BlobPath(sha256)) == sha256
  {
    var name := "sha256-" + sha256[7..];
    assert PlainComponent(name);
    PlainComponentIsPath(name);
    PathUnder("blobs", name);
    assert BlobPath(sha256) == "blobs" + "/" + name;
  }

  function RefOf(host: Host, contents: Bytes): ContentRef {
    ContentRef(host.sha256(contents), if contents == [] then "" else BlobPath(host.sha256(contents)))
  }

  /** Empty contents are named by their digest alone; others are filed under its hexadecimal text. */
  lemma RefNamesContent(host: Host, contents: Bytes, hex: string)
    requires |hex| == 64 && AllLowerHex(hex) && host.sha256(contents) == "sha256:" + hex
    ensures RefOf(host, contents) == ContentRef("sha256:" + hex, if contents == [] then "" else "blobs/sha256-" + hex)
  {
    assert ("sha256:" + hex)[7..] == hex;
  }

  // ---------------------------------------------------------------- the projection of a material

  function FileRefs(host: Host, files: seq<SnapshotFile>): (refs: seq<FileRef>)
    ensures |refs| == |files|
  {
    seq(|files|, i requires 0 <= i < |files| =>
      var ref := RefOf(host, files[i].bytes); FileRef(files[i].path, ref.sha256, ref.blob, files[i].mediaType))
  }

  function SideRefs(host: Host, evidence: Evidence, sides: seq<string>): seq<SideRef> {
    if sides == [] then []
    else
      (if sides[0] in evidence then [SideRef(sides[0], FileRefs(host, evidence[sides[0]]))] else [])
      + SideRefs(host, evidence, sides[1..])
  }

  ghost function Project(host: Host, material: Material): Manifest {
    Manifest(V2, material.target.identity.wire, RefOf(host, material.target.bytes), material.snapshot.policy,
             FileRefs(host, material.snapshot.files),
             if material.hasProjectContext then Some(RefOf(host, material.projectContext)) else None,
             material.hasProjectContext, SideRefs(host, EvidenceOf(host, material), SIDES))
  }

  function FileContents(files: seq<SnapshotFile>): (contents: seq<Bytes>)
    ensures |contents| == |files|
  {
    seq(|files|, i requires 0 <= i < |files| => files[i].bytes)
  }

  function SideContents(evidence: Evidence, sides: seq<string>): seq<Bytes> {
    if sides == [] then []
    else (if sides[0] in evidence then FileContents(evidence[sides[0]]) else []) + SideContents(evidence, sides[1..])
  }

  /** Everything the projection stores, in the order in which it is stored. */
  ghost function Contents(host: Host, material: Material): seq<Bytes> {
    [material.target.bytes] + FileContents(material.snapshot.files)
    + (if material.hasProjectContext then [material.projectContext] else [])
    + SideContents(EvidenceOf(host, material), SIDES)
  }

  /** Two stored contents that differ although their digests agree. */
  ghost predicate Collides(host: Host, contents: seq<Bytes>) {
    exists a, b :: a in contents && b in contents && Clash(host, a, b)
  }

  predicate Clash(host: Host, a: Bytes, b: Bytes) {
    a != [] && b != [] && a != b && host.sha256(a) == host.sha256(b)
  }

  /** The blobs by path: the first content stored under a path stays. */
  function BlobMap(host: Host, contents: seq<Bytes>): map<string, Bytes> {
    if contents == [] then map[]
    else Store(host, BlobMap(host, contents[..|contents| - 1]), contents[|contents| - 1])
  }

  function Store(host: Host, blobs: map<string, Bytes>, contents: Bytes): map<string, Bytes> {
    var path := BlobPath(host.sha256(contents));
    if contents == [] || path in blobs then blobs else blobs[path := contents]
  }

  lemma {:induction false} BlobMapKeys(host: Host, contents: seq<Bytes>)
    requires DigestIsPrinted(host)
    ensures forall path :: path in BlobMap(host, contents) ==>
              var body := BlobMap(host, contents)[path];
              body != [] && body in contents && path == BlobPath(host.sha256(body))
    ensures forall c :: c in contents && c != [] ==> BlobPath(host.sha256(c)) in BlobMap(host, contents)
  {
    if contents != [] {
      var front := contents[..|contents| - 1];
      BlobMapKeys(host, front);
      assert contents == front + [contents[|contents| - 1]];
    }
  }

  lemma BlobMapHolds(host: Host, contents: seq<Bytes>, c: Bytes)
    requires DigestIsPrinted(host) && !Collides(host, contents) && c in contents && c != []
    ensures BlobPath(host.sha256(c)) in BlobMap(host, contents)
    ensures BlobMap(host, contents)[BlobPath(host.sha256(c))] == c
  {
    BlobMapKeys(host, contents);
    var body := BlobMap(host, contents)[BlobPath(host.sha256(c))];
    BlobPathIsPath(host.sha256(c));
    BlobPathIsPath(host.sha256(body));
    assert !Clash(host, c, body);
  }

  // ---------------------------------------------------------------- references of a manifest

  datatype BlobRef = BlobRef(path: string, sha256: string)

  function Flatten<T>(groups: seq<seq<T>>): seq<T> {
    if groups == [] then [] else groups[0] + Flatten(groups[1..])
  }

  function ContentRefs(files: seq<FileRef>): (refs: seq<ContentRef>)
    ensures |refs| == |files|
  {
    seq(|files|, i requires 0 <= i < |files| => files[i].Content())
  }

  function SideContentRefs(sides: seq<SideRef>): seq<ContentRef> {
    if sides == [] then [] else ContentRefs(sides[0].files) + SideContentRefs(sides[1..])
  }

  function ManifestRefs(wire: Manifest): seq<ContentRef> {
    [wire.target] + (if wire.context.Some? then [wire.context.value] else [])
    + ContentRefs(wire.snapshot) + SideContentRefs(wire.evidence)
  }

  predicate EmptyRef(host: Host, ref: ContentRef) {
    ref.blob == "" && ref.sha256 == host.sha256([])
  }

  predicate WellFormedRef(host: Host, ref: ContentRef) {
    EmptyRef(host, ref) || (ValidPath(ref.blob) && ref.blob == BlobPath(ref.sha256))
  }

  ghost function RefPaths(host: Host, refs: seq<ContentRef>): set<string> {
    set ref | ref in refs && !EmptyRef(host, ref) :: ref.blob
  }

  function RefList(paths: seq<string>): (refs: seq<BlobRef>)
    ensures |refs| == |paths|
  {
    seq(|paths|, i requires 0 <= i < |paths| => BlobRef(paths[i], DigestOfPath(paths[i])))
  }

  /** capturedManifestReferences: the distinct references in ascending path order. */
  ghost function References(host: Host, wire: Manifest): Result<seq<BlobRef>> {
    if forall ref :: ref in ManifestRefs(wire) ==> WellFormedRef(host, ref)
    then Ok(RefList(Listing(RefPaths(host, ManifestRefs(wire)))))
    else Err
  }

  // ---------------------------------------------------------------- the archive

  datatype Blob = Blob(path: string, sha256: string, bytes: Bytes)

  predicate ValidBlob(host: Host, blob: Blob) {
    ValidPath(blob.path) && blob.path == BlobPath(blob.sha256) && blob.sha256 == host.sha256(blob.bytes)
  }

  function BlobsOf(host: Host, paths: seq<string>, blobs: map<string, Bytes>): (list: seq<Blob>)
    requires forall path :: path in paths ==> path in blobs
    ensures |list| == |paths|
  {
    seq(|paths|, i requires 0 <= i < |paths| => Blob(paths[i], host.sha256(blobs[paths[i]]), blobs[paths[i]]))
  }

  datatype ReviewArchive = ReviewArchive(manifest: Bytes, blobs: seq<Blob>)

  ghost function SortedBlobs(host: Host, blobs: map<string, Bytes>): seq<Blob> {
    assert forall path :: path in Listing(blobs.Keys) ==> path in Elements(Listing(blobs.Keys));
    BlobsOf(host, Listing(blobs.Keys), blobs)
  }

  /** NewCapturedReviewArchive fails for an invalid material and for a digest collision only. */
  ghost function Archived(host: Host, json: Json, material: Material): Result<ReviewArchive> {
    if ValidMaterial(host, material) && !Collides(host, Contents(host, material))
    then Ok(ReviewArchive(json.encode(Project(host, material)),
                          SortedBlobs(host, BlobMap(host, Contents(host, material)))))
    else Err
  }

  // ---------------------------------------------------------------- restoring

  function Resolve(host: Host, contents: map<string, Bytes>, ref: ContentRef): Result<Bytes> {
    if EmptyRef(host, ref) then Ok([])
    else if ref.blob in contents && host.sha256(contents[ref.blob]) == ref.sha256 then Ok(contents[ref.blob])
    else Err
  }

  function ResolveFiles(host: Host, contents: map<string, Bytes>, files: seq<FileRef>): Result<seq<PlainFile>> {
    if files == [] then Ok([])
    else
      match (Resolve(host, contents, files[0].Content()), ResolveFiles(host, contents, files[1..]))
      case (Ok(body), Ok(rest)) => Ok([PlainFile(files[0].path, files[0].sha256, body, files[0].mediaType)] + rest)
      case _ => Err
  }

  function ResolveSides(host: Host, contents: map<string, Bytes>, sides: seq<SideRef>): Result<seq<PlainSide>> {
    if sides == [] then Ok([])
    else
      match (ResolveFiles(host, contents, sides[0].files), ResolveSides(host, contents, sides[1..]))
      case (Ok(files), Ok(rest)) => Ok([PlainSide(sides[0].side, files)] + rest)
      case _ => Err
  }

  function ResolveContext(host: Host, contents: map<string, Bytes>, wire: Manifest): Result<Bytes> {
    if wire.hasContext && wire.context.Some? then Resolve(host, contents, wire.context.value)
    else if wire.hasContext || wire.context.Some? then Err
    else Ok([])
  }

  function ResolveManifest(host: Host, contents: map<string, Bytes>, wire: Manifest): Result<Plain> {
    match (Resolve(host, contents, wire.target), ResolveFiles(host, contents, wire.snapshot),
           ResolveContext(host, contents, wire), ResolveSides(host, contents, wire.evidence))
    case (Ok(target), Ok(snapshot), Ok(context), Ok(evidence)) =>
      Ok(Plain(wire.identity, target, wire.policy, snapshot, context, wire.hasContext, evidence))
    case _ => Err
  }

  function RebuildFile(host: Host, file: PlainFile): Result<SnapshotFile> {
    NewFile(host, file.path, file.bytes, file.sha256, if file.mediaType == "" then TEXT else file.mediaType)
  }

  function RebuildFiles(host: Host, files: seq<PlainFile>): Result<seq<SnapshotFile>> {
    if files == [] then Ok([])
    else
      match (RebuildFile(host, files[0]), RebuildFiles(host, files[1..]))
      case (Ok(file), Ok(rest)) => Ok([file] + rest)
      case _ => Err
  }

  function RebuildSides(host: Host, sides: seq<PlainSide>, known: Evidence): Result<Evidence> {
    if sides == [] then Ok(known)
    else if sides[0].side !in SIDES || sides[0].side in known then Err
    else
      match RebuildFiles(host, sides[0].files)
      case Ok(files) => RebuildSides(host, sides[1..], known[sides[0].side := files])
      case Err => Err
  }

  /** Constructor-owned values rebuilt from inline bytes; exclusions are not part of a capture. */
  ghost function Rebuild(host: Host, plain: Plain): Result<Material> {
    match NewTargetIdentity(host, plain.identity)
    case Err => Err
    case Ok(identity) =>
      match (TargetFromIdentity(host, identity, plain.target), RebuildFiles(host, plain.snapshot),
             RebuildSides(host, plain.evidence, map[]))
      case (Ok(target), Ok(files), Ok(sides)) =>
        (match (Request(host, files, plain.policy), if sides == map[] then Ok(sides) else NewEvidence(host, sides))
         case (Ok(snapshot), Ok(evidence)) =>
           NewMaterial(host, target, snapshot, plain.context, plain.hasContext, evidence)
         case _ => Err)
      case _ => Err
  }

  /** The blobs handed to a restore, by path; refused when invalid or duplicate. */
  function Gather(host: Host, blobs: seq<Blob>): Result<map<string, Bytes>> {
    if blobs == [] then Ok(map[])
    else
      var last := blobs[|blobs| - 1];
      match Gather(host, blobs[..|blobs| - 1])
      case Ok(known) =>
        if ValidBlob(host, last) && last.path !in known then Ok(known[last.path := last.bytes]) else Err
      case Err => Err
  }

  predicate Covers(host: Host, contents: map<string, Bytes>, refs: seq<BlobRef>) {
    && |contents| == |refs|
    && forall ref :: ref in refs ==> ref.path in contents && host.sha256(contents[ref.path]) == ref.sha256
  }

  function Decoded(json: Json, manifest: Bytes): Result<Manifest> {
    match json.decode(manifest)
    case Some(wire) => if wire.schemaVersion == V2 then Ok(wire) else Err
    case None => Err
  }

  ghost function RestoredV1(host: Host, json: Json, document: Bytes): Result<Material> {
    match json.decodeV1(document)
    case Some(wire) => if wire.schemaVersion == V1 then Rebuild(host, wire.plain) else Err
    case None => Err
  }

  ghost function RestoredV2(host: Host, wire: Manifest, blobs: seq<Blob>): Result<Material> {
    match (References(host, wire), Gather(host, blobs))
    case (Ok(refs), Ok(contents)) =>
      if !Covers(host, contents, refs) then Err
      else (match ResolveManifest(host, contents, wire) case Ok(plain) => Rebuild(host, plain) case Err => Err)
    case _ => Err
  }

  /** RestoreCapturedReviewArchive */
  ghost function Restored(host: Host, json: Json, manifest: Bytes, blobs: seq<Blob>): Result<Material> {
    match json.version(manifest)
    case None => Err
    case Some(version) =>
      if version == V1 then (if blobs == [] then RestoredV1(host, json, manifest) else Err)
      else if version != V2 then Err
      else (match Decoded(json, manifest) case Ok(wire) => RestoredV2(host, wire, blobs) case Err => Err)
  }

  // ---------------------------------------------------------------- the layout of a manifest

  function SidePosition(side: string): nat {
    if side == "base" then 0 else if side == "head" then 1 else if side == "index" then 2 else 3
  }

  lemma {:induction false} SidesAreCaptured(host: Host, evidence: Evidence, sides: seq<string>)
    ensures forall ref :: ref in SideRefs(host, evidence, sides) ==> ref.side in sides && ref.side in evidence
  {
    if sides != [] {
      SidesAreCaptured(host, evidence, sides[1..]);
      forall side | side in sides[1..] ensures side in sides { }
    }
  }

  predicate SidesAscend(refs: seq<SideRef>) {
    forall i, j :: 0 <= i < j < |refs| ==> SidePosition(refs[i].side) < SidePosition(refs[j].side)
  }

  lemma FirstSideAscends(first: SideRef, rest: seq<SideRef>)
    requires SidesAscend(rest) && forall ref :: ref in rest ==> SidePosition(first.side) < SidePosition(ref.side)
    ensures SidesAscend([first] + rest)
  {
  }

  lemma {:induction false} SidesAreOrdered(host: Host, evidence: Evidence, sides: seq<string>)
    requires forall i, j :: 0 <= i < j < |sides| ==> SidePosition(sides[i]) < SidePosition(sides[j])
    ensures SidesAscend(SideRefs(host, evidence, sides))
  {
    if sides != [] {
      var rest := SideRefs(host, evidence, sides[1..]);
      SidesAreOrdered(host, evidence, sides[1..]);
      SidesAreCaptured(host, evidence, sides[1..]);
      forall ref | ref in rest ensures SidePosition(sides[0]) < SidePosition(ref.side) {
        var i :| 0 <= i < |sides[1..]| && sides[1..][i] == ref.side;
        assert sides[i + 1] == ref.side;
      }
      if sides[0] in evidence {
        FirstSideAscends(SideRef(sides[0], FileRefs(host, evidence[sides[0]])), rest);
      } else {
        assert SideRefs(host, evidence, sides) == rest;
      }
    }
  }

  /** The manifest of a capture: its version, the context exactly when there is one, and the captured
      sides in the order base, head, index, worktree. */
  lemma ProjectionLayout(host: Host, material: Material)
    ensures var wire, evidence := Project(host, material), EvidenceOf(host, material);
            && wire.schemaVersion == "mulgae-captured-review-archive.v2"
            && wire.identity == material.target.identity.wire && wire.policy == material.snapshot.policy
            && (wire.hasContext <==> material.hasProjectContext) && (wire.context.Some? <==> material.hasProjectContext)
            && SidesAscend(wire.evidence) && forall ref :: ref in wire.evidence ==> ref.side in evidence
  {
    SidesAreOrdered(host, EvidenceOf(host, material), SIDES);
    SidesAreCaptured(host, EvidenceOf(host, material), SIDES);
  }

  /** Each file is referenced with its path, content and media type, in the order of the capture. */
  lemma FilesAreReferenced(host: Host, files: seq<SnapshotFile>, i: nat)
    requires i < |files|
    ensures |FileRefs(host, files)| == |files| && FileRefs(host, files)[i].Content() == RefOf(host, files[i].bytes)
    ensures FileRefs(host, files)[i].path == files[i].path && FileRefs(host, files)[i].mediaType == files[i].mediaType
  {
  }
}
