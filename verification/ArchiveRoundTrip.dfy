/** Writing a capture to an archive and restoring it: what survives, and what a restore refuses. */
module ArchiveRoundTrip {
  import opened Prelude
  import opened Ordering
  import opened Paths
  import opened Capture
  import opened Archive
  import opened Sorting

  // ---------------------------------------------------------------- laws of the JSON parameter

  ghost predicate EncodableFile(host: Host, file: FileRef) {
    host.utf8String(file.path) && host.utf8String(file.sha256) && host.utf8String(file.blob)
    && host.utf8String(file.mediaType)
  }

  ghost predicate EncodableIdentity(host: Host, wire: IdentityWire) {
    host.utf8String(wire.kind) && host.utf8String(wire.sha256) && host.utf8String(wire.repositoryID)
    && host.utf8String(wire.baseObjectID) && host.utf8String(wire.headObjectID)
    && host.utf8String(wire.headTreeObjectID) && host.utf8String(wire.indexTreeObjectID)
    && host.utf8String(wire.gitMode)
  }

  ghost predicate EncodableRef(host: Host, ref: ContentRef) {
    host.utf8String(ref.sha256) && host.utf8String(ref.blob)
  }

  /** Every string of the manifest is valid UTF-8, so JSON carries it unchanged. */
  ghost predicate Encodable(host: Host, wire: Manifest) {
    && host.utf8String(wire.schemaVersion) && host.utf8String(wire.policy)
    && EncodableIdentity(host, wire.identity) && EncodableRef(host, wire.target)
    && (wire.context.Some? ==> EncodableRef(host, wire.context.value))
    && (forall file :: file in wire.snapshot ==> EncodableFile(host, file))
    && (forall side :: side in wire.evidence ==>
          host.utf8String(side.side) && forall file :: file in side.files ==> EncodableFile(host, file))
  }

  /** The JSON text (RFC 8259) of a manifest decodes to the manifest it was encoded from. */
  ghost predicate JsonLaws(host: Host, json: Json) {
    && (forall text :: AllAscii(text) ==> host.utf8String(text))
    && (forall wire: Manifest :: Encodable(host, wire) && wire.schemaVersion == V2 ==>
          json.decode(json.encode(wire)) == Some(wire) && json.version(json.encode(wire)) == Some(V2))
  }

  /** The strings of a material that its constructors do not force to be UTF-8. */
  ghost predicate TextIsUTF8(host: Host, material: Material) {
    && host.utf8String(material.target.identity.wire.repositoryID)
    && (forall file :: file in material.snapshot.files ==> host.utf8String(file.path))
    && (forall side, file: SnapshotFile :: side in material.evidence && file in material.evidence[side] ==> host.utf8String(file.path))
  }

  // ---------------------------------------------------------------- what survives

  /** Equal target identity and bytes, snapshot, context and evidence; no exclusions. */
  ghost predicate SameCapture(host: Host, original: Material, restored: Material) {
    && restored.target.identity == original.target.identity
    && restored.target.bytes == original.target.bytes
    && restored.snapshot == original.snapshot
    && restored.projectContext == original.projectContext
    && restored.hasProjectContext == original.hasProjectContext
    && restored.evidence == EvidenceOf(host, original)
    && restored.exclusions == None
  }

  function PlainFiles(files: seq<SnapshotFile>): (plain: seq<PlainFile>)
    ensures |plain| == |files|
  {
    seq(|files|, i requires 0 <= i < |files| =>
      PlainFile(files[i].path, files[i].sha256, files[i].bytes, files[i].mediaType))
  }

  function PlainSides(evidence: Evidence, sides: seq<string>): seq<PlainSide> {
    if sides == [] then []
    else
      (if sides[0] in evidence then [PlainSide(sides[0], PlainFiles(evidence[sides[0]]))] else [])
      + PlainSides(evidence, sides[1..])
  }

  ghost function PlainOf(host: Host, material: Material): Plain {
    Plain(material.target.identity.wire, material.target.bytes, material.snapshot.policy,
          PlainFiles(material.snapshot.files), material.projectContext, material.hasProjectContext,
          PlainSides(EvidenceOf(host, material), SIDES))
  }

  // ---------------------------------------------------------------- inline bytes rebuild the capture

  lemma {:induction false} FilesRebuild(host: Host, files: seq<SnapshotFile>)
    requires forall file :: file in files ==> ValidFile(host, file)
    ensures RebuildFiles(host, PlainFiles(files)) == Ok(files)
  {
    if files != [] {
      assert PlainFiles(files)[1..] == PlainFiles(files[1..]);
      FilesRebuild(host, files[1..]);
      assert ValidFile(host, files[0]);
      assert RebuildFile(host, PlainFiles(files)[0]) == Ok(files[0]);
      assert [files[0]] + files[1..] == files;
    } else {
      assert PlainFiles(files) == [];
    }
  }

  lemma RequestFilesAreValid(host: Host, request: SnapshotRequest)
    requires ValidRequest(host, request)
    ensures forall file :: file in request.files ==> ValidFile(host, file)
  {
    forall file | file in request.files ensures ValidFile(host, file) {
      var i :| 0 <= i < |request.files| && request.files[i] == file;
      assert Admits(host, request.files, i);
    }
  }

  ghost predicate DistinctSides(sides: seq<string>) {
    forall i, j :: 0 <= i < j < |sides| ==> sides[i] != sides[j]
  }

  /** The evidence of the listed sides, added to what is known. */
  ghost function Collected(evidence: Evidence, sides: seq<string>, known: Evidence): Evidence {
    if sides == [] then known
    else Collected(evidence, sides[1..], if sides[0] in evidence then known[sides[0] := evidence[sides[0]]] else known)
  }

  lemma {:induction false} SidesRebuild(host: Host, evidence: Evidence, sides: seq<string>, known: Evidence)
    requires ValidEvidence(host, evidence)
    requires DistinctSides(sides) && forall side :: side in sides ==> side in SIDES && side !in known
    ensures RebuildSides(host, PlainSides(evidence, sides), known) == Ok(Collected(evidence, sides, known))
  {
    if sides != [] {
      var side, rest := sides[0], sides[1..];
      if side in evidence {
        RequestFilesAreValid(host, SnapshotRequest(evidence[side], EVIDENCE_POLICY));
        SideRebuilds(host, side, evidence[side], PlainSides(evidence, rest), known);
        SidesRebuild(host, evidence, rest, known[side := evidence[side]]);
      } else {
        SidesRebuild(host, evidence, rest, known);
        assert PlainSides(evidence, sides) == PlainSides(evidence, rest);
      }
    }
  }

  lemma SideRebuilds(host: Host, side: string, files: seq<SnapshotFile>, rest: seq<PlainSide>, known: Evidence)
    requires side in SIDES && side !in known
    requires forall file :: file in files ==> ValidFile(host, file)
    ensures RebuildSides(host, [PlainSide(side, PlainFiles(files))] + rest, known)
         == RebuildSides(host, rest, known[side := files])
  {
    FilesRebuild(host, files);
    assert ([PlainSide(side, PlainFiles(files))] + rest)[1..] == rest;
  }

  lemma {:induction false} CollectedEntry(evidence: Evidence, sides: seq<string>, known: Evidence, side: string)
    ensures side in Collected(evidence, sides, known) <==> side in known || (side in evidence && side in sides)
    ensures side in evidence && (side in sides || (side in known && known[side] == evidence[side])) ==>
              Collected(evidence, sides, known)[side] == evidence[side]
  {
    if sides != [] {
      var head := sides[0];
      CollectedEntry(evidence, sides[1..], if head in evidence then known[head := evidence[head]] else known, side);
    }
  }

  lemma AllSidesCollected(evidence: Evidence)
    requires forall side :: side in evidence ==> side in SIDES
    ensures Collected(evidence, SIDES, map[]) == evidence
  {
    forall side ensures side in Collected(evidence, SIDES, map[]) <==> side in evidence
                ensures side in evidence ==> Collected(evidence, SIDES, map[])[side] == evidence[side] {
      CollectedEntry(evidence, SIDES, map[], side);
    }
  }

  lemma {:induction false} NoSides(sides: seq<string>)
    ensures PlainSides(map[], sides) == []
  {
    if sides != [] { NoSides(sides[1..]); }
  }

  lemma EvidenceRebuilds(host: Host, material: Material)
    ensures RebuildSides(host, PlainSides(EvidenceOf(host, material), SIDES), map[]) == Ok(EvidenceOf(host, material))
  {
    var evidence := EvidenceOf(host, material);
    if ValidEvidence(host, material.evidence) {
      SidesRebuild(host, evidence, SIDES, map[]);
      AllSidesCollected(evidence);
    } else {
      NoSides(SIDES);
    }
  }

  lemma RebuildSteps(host: Host, plain: Plain, identity: TargetIdentity, target: CapturedTarget,
                     files: seq<SnapshotFile>, evidence: Evidence)
    requires NewTargetIdentity(host, plain.identity) == Ok(identity)
    requires TargetFromIdentity(host, identity, plain.target) == Ok(target) && ValidTarget(host, target)
    requires RebuildFiles(host, plain.snapshot) == Ok(files)
    requires ValidRequest(host, SnapshotRequest(files, plain.policy))
    requires RebuildSides(host, plain.evidence, map[]) == Ok(evidence)
    requires evidence != map[] ==> ValidEvidence(host, evidence)
    requires plain.hasContext || plain.context == []
    requires CleanText(host, plain.context) && (target.NoChange() || ValidEvidence(host, evidence))
    ensures Rebuild(host, plain) == Ok(Material(target, SnapshotRequest(files, plain.policy), plain.context,
                                                plain.hasContext, evidence, None))
  {
  }

  lemma PlainRebuilds(host: Host, material: Material)
    requires ValidMaterial(host, material)
    ensures var restored := Rebuild(host, PlainOf(host, material));
            restored.Ok? && SameCapture(host, material, restored.value) && ValidMaterial(host, restored.value)
  {
    TargetSurvivesIdentity(host, material.target);
    RequestFilesAreValid(host, material.snapshot);
    FilesRebuild(host, material.snapshot.files);
    EvidenceRebuilds(host, material);
    var target := TargetFromIdentity(host, material.target.identity, material.target.bytes).value;
    RebuildSteps(host, PlainOf(host, material), material.target.identity, target, material.snapshot.files,
                 EvidenceOf(host, material));
  }

  // ---------------------------------------------------------------- references resolve to the bytes

  ghost predicate Holds(host: Host, contents: map<string, Bytes>, c: Bytes) {
    c != [] ==> BlobPath(host.sha256(c)) in contents && contents[BlobPath(host.sha256(c))] == c
  }

  lemma RefResolves(host: Host, contents: map<string, Bytes>, c: Bytes)
    requires DigestIsPrinted(host) && Holds(host, contents, c)
    ensures Resolve(host, contents, RefOf(host, c)) == Ok(c)
  {
  }

  lemma {:induction false} FilesResolve(host: Host, contents: map<string, Bytes>, files: seq<SnapshotFile>)
    requires DigestIsPrinted(host)
    requires forall file :: file in files ==> ValidFile(host, file) && Holds(host, contents, file.bytes)
    ensures ResolveFiles(host, contents, FileRefs(host, files)) == Ok(PlainFiles(files))
  {
    if files == [] {
      assert FileRefs(host, files) == [] && PlainFiles(files) == [];
    } else {
      assert FileRefs(host, files)[1..] == FileRefs(host, files[1..]);
      FilesResolve(host, contents, files[1..]);
      assert files[0] in files;
      RefResolves(host, contents, files[0].bytes);
      assert FileRefs(host, files)[0].Content() == RefOf(host, files[0].bytes);
      assert PlainFiles(files) == [PlainFiles(files)[0]] + PlainFiles(files[1..]);
    }
  }

  lemma {:induction false} SidesResolve(host: Host, contents: map<string, Bytes>, evidence: Evidence, sides: seq<string>)
    requires DigestIsPrinted(host)
    requires forall side, file: SnapshotFile :: side in evidence && file in evidence[side] ==>
               ValidFile(host, file) && Holds(host, contents, file.bytes)
    ensures ResolveSides(host, contents, SideRefs(host, evidence, sides)) == Ok(PlainSides(evidence, sides))
  {
    if sides != [] {
      SidesResolve(host, contents, evidence, sides[1..]);
      if sides[0] in evidence {
        FilesResolve(host, contents, evidence[sides[0]]);
        var refs := SideRefs(host, evidence, sides);
        assert refs[0] == SideRef(sides[0], FileRefs(host, evidence[sides[0]]));
        assert refs[1..] == SideRefs(host, evidence, sides[1..]);
      } else {
        assert SideRefs(host, evidence, sides) == SideRefs(host, evidence, sides[1..]);
        assert PlainSides(evidence, sides) == PlainSides(evidence, sides[1..]);
      }
    }
  }

  lemma EvidenceFilesAreValid(host: Host, material: Material)
    ensures forall side, file: SnapshotFile :: side in EvidenceOf(host, material) && file in EvidenceOf(host, material)[side] ==>
              ValidFile(host, file) && side in SIDES
  {
    var evidence := EvidenceOf(host, material);
    forall side, file: SnapshotFile | side in evidence && file in evidence[side] ensures ValidFile(host, file) && side in SIDES {
      RequestFilesAreValid(host, SnapshotRequest(evidence[side], EVIDENCE_POLICY));
    }
  }

  lemma {:induction false} SideContentsMembers(evidence: Evidence, sides: seq<string>, side: string, file: SnapshotFile)
    requires side in evidence && side in sides && file in evidence[side]
    ensures file.bytes in SideContents(evidence, sides)
  {
    if sides[0] == side {
      FileContentsMember(evidence[side], file);
    } else {
      SideContentsMembers(evidence, sides[1..], side, file);
    }
  }

  lemma FileContentsMember(files: seq<SnapshotFile>, file: SnapshotFile)
    requires file in files
    ensures file.bytes in FileContents(files)
  {
    var i :| 0 <= i < |files| && files[i] == file;
    assert FileContents(files)[i] == file.bytes;
  }

  lemma ManifestResolves(host: Host, material: Material, contents: map<string, Bytes>)
    requires DigestIsPrinted(host) && ValidMaterial(host, material)
    requires forall c :: c in Contents(host, material) ==> Holds(host, contents, c)
    ensures ResolveManifest(host, contents, Project(host, material)) == Ok(PlainOf(host, material))
  {
    var evidence := EvidenceOf(host, material);
    RefResolves(host, contents, material.target.bytes);
    RequestFilesAreValid(host, material.snapshot);
    forall file | file in material.snapshot.files ensures Holds(host, contents, file.bytes) {
      FileContentsMember(material.snapshot.files, file);
    }
    FilesResolve(host, contents, material.snapshot.files);
    if material.hasProjectContext { RefResolves(host, contents, material.projectContext); }
    EvidenceFilesAreValid(host, material);
    forall side, file: SnapshotFile | side in evidence && file in evidence[side] ensures Holds(host, contents, file.bytes) {
      SideContentsMembers(evidence, SIDES, side, file);
    }
    SidesResolve(host, contents, evidence, SIDES);
  }

  // ---------------------------------------------------------------- both sides name the same blobs

  /** The reference of each stored content, in storing order. */
  function RefsOf(host: Host, contents: seq<Bytes>): (refs: seq<ContentRef>)
    ensures |refs| == |contents|
  {
    seq(|contents|, i requires 0 <= i < |contents| => RefOf(host, contents[i]))
  }

  lemma RefsOfConcatenation(host: Host, a: seq<Bytes>, b: seq<Bytes>)
    ensures RefsOf(host, a + b) == RefsOf(host, a) + RefsOf(host, b)
  {
  }

  lemma FileRefsAreRefs(host: Host, files: seq<SnapshotFile>)
    ensures ContentRefs(FileRefs(host, files)) == RefsOf(host, FileContents(files))
  {
  }

  lemma {:induction false} SideRefsAreRefs(host: Host, evidence: Evidence, sides: seq<string>)
    ensures SideContentRefs(SideRefs(host, evidence, sides)) == RefsOf(host, SideContents(evidence, sides))
  {
    if sides != [] {
      SideRefsAreRefs(host, evidence, sides[1..]);
      if sides[0] in evidence {
        var refs := SideRefs(host, evidence, sides);
        assert refs[0] == SideRef(sides[0], FileRefs(host, evidence[sides[0]]));
        assert refs[1..] == SideRefs(host, evidence, sides[1..]);
        FileRefsAreRefs(host, evidence[sides[0]]);
        RefsOfConcatenation(host, FileContents(evidence[sides[0]]), SideContents(evidence, sides[1..]));
      } else {
        assert SideRefs(host, evidence, sides) == SideRefs(host, evidence, sides[1..]);
        assert SideContents(evidence, sides) == SideContents(evidence, sides[1..]);
      }
    }
  }

  /** The reader sees exactly the references of what the writer stored, though in another order. */
  lemma ProjectedRefs(host: Host, material: Material, ref: ContentRef)
    ensures ref in ManifestRefs(Project(host, material)) <==> ref in RefsOf(host, Contents(host, material))
  {
    var evidence := EvidenceOf(host, material);
    var snapshot := FileContents(material.snapshot.files);
    var context := if material.hasProjectContext then [material.projectContext] else [];
    FileRefsAreRefs(host, material.snapshot.files);
    SideRefsAreRefs(host, evidence, SIDES);
    RefsOfConcatenation(host, [material.target.bytes] + snapshot + context, SideContents(evidence, SIDES));
    RefsOfConcatenation(host, [material.target.bytes] + snapshot, context);
    RefsOfConcatenation(host, [material.target.bytes], snapshot);
    var a, b, d := RefsOf(host, [material.target.bytes]), RefsOf(host, snapshot), RefsOf(host, SideContents(evidence, SIDES));
    var c := RefsOf(host, context);
    var wire := Project(host, material);
    assert a == [wire.target];
    assert c == if wire.context.Some? then [wire.context.value] else [];
    assert ManifestRefs(wire) == a + c + b + d;
    assert RefsOf(host, Contents(host, material)) == a + b + c + d;
  }

  lemma SameBlobNames(host: Host, material: Material)
    requires DigestIsPrinted(host)
    ensures RefPaths(host, ManifestRefs(Project(host, material))) == BlobMap(host, Contents(host, material)).Keys
    ensures forall ref :: ref in ManifestRefs(Project(host, material)) ==> WellFormedRef(host, ref)
  {
    var wire, contents := Project(host, material), Contents(host, material);
    var blobs := BlobMap(host, contents);
    BlobMapKeys(host, contents);
    forall ref | ref in ManifestRefs(wire)
      ensures WellFormedRef(host, ref) && (!EmptyRef(host, ref) ==> ref.blob in blobs)
    {
      ProjectedRefs(host, material, ref);
      var i :| 0 <= i < |contents| && RefsOf(host, contents)[i] == ref;
      assert contents[i] in contents;
      BlobPathIsPath(host.sha256(contents[i]));
    }
    forall path | path in blobs ensures path in RefPaths(host, ManifestRefs(wire)) {
      var i :| 0 <= i < |contents| && contents[i] == blobs[path];
      var ref := RefsOf(host, contents)[i];
      ProjectedRefs(host, material, ref);
      BlobPathIsPath(host.sha256(contents[i]));
      assert ref in ManifestRefs(wire) && !EmptyRef(host, ref) && ref.blob == path;
    }
  }

  // ---------------------------------------------------------------- the blob inventory of a restore

  ghost function BlobPaths(blobs: seq<Blob>): set<string> {
    set blob | blob in blobs :: blob.path
  }

  ghost predicate DistinctBlobPaths(blobs: seq<Blob>) {
    forall i, j :: 0 <= i < j < |blobs| ==> blobs[i].path != blobs[j].path
  }

  ghost predicate Inventory(host: Host, blobs: seq<Blob>) {
    (forall blob :: blob in blobs ==> ValidBlob(host, blob)) && DistinctBlobPaths(blobs)
  }

  /** Each body is filed under its path, and nothing else is. */
  ghost predicate Filed(known: map<string, Bytes>, blobs: seq<Blob>) {
    && known.Keys == BlobPaths(blobs)
    && (forall blob :: blob in blobs ==> known[blob.path] == blob.bytes)
    && |known| == |blobs|
  }

  lemma InventoryStep(host: Host, front: seq<Blob>, last: Blob)
    ensures Inventory(host, front + [last]) <==>
              Inventory(host, front) && ValidBlob(host, last) && last.path !in BlobPaths(front)
  {
    var blobs := front + [last];
    assert forall i :: 0 <= i < |front| ==> blobs[i] == front[i];
    assert last in blobs && forall blob :: blob in front ==> blob in blobs;
    if Inventory(host, blobs) {
      forall blob | blob in front ensures blob.path != last.path {
        var i :| 0 <= i < |front| && front[i] == blob;
        assert blobs[i].path != blobs[|front|].path;
      }
    }
  }

  lemma FiledStep(known: map<string, Bytes>, front: seq<Blob>, last: Blob)
    requires Filed(known, front) && last.path !in known
    ensures Filed(known[last.path := last.bytes], front + [last])
  {
    var blobs := front + [last];
    assert forall blob :: blob in blobs <==> blob in front || blob == last;
    assert known[last.path := last.bytes].Keys == known.Keys + {last.path};
  }

  /** Gathering accepts exactly valid blobs with pairwise different paths, and files each body
      under its path. */
  lemma {:induction false} GatherMeaning(host: Host, blobs: seq<Blob>)
    ensures Gather(host, blobs).Ok? <==> Inventory(host, blobs)
    ensures Gather(host, blobs).Ok? ==> Filed(Gather(host, blobs).value, blobs)
  {
    if blobs != [] {
      var front, last := blobs[..|blobs| - 1], blobs[|blobs| - 1];
      assert blobs == front + [last];
      GatherMeaning(host, front);
      InventoryStep(host, front, last);
      if Gather(host, front).Ok? && last.path !in Gather(host, front).value {
        FiledStep(Gather(host, front).value, front, last);
      }
    }
  }

  lemma CardinalityForcesEquality(a: set<string>, b: set<string>)
    requires a <= b && |a| == |b|
    ensures a == b
  {
    assert |b - a| == |b| - |a|;
  }

  /** The count check and the per-reference check together demand the exact key set. */
  lemma CoversMeaning(host: Host, contents: map<string, Bytes>, paths: set<string>)
    requires DigestIsPrinted(host)
    requires forall path :: path in contents ==> path == BlobPath(host.sha256(contents[path]))
    requires forall path :: path in paths ==> BlobPath(DigestOfPath(path)) == path
    ensures Covers(host, contents, RefList(Listing(paths))) <==> contents.Keys == paths
  {
    var list := Listing(paths);
    var refs := RefList(list);
    if Covers(host, contents, refs) {
      forall path | path in paths ensures path in contents {
        assert path in Elements(list);
        var i :| 0 <= i < |list| && list[i] == path;
        assert refs[i] in refs && refs[i].path == path;
      }
      assert |contents.Keys| == |contents|;
      CardinalityForcesEquality(paths, contents.Keys);
    }
    if contents.Keys == paths {
      forall ref | ref in refs ensures ref.path in contents && host.sha256(contents[ref.path]) == ref.sha256 {
        var i :| 0 <= i < |refs| && refs[i] == ref;
        assert list[i] in Elements(list);
        BlobPathIsPath(host.sha256(contents[list[i]]));
      }
      assert |contents.Keys| == |contents|;
    }
  }

  lemma RefPathsAreAddresses(host: Host, refs: seq<ContentRef>)
    requires forall ref :: ref in refs ==> WellFormedRef(host, ref)
    ensures forall path :: path in RefPaths(host, refs) ==> BlobPath(DigestOfPath(path)) == path
  {
    forall path | path in RefPaths(host, refs) ensures BlobPath(DigestOfPath(path)) == path {
      var ref :| ref in refs && !EmptyRef(host, ref) && ref.blob == path;
      assert ValidSHA256(ref.sha256);
      BlobPathIsPath(ref.sha256);
    }
  }

  ghost predicate AllRefsWellFormed(host: Host, wire: Manifest) {
    forall ref :: ref in ManifestRefs(wire) ==> WellFormedRef(host, ref)
  }

  /** A restore goes on to the content of the blobs exactly when every reference is well formed,
      every blob is valid, no path occurs twice, and the paths are those the manifest names: a
      missing, extra or duplicate blob is refused. */
  lemma RestoreDemandsInventory(host: Host, wire: Manifest, blobs: seq<Blob>)
    requires DigestIsPrinted(host)
    ensures (References(host, wire).Ok? && Gather(host, blobs).Ok?
             && Covers(host, Gather(host, blobs).value, References(host, wire).value))
        <==> AllRefsWellFormed(host, wire) && Inventory(host, blobs)
             && BlobPaths(blobs) == RefPaths(host, ManifestRefs(wire))
    ensures RestoredV2(host, wire, blobs).Ok? ==>
              Inventory(host, blobs) && BlobPaths(blobs) == RefPaths(host, ManifestRefs(wire))
  {
    GatherMeaning(host, blobs);
    if AllRefsWellFormed(host, wire) && Inventory(host, blobs) {
      var contents := Gather(host, blobs).value;
      RefPathsAreAddresses(host, ManifestRefs(wire));
      forall path | path in contents ensures path == BlobPath(host.sha256(contents[path])) {
        var blob :| blob in blobs && blob.path == path;
        assert ValidBlob(host, blob) && contents[blob.path] == blob.bytes;
      }
      CoversMeaning(host, contents, RefPaths(host, ManifestRefs(wire)));
    }
  }

  lemma GatherIgnoresOrder(host: Host, a: seq<Blob>, b: seq<Blob>)
    requires multiset(a) == multiset(b)
    ensures Gather(host, a) == Gather(host, b)
  {
    SameInventory(host, a, b);
    SameInventory(host, b, a);
    GatherMeaning(host, a);
    GatherMeaning(host, b);
    if Inventory(host, a) {
      SameMembers(a, b);
      FiledIsDetermined(Gather(host, a).value, a, Gather(host, b).value);
    }
  }

  /** Restoring does not depend on the order in which the blobs arrive. */
  lemma RestoreIgnoresBlobOrder(host: Host, json: Json, manifest: Bytes, a: seq<Blob>, b: seq<Blob>)
    requires multiset(a) == multiset(b)
    ensures Restored(host, json, manifest, a) == Restored(host, json, manifest, b)
  {
    GatherIgnoresOrder(host, a, b);
    assert |a| == |multiset(a)| == |multiset(b)| == |b|;
  }

  lemma SameInventory(host: Host, a: seq<Blob>, b: seq<Blob>)
    requires multiset(a) == multiset(b)
    ensures Inventory(host, a) ==> Inventory(host, b)
  {
    if Inventory(host, a) { KeepsInventory(host, a, b); }
  }

  lemma KeepsInventory(host: Host, a: seq<Blob>, b: seq<Blob>)
    requires multiset(a) == multiset(b) && Inventory(host, a)
    ensures Inventory(host, b)
  {
    forall blob | blob in b ensures ValidBlob(host, blob) {
      assert blob in multiset(b);
      assert blob in multiset(a);
    }
    var path := (blob: Blob) => blob.path;
    assert DistinctKeys(a, path);
    DistinctKeysPermute(a, b, path);
    forall i, j | 0 <= i < j < |b| ensures b[i].path != b[j].path { assert path(b[i]) != path(b[j]); }
  }

  // ---------------------------------------------------------------- the round trip

  ghost predicate Addressed(host: Host, blobs: map<string, Bytes>) {
    forall path :: path in blobs ==> path == BlobPath(host.sha256(blobs[path]))
  }

  lemma SortedBlobAt(host: Host, blobs: map<string, Bytes>, i: nat)
    requires DigestIsPrinted(host) && Addressed(host, blobs) && i < |blobs|
    ensures var blob := SortedBlobs(host, blobs)[i];
            ValidBlob(host, blob) && blob.path == Listing(blobs.Keys)[i] && blob.path in blobs
            && blobs[blob.path] == blob.bytes
  {
    var list := Listing(blobs.Keys);
    assert |list| == |blobs.Keys| == |blobs|;
    assert list[i] in Elements(list);
    BlobPathIsPath(host.sha256(blobs[list[i]]));
  }

  lemma SortedBlobsInventory(host: Host, blobs: map<string, Bytes>)
    requires DigestIsPrinted(host) && Addressed(host, blobs)
    ensures Inventory(host, SortedBlobs(host, blobs)) && BlobPaths(SortedBlobs(host, blobs)) == blobs.Keys
  {
    var sorted := SortedBlobs(host, blobs);
    SortedBlobsPaths(host, blobs);
    SortedBlobsDistinct(host, blobs);
    forall i | 0 <= i < |sorted| ensures ValidBlob(host, sorted[i]) {
      SortedBlobAt(host, blobs, i);
    }
  }

  lemma SortedBlobsPaths(host: Host, blobs: map<string, Bytes>)
    requires DigestIsPrinted(host) && Addressed(host, blobs)
    ensures BlobPaths(SortedBlobs(host, blobs)) == blobs.Keys
  {
    var list, sorted := Listing(blobs.Keys), SortedBlobs(host, blobs);
    forall i | 0 <= i < |sorted| ensures sorted[i].path == list[i] && sorted[i].path in blobs {
      SortedBlobAt(host, blobs, i);
    }
    forall path | path in blobs.Keys ensures path in BlobPaths(sorted) {
      assert path in Elements(list);
      var i :| 0 <= i < |list| && list[i] == path;
      assert sorted[i] in sorted;
    }
  }

  lemma SortedBlobsDistinct(host: Host, blobs: map<string, Bytes>)
    requires DigestIsPrinted(host) && Addressed(host, blobs)
    ensures DistinctBlobPaths(SortedBlobs(host, blobs))
  {
    var list, sorted := Listing(blobs.Keys), SortedBlobs(host, blobs);
    forall i, j | 0 <= i < j < |sorted| ensures sorted[i].path != sorted[j].path {
      SortedBlobAt(host, blobs, i);
      SortedBlobAt(host, blobs, j);
      if list[i] == list[j] { AscendingDistinct(list, i, j); }
    }
  }

  lemma FiledIsDetermined(known: map<string, Bytes>, list: seq<Blob>, blobs: map<string, Bytes>)
    requires Filed(known, list) && BlobPaths(list) == blobs.Keys
    requires forall blob :: blob in list ==> blobs[blob.path] == blob.bytes
    ensures known == blobs
  {
    forall path | path in known ensures known[path] == blobs[path] {
      var blob :| blob in list && blob.path == path;
    }
  }

  lemma SortedBlobsAgree(host: Host, blobs: map<string, Bytes>)
    requires DigestIsPrinted(host) && Addressed(host, blobs)
    ensures forall blob :: blob in SortedBlobs(host, blobs) ==>
              blob.path in blobs && blobs[blob.path] == blob.bytes
  {
    var sorted := SortedBlobs(host, blobs);
    assert |sorted| == |blobs.Keys| == |blobs|;
    forall i | 0 <= i < |sorted| ensures sorted[i].path in blobs && blobs[sorted[i].path] == sorted[i].bytes {
      SortedBlobAt(host, blobs, i);
    }
  }

  lemma SortedBlobsGather(host: Host, blobs: map<string, Bytes>)
    requires DigestIsPrinted(host) && Addressed(host, blobs)
    ensures Gather(host, SortedBlobs(host, blobs)) == Ok(blobs)
    ensures BlobPaths(SortedBlobs(host, blobs)) == blobs.Keys
  {
    var sorted := SortedBlobs(host, blobs);
    SortedBlobsInventory(host, blobs);
    SortedBlobsAgree(host, blobs);
    GatherMeaning(host, sorted);
    FiledIsDetermined(Gather(host, sorted).value, sorted, blobs);
  }

  lemma AsciiStrings(host: Host, json: Json, text: string)
    requires JsonLaws(host, json)
    requires AllLowerHex(text) || ValidSHA256(text)
    ensures host.utf8String(text)
  {
    if ValidSHA256(text) {
      forall i | 0 <= i < |text| ensures text[i] as int < 0x80 {
        if i >= 7 { assert text[i] == text[7..][i - 7]; } else { assert text[i] == "sha256:"[i]; }
      }
    }
    assert AllAscii(text);
  }

  lemma WordsAreAscii(host: Host, json: Json, wire: IdentityWire)
    requires JsonLaws(host, json)
    requires wire.kind == GIT || PlainKind(wire.kind)
    requires wire.gitMode == "" || ValidGitMode(wire.gitMode)
    ensures host.utf8String(wire.kind) && host.utf8String(wire.gitMode)
  {
    assert AllAscii(wire.kind) && AllAscii(wire.gitMode);
  }

  lemma IdentityIsAscii(host: Host, json: Json, target: CapturedTarget)
    requires JsonLaws(host, json) && ValidTarget(host, target)
    requires host.utf8String(target.identity.wire.repositoryID)
    ensures EncodableIdentity(host, target.identity.wire)
  {
    TargetSurvivesIdentity(host, target);
    var wire := target.identity.wire;
    WordsAreAscii(host, json, wire);
    AsciiStrings(host, json, wire.sha256);
    AsciiStrings(host, json, wire.baseObjectID);
    AsciiStrings(host, json, wire.headObjectID);
    AsciiStrings(host, json, wire.headTreeObjectID);
    AsciiStrings(host, json, wire.indexTreeObjectID);
  }

  lemma RefIsEncodable(host: Host, json: Json, c: Bytes)
    requires JsonLaws(host, json) && DigestIsPrinted(host)
    ensures EncodableRef(host, RefOf(host, c))
  {
    var digest := host.sha256(c);
    AsciiStrings(host, json, digest);
    assert AllAscii("");
    forall i | 0 <= i < |BlobPath(digest)| ensures BlobPath(digest)[i] as int < 0x80 {
      if i >= |BLOB_PREFIX| { assert BlobPath(digest)[i] == digest[7..][i - |BLOB_PREFIX|]; }
      else { assert BlobPath(digest)[i] == BLOB_PREFIX[i]; }
    }
    assert AllAscii(BlobPath(digest));
  }

  lemma MediaTypeIsAscii(host: Host, file: SnapshotFile)
    requires ValidFile(host, file)
    ensures AllAscii(file.mediaType)
  {
    assert file.mediaType in [TEXT, BINARY, "image/png", "image/jpeg", "image/webp"];
  }

  lemma FileIsEncodable(host: Host, json: Json, file: SnapshotFile)
    requires JsonLaws(host, json) && DigestIsPrinted(host)
    requires ValidFile(host, file) && host.utf8String(file.path)
    ensures var ref := RefOf(host, file.bytes);
            EncodableFile(host, FileRef(file.path, ref.sha256, ref.blob, file.mediaType))
  {
    RefIsEncodable(host, json, file.bytes);
    MediaTypeIsAscii(host, file);
  }

  lemma FilesAreEncodable(host: Host, json: Json, files: seq<SnapshotFile>)
    requires JsonLaws(host, json) && DigestIsPrinted(host)
    requires forall file :: file in files ==> ValidFile(host, file) && host.utf8String(file.path)
    ensures forall ref :: ref in FileRefs(host, files) ==> EncodableFile(host, ref)
  {
    forall i | 0 <= i < |files| ensures EncodableFile(host, FileRefs(host, files)[i]) {
      assert files[i] in files;
      FileIsEncodable(host, json, files[i]);
    }
  }

  lemma {:induction false} SidesAreEncodable(host: Host, json: Json, evidence: Evidence, sides: seq<string>)
    requires JsonLaws(host, json) && DigestIsPrinted(host)
    requires forall side, file: SnapshotFile :: side in evidence && file in evidence[side] ==>
               ValidFile(host, file) && host.utf8String(file.path)
    requires forall side :: side in sides ==> AllAscii(side)
    ensures forall side :: side in SideRefs(host, evidence, sides) ==>
              host.utf8String(side.side) && forall ref :: ref in side.files ==> EncodableFile(host, ref)
  {
    if sides != [] {
      SidesAreEncodable(host, json, evidence, sides[1..]);
      if sides[0] in evidence {
        FilesAreEncodable(host, json, evidence[sides[0]]);
        assert AllAscii(sides[0]);
      }
    }
  }

  lemma EvidenceIsEncodable(host: Host, json: Json, material: Material)
    requires JsonLaws(host, json) && DigestIsPrinted(host) && TextIsUTF8(host, material)
    ensures forall side :: side in SideRefs(host, EvidenceOf(host, material), SIDES) ==>
              host.utf8String(side.side) && forall ref :: ref in side.files ==> EncodableFile(host, ref)
  {
    assert AllAscii("base") && AllAscii("head") && AllAscii("index") && AllAscii("worktree");
    EvidenceFilesAreValid(host, material);
    SidesAreEncodable(host, json, EvidenceOf(host, material), SIDES);
  }

  lemma SnapshotIsEncodable(host: Host, json: Json, material: Material)
    requires JsonLaws(host, json) && DigestIsPrinted(host)
    requires ValidMaterial(host, material) && TextIsUTF8(host, material)
    ensures forall ref :: ref in FileRefs(host, material.snapshot.files) ==> EncodableFile(host, ref)
    ensures host.utf8String(material.snapshot.policy)
  {
    RequestFilesAreValid(host, material.snapshot);
    FilesAreEncodable(host, json, material.snapshot.files);
  }

  lemma ProjectionIsEncodable(host: Host, json: Json, material: Material)
    requires JsonLaws(host, json) && DigestIsPrinted(host)
    requires ValidMaterial(host, material) && TextIsUTF8(host, material)
    ensures Encodable(host, Project(host, material))
  {
    assert AllAscii(V2);
    IdentityIsAscii(host, json, material.target);
    RefIsEncodable(host, json, material.target.bytes);
    RefIsEncodable(host, json, material.projectContext);
    SnapshotIsEncodable(host, json, material);
    EvidenceIsEncodable(host, json, material);
  }

  lemma RestoreOfResolved(host: Host, wire: Manifest, blobs: seq<Blob>, contents: map<string, Bytes>, plain: Plain)
    requires DigestIsPrinted(host)
    requires AllRefsWellFormed(host, wire) && Gather(host, blobs) == Ok(contents)
    requires BlobPaths(blobs) == RefPaths(host, ManifestRefs(wire))
    requires ResolveManifest(host, contents, wire) == Ok(plain)
    ensures RestoredV2(host, wire, blobs) == Rebuild(host, plain)
  {
    GatherMeaning(host, blobs);
    RestoreDemandsInventory(host, wire, blobs);
  }

  lemma ContentsAreHeld(host: Host, contents: seq<Bytes>)
    requires DigestIsPrinted(host) && !Collides(host, contents)
    ensures forall c :: c in contents ==> Holds(host, BlobMap(host, contents), c)
  {
    forall c | c in contents ensures Holds(host, BlobMap(host, contents), c) {
      if c != [] { BlobMapHolds(host, contents, c); }
    }
  }

  lemma ProjectionRestores(host: Host, material: Material)
    requires DigestIsPrinted(host) && ValidMaterial(host, material)
    requires !Collides(host, Contents(host, material))
    ensures RestoredV2(host, Project(host, material), SortedBlobs(host, BlobMap(host, Contents(host, material))))
         == Rebuild(host, PlainOf(host, material))
  {
    var contents := Contents(host, material);
    var blobs := BlobMap(host, contents);
    BlobMapKeys(host, contents);
    SortedBlobsGather(host, blobs);
    SameBlobNames(host, material);
    ContentsAreHeld(host, contents);
    ManifestResolves(host, material, blobs);
    RestoreOfResolved(host, Project(host, material), SortedBlobs(host, blobs), blobs, PlainOf(host, material));
  }

  lemma RestoreDispatches(host: Host, json: Json, document: Bytes, wire: Manifest, blobs: seq<Blob>)
    requires json.version(document) == Some(V2) && Decoded(json, document) == Ok(wire)
    ensures Restored(host, json, document, blobs) == RestoredV2(host, wire, blobs)
  {
    VersionsDiffer();
  }

  lemma DecodesBack(host: Host, json: Json, wire: Manifest)
    requires JsonLaws(host, json) && Encodable(host, wire) && wire.schemaVersion == V2
    ensures json.version(json.encode(wire)) == Some(V2) && Decoded(json, json.encode(wire)) == Ok(wire)
  {
  }

  /** Restoring what NewCapturedReviewArchive produced gives the capture back, for any digest
      function: a collision would have stopped the writer. */
  lemma ArchiveRestores(host: Host, json: Json, material: Material)
    requires DigestIsPrinted(host) && JsonLaws(host, json) && TextIsUTF8(host, material)
    requires Archived(host, json, material).Ok?
    ensures var archive := Archived(host, json, material).value;
            var restored := Restored(host, json, archive.manifest, archive.blobs);
            restored.Ok? && SameCapture(host, material, restored.value) && ValidMaterial(host, restored.value)
  {
    ProjectionIsEncodable(host, json, material);
    DecodesBack(host, json, Project(host, material));
    RestoreDispatches(host, json, json.encode(Project(host, material)), Project(host, material),
                      Archived(host, json, material).value.blobs);
    ProjectionRestores(host, material);
    PlainRebuilds(host, material);
  }

  /** The legacy document: encoding a capture inline and decoding it gives the capture back. */
  lemma LegacyDocumentRestores(host: Host, json: Json, material: Material)
    requires ValidMaterial(host, material)
    requires var wire := ManifestV1(V1, PlainOf(host, material)); json.decodeV1(json.encodeV1(wire)) == Some(wire)
    ensures var restored := RestoredV1(host, json, json.encodeV1(ManifestV1(V1, PlainOf(host, material))));
            restored.Ok? && SameCapture(host, material, restored.value)
  {
    PlainRebuilds(host, material);
  }

  // ---------------------------------------------------------------- media types left out

  /** The same file, except that a text file may leave its media type out. */
  predicate ElidesFile(plain: PlainFile, full: PlainFile) {
    plain == full || (full.mediaType == "text/plain" && plain == full.(mediaType := ""))
  }

  predicate ElidesFiles(plain: seq<PlainFile>, full: seq<PlainFile>) {
    |plain| == |full| && forall i :: 0 <= i < |plain| ==> ElidesFile(plain[i], full[i])
  }

  predicate ElidesSides(plain: seq<PlainSide>, full: seq<PlainSide>) {
    |plain| == |full| && forall i :: 0 <= i < |plain| ==>
      plain[i].side == full[i].side && ElidesFiles(plain[i].files, full[i].files)
  }

  predicate Elides(plain: Plain, full: Plain) {
    && plain == full.(snapshot := plain.snapshot, evidence := plain.evidence)
    && ElidesFiles(plain.snapshot, full.snapshot) && ElidesSides(plain.evidence, full.evidence)
  }

  lemma {:induction false} ElidedFilesRebuild(host: Host, plain: seq<PlainFile>, full: seq<PlainFile>)
    requires ElidesFiles(plain, full)
    ensures RebuildFiles(host, plain) == RebuildFiles(host, full)
  {
    if plain != [] {
      assert ElidesFile(plain[0], full[0]);
      ElidedFilesRebuild(host, plain[1..], full[1..]);
    }
  }

  lemma {:induction false} ElidedSidesRebuild(host: Host, plain: seq<PlainSide>, full: seq<PlainSide>, known: Evidence)
    requires ElidesSides(plain, full)
    ensures RebuildSides(host, plain, known) == RebuildSides(host, full, known)
    decreases |plain|
  {
    if plain != [] {
      ElidedFilesRebuild(host, plain[0].files, full[0].files);
      match RebuildFiles(host, full[0].files)
      case Ok(files) => ElidedSidesRebuild(host, plain[1..], full[1..], known[full[0].side := files]);
      case Err =>
    }
  }

  lemma ElidedRebuilds(host: Host, plain: Plain, full: Plain)
    requires Elides(plain, full)
    ensures Rebuild(host, plain) == Rebuild(host, full)
  {
    ElidedFilesRebuild(host, plain.snapshot, full.snapshot);
    ElidedSidesRebuild(host, plain.evidence, full.evidence, map[]);
  }

  /** A file that comes without a media type is rebuilt as text, and refused unless it is text. */
  lemma UntypedFileIsText(host: Host, file: PlainFile)
    requires file.mediaType == ""
    ensures RebuildFile(host, file).Ok? ==>
              RebuildFile(host, file).value == SnapshotFile(file.path, file.bytes, file.sha256, "text/plain")
              && host.utf8(file.bytes) && 0 !in file.bytes
  {
  }

  /** A legacy document whose text files leave the media type out restores as the same capture. */
  lemma ElidedDocumentRestores(host: Host, json: Json, material: Material, document: Bytes, plain: Plain)
    requires ValidMaterial(host, material) && Elides(plain, PlainOf(host, material))
    requires json.decodeV1(document) == Some(ManifestV1(V1, plain))
    ensures RestoredV1(host, json, document).Ok? && SameCapture(host, material, RestoredV1(host, json, document).value)
  {
    ElidedRebuilds(host, plain, PlainOf(host, material));
    PlainRebuilds(host, material);
  }

  predicate ElidesRef(ref: FileRef, full: FileRef) {
    ref == full || (full.mediaType == "text/plain" && ref == full.(mediaType := ""))
  }

  predicate ElidesRefs(refs: seq<FileRef>, full: seq<FileRef>) {
    |refs| == |full| && forall i :: 0 <= i < |refs| ==> ElidesRef(refs[i], full[i])
  }

  predicate ElidesSideRefs(sides: seq<SideRef>, full: seq<SideRef>) {
    |sides| == |full| && forall i :: 0 <= i < |sides| ==>
      sides[i].side == full[i].side && ElidesRefs(sides[i].files, full[i].files)
  }

  predicate ElidesManifest(wire: Manifest, full: Manifest) {
    && wire == full.(snapshot := wire.snapshot, evidence := wire.evidence)
    && ElidesRefs(wire.snapshot, full.snapshot) && ElidesSideRefs(wire.evidence, full.evidence)
  }

  lemma ElidedContentRefs(refs: seq<FileRef>, full: seq<FileRef>)
    requires ElidesRefs(refs, full)
    ensures ContentRefs(refs) == ContentRefs(full)
  {
    forall i | 0 <= i < |refs| ensures refs[i].Content() == full[i].Content() { assert ElidesRef(refs[i], full[i]); }
  }

  lemma {:induction false} ElidedSideContentRefs(sides: seq<SideRef>, full: seq<SideRef>)
    requires ElidesSideRefs(sides, full)
    ensures SideContentRefs(sides) == SideContentRefs(full)
  {
    if sides != [] {
      ElidedContentRefs(sides[0].files, full[0].files);
      ElidedSideContentRefs(sides[1..], full[1..]);
    }
  }

  lemma {:induction false} ElidedRefsResolve(host: Host, contents: map<string, Bytes>, refs: seq<FileRef>, full: seq<FileRef>)
    requires ElidesRefs(refs, full)
    ensures ResolveFiles(host, contents, refs).Ok? <==> ResolveFiles(host, contents, full).Ok?
    ensures ResolveFiles(host, contents, refs).Ok? ==>
              ElidesFiles(ResolveFiles(host, contents, refs).value, ResolveFiles(host, contents, full).value)
  {
    if refs != [] {
      assert ElidesRef(refs[0], full[0]);
      ElidedRefsResolve(host, contents, refs[1..], full[1..]);
    }
  }

  lemma SidesResolveInTurn(host: Host, contents: map<string, Bytes>, sides: seq<SideRef>)
    requires sides != []
    ensures var files, rest := ResolveFiles(host, contents, sides[0].files), ResolveSides(host, contents, sides[1..]);
            && (ResolveSides(host, contents, sides).Ok? <==> files.Ok? && rest.Ok?)
            && (files.Ok? && rest.Ok? ==>
                  ResolveSides(host, contents, sides) == Ok([PlainSide(sides[0].side, files.value)] + rest.value))
  {
  }

  lemma ElidesSidesInTurn(side: PlainSide, full: PlainSide, rest: seq<PlainSide>, fullRest: seq<PlainSide>)
    requires side.side == full.side && ElidesFiles(side.files, full.files) && ElidesSides(rest, fullRest)
    ensures ElidesSides([side] + rest, [full] + fullRest)
  {
  }

  lemma {:induction false} ElidedSidesResolve(host: Host, contents: map<string, Bytes>, sides: seq<SideRef>, full: seq<SideRef>)
    requires ElidesSideRefs(sides, full)
    ensures ResolveSides(host, contents, sides).Ok? <==> ResolveSides(host, contents, full).Ok?
    ensures ResolveSides(host, contents, sides).Ok? ==>
              ElidesSides(ResolveSides(host, contents, sides).value, ResolveSides(host, contents, full).value)
  {
    if sides != [] {
      ElidedRefsResolve(host, contents, sides[0].files, full[0].files);
      ElidedSidesResolve(host, contents, sides[1..], full[1..]);
      SidesResolveInTurn(host, contents, sides);
      SidesResolveInTurn(host, contents, full);
      if ResolveSides(host, contents, sides).Ok? {
        ElidesSidesInTurn(PlainSide(sides[0].side, ResolveFiles(host, contents, sides[0].files).value),
                          PlainSide(full[0].side, ResolveFiles(host, contents, full[0].files).value),
                          ResolveSides(host, contents, sides[1..]).value, ResolveSides(host, contents, full[1..]).value);
      }
    }
  }

  lemma ElidedManifestResolves(host: Host, contents: map<string, Bytes>, wire: Manifest, full: Manifest)
    requires ElidesManifest(wire, full)
    ensures ResolveManifest(host, contents, wire).Ok? <==> ResolveManifest(host, contents, full).Ok?
    ensures ResolveManifest(host, contents, wire).Ok? ==>
              Elides(ResolveManifest(host, contents, wire).value, ResolveManifest(host, contents, full).value)
  {
    ElidedRefsResolve(host, contents, wire.snapshot, full.snapshot);
    ElidedSidesResolve(host, contents, wire.evidence, full.evidence);
  }

  /** Whatever a manifest restores to, it restores to the same with media types of text left out. */
  lemma ElidedManifestRestores(host: Host, wire: Manifest, full: Manifest, blobs: seq<Blob>)
    requires ElidesManifest(wire, full)
    ensures RestoredV2(host, wire, blobs) == RestoredV2(host, full, blobs)
  {
    ElidedContentRefs(wire.snapshot, full.snapshot);
    ElidedSideContentRefs(wire.evidence, full.evidence);
    assert ManifestRefs(wire) == ManifestRefs(full);
    if Gather(host, blobs).Ok? {
      var contents := Gather(host, blobs).value;
      ElidedManifestResolves(host, contents, wire, full);
      if ResolveManifest(host, contents, wire).Ok? {
        ElidedRebuilds(host, ResolveManifest(host, contents, wire).value, ResolveManifest(host, contents, full).value);
      }
    }
  }

  /** The blobs of an archive restore the capture also under a manifest in which text files leave
      the media type out. */
  lemma ElidedArchiveRestores(host: Host, json: Json, material: Material, document: Bytes, wire: Manifest)
    requires DigestIsPrinted(host) && Archived(host, json, material).Ok?
    requires json.version(document) == Some(V2) && Decoded(json, document) == Ok(wire)
    requires ElidesManifest(wire, Project(host, material))
    ensures var restored := Restored(host, json, document, Archived(host, json, material).value.blobs);
            restored.Ok? && SameCapture(host, material, restored.value)
  {
    var blobs := Archived(host, json, material).value.blobs;
    RestoreDispatches(host, json, document, wire, blobs);
    ElidedManifestRestores(host, wire, Project(host, material), blobs);
    ProjectionRestores(host, material);
    PlainRebuilds(host, material);
  }
}
