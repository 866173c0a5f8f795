/** The archive code as the program runs it: a blob table filled in place, loops over files and
    sides, a buffer written and a reader consumed.  Each method computes the function that
    specifies it. */
module ArchiveCodec {
  import opened Prelude
  import opened Ordering
  import opened Sorting
  import opened Paths
  import opened Capture
  import opened Archive
  import opened ArchiveRoundTrip
  import opened Bundle

  // ---------------------------------------------------------------- map values in path order

  function PathOfBlob(blob: Blob): string { blob.path }

  function PathOfRef(ref: BlobRef): string { ref.path }

  ghost predicate Files<V>(entries: map<string, V>, path: V -> string) {
    forall key :: key in entries ==> path(entries[key]) == key
  }

  /** The values of a map, each once, in no particular order. */
  ghost predicate Ranges<V>(entries: map<string, V>, path: V -> string, values: seq<V>, keys: set<string>) {
    && DistinctKeys(values, path) && |values| == |keys|
    && (forall value :: value in values ==> path(value) in keys && path(value) in entries && value == entries[path(value)])
    && (forall key :: key in keys && key in entries ==> entries[key] in values)
  }

  lemma RangesNext<V>(entries: map<string, V>, path: V -> string, values: seq<V>, keys: set<string>, key: string)
    requires Files(entries, path) && Ranges(entries, path, values, keys) && key in entries && key !in keys
    ensures Ranges(entries, path, values + [entries[key]], keys + {key})
  {
    forall i | 0 <= i < |values| ensures path(values[i]) != key { assert values[i] in values; }
  }

  /** A map is ranged over in an unspecified order. */
  method NextKey<V>(entries: map<string, V>, ranged: set<string>) returns (key: string)
    requires ranged <= entries.Keys && ranged != entries.Keys
    ensures key in entries && key !in ranged
  {
    var open := entries.Keys - ranged;
    assert ranged + open == entries.Keys;
    key :| key in open;
  }

  method RangeValues<V>(entries: map<string, V>, path: V -> string) returns (values: seq<V>)
    requires Files(entries, path)
    ensures Ranges(entries, path, values, entries.Keys)
  {
    values := [];
    var ranged: set<string> := {};
    while ranged != entries.Keys
      invariant ranged <= entries.Keys
      invariant Ranges(entries, path, values, ranged)
      decreases entries.Keys - ranged
    {
      var key := NextKey(entries, ranged);
      RangesNext(entries, path, values, ranged, key);
      values, ranged := values + [entries[key]], ranged + {key};
    }
  }

  /** The values of a map in ascending path order. */
  ghost predicate ByPath<V>(entries: map<string, V>, path: V -> string, list: seq<V>) {
    && |list| == |entries| && Keys(list, path) == Listing(entries.Keys)
    && forall i :: 0 <= i < |list| ==> path(list[i]) in entries && list[i] == entries[path(list[i])]
  }

  lemma RangedKeys<V>(entries: map<string, V>, path: V -> string, values: seq<V>)
    requires Files(entries, path) && Ranges(entries, path, values, entries.Keys)
    ensures Elements(Keys(values, path)) == entries.Keys && |values| == |entries|
  {
    KeyElements(values, path);
    assert |entries.Keys| == |entries|;
  }

  lemma SortedByPath<V(!new)>(entries: map<string, V>, path: V -> string, values: seq<V>, list: seq<V>,
                              less: (V, V) -> bool)
    requires Files(entries, path) && Ranges(entries, path, values, entries.Keys)
    requires OrdersBy(less, path) && multiset(list) == multiset(values) && Sorted(list, less)
    ensures ByPath(entries, path, list)
  {
    SortedByKey(values, list, less, path);
    RangedKeys(entries, path, values);
    forall i | 0 <= i < |list| ensures path(list[i]) in entries && list[i] == entries[path(list[i])] {
      assert list[i] in values;
    }
  }

  /** Ranging over a map in whatever order it comes, then sorting the values by path. */
  method ValuesByPath<V(!new)>(entries: map<string, V>, path: V -> string) returns (list: seq<V>)
    requires Files(entries, path)
    ensures ByPath(entries, path, list)
  {
    var values := RangeValues(entries, path);
    var less := (a: V, b: V) => Less(path(a), path(b));
    KeyOrderIsStrictWeak(less, path);
    list := SortSlice(values, less);
    SortedByPath(entries, path, values, list, less);
  }

  // ---------------------------------------------------------------- writing

  /** The table that files each stored body as a blob. */
  function Table(host: Host, bodies: map<string, Bytes>): map<string, Blob> {
    map path | path in bodies :: Blob(path, host.sha256(bodies[path]), bodies[path])
  }

  lemma CollisionsStay(host: Host, front: seq<Bytes>, back: seq<Bytes>)
    requires Collides(host, front)
    ensures Collides(host, front + back)
  {
    var a, b :| a in front && b in front && Clash(host, a, b);
    assert a in front + back && b in front + back;
  }

  lemma StoresOne(host: Host, stored: seq<Bytes>, contents: Bytes)
    ensures BlobMap(host, stored + [contents]) == Store(host, BlobMap(host, stored), contents)
  {
    assert (stored + [contents])[..|stored|] == stored;
  }

  /** Storing one more content collides exactly when its path holds a different body. */
  lemma CollidesOnStore(host: Host, stored: seq<Bytes>, contents: Bytes)
    requires DigestIsPrinted(host) && !Collides(host, stored)
    ensures var path, bodies := BlobPath(host.sha256(contents)), BlobMap(host, stored);
            Collides(host, stored + [contents]) <==> contents != [] && path in bodies && bodies[path] != contents
  {
    var path, bodies := BlobPath(host.sha256(contents)), BlobMap(host, stored);
    BlobMapKeys(host, stored);
    BlobPathIsPath(host.sha256(contents));
    if contents != [] && path in bodies && bodies[path] != contents {
      BlobPathIsPath(host.sha256(bodies[path]));
      assert Clash(host, bodies[path], contents);
      assert bodies[path] in stored + [contents] && contents in stored + [contents];
    }
    if Collides(host, stored + [contents]) {
      var a, b :| a in stored + [contents] && b in stored + [contents] && Clash(host, a, b);
      var other := if a == contents then b else a;
      assert a in stored && b in stored ==> Clash(host, a, b) && Collides(host, stored);
      assert other in stored && Clash(host, other, contents);
      BlobMapHolds(host, stored, other);
    }
  }

  lemma PrefixGrows<T>(base: seq<T>, items: seq<T>, i: nat)
    requires i < |items|
    ensures base + items[..i] + [items[i]] == base + items[..i + 1]
    ensures base + items[..i + 1] + items[i + 1..] == base + items
  {
    assert items == items[..i] + [items[i]] + items[i + 1..];
  }

  /** One turn of the loop over the files. */
  lemma NextContent(host: Host, base: seq<Bytes>, source: seq<SnapshotFile>, i: nat)
    requires i < |source|
    ensures base + FileContents(source)[..i] + [source[i].bytes] == base + FileContents(source)[..i + 1]
    ensures Collides(host, base + FileContents(source)[..i + 1]) ==> Collides(host, base + FileContents(source))
    ensures FileRefs(host, source)[..i + 1] == FileRefs(host, source)[..i] + [NextRef(host, source[i])]
  {
    PrefixGrows(base, FileContents(source), i);
    if Collides(host, base + FileContents(source)[..i + 1]) {
      CollisionsStay(host, base + FileContents(source)[..i + 1], FileContents(source)[i + 1..]);
    }
  }

  function NextRef(host: Host, file: SnapshotFile): FileRef {
    var ref := RefOf(host, file.bytes);
    FileRef(file.path, ref.sha256, ref.blob, file.mediaType)
  }

  predicate Misidentified(host: Host, file: SnapshotFile) { file.sha256 != host.sha256(file.bytes) }

  ghost predicate Misidentifies(host: Host, files: seq<SnapshotFile>) {
    exists i :: 0 <= i < |files| && Misidentified(host, files[i])
  }

  lemma ValidFilesAreIdentified(host: Host, files: seq<SnapshotFile>)
    requires forall file :: file in files ==> ValidFile(host, file)
    ensures !Misidentifies(host, files)
  {
    forall i | 0 <= i < |files| ensures !Misidentified(host, files[i]) { assert files[i] in files; }
  }

  /** The blob table that the writer's closures share. */
  class CaptureWriter {
    const host: Host
    var blobs: map<string, Blob>
    ghost var stored: seq<Bytes>

    ghost predicate Valid()
      reads this
    {
      DigestIsPrinted(host) && !Collides(host, stored) && blobs == Table(host, BlobMap(host, stored))
    }

    constructor (host: Host)
      requires DigestIsPrinted(host)
      ensures Valid() && this.host == host && stored == []
    {
      this.host := host;
      blobs := map[];
      stored := [];
    }

    method Add(contents: Bytes) returns (ref: Result<ContentRef>)
      requires Valid()
      modifies this
      ensures ref.Ok? ==> Valid() && stored == old(stored) + [contents] && ref.value == RefOf(host, contents)
      ensures ref.Err? ==> Collides(host, old(stored) + [contents])
    {
      var digest := host.sha256(contents);
      CollidesOnStore(host, stored, contents);
      StoresOne(host, stored, contents);
      if contents == [] {
        stored := stored + [contents];
        return Ok(ContentRef(digest, ""));
      }
      var path := BlobPath(digest);
      BlobPathIsPath(digest);
      if path in blobs {
        if blobs[path].bytes != contents { return Err; }
      } else {
        blobs := blobs[path := Blob(path, digest, contents)];
      }
      stored := stored + [contents];
      ref := Ok(ContentRef(digest, path));
    }

    method AddFiles(source: seq<SnapshotFile>) returns (refs: Result<seq<FileRef>>)
      requires Valid()
      modifies this
      ensures refs.Ok? ==> Valid() && stored == old(stored) + FileContents(source) && refs.value == FileRefs(host, source)
      ensures refs.Err? ==> Collides(host, old(stored) + FileContents(source)) || Misidentifies(host, source)
    {
      var list: seq<FileRef> := [];
      ghost var base := stored;
      for i := 0 to |source|
        invariant Valid() && stored == base + FileContents(source)[..i]
        invariant list == FileRefs(host, source)[..i]
      {
        NextContent(host, base, source, i);
        var ref := Add(source[i].bytes);
        if ref.Err? { return Err; }
        if ref.value.sha256 != source[i].sha256 {
          assert Misidentified(host, source[i]);
          return Err;
        }
        list := list + [FileRef(source[i].path, ref.value.sha256, ref.value.blob, source[i].mediaType)];
      }
      refs := Ok(list);
    }
  }

  // the storing order of a material, one group of contents at a time

  function ContextContents(material: Material): seq<Bytes> {
    if material.hasProjectContext then [material.projectContext] else []
  }

  lemma {:induction false} SidesGrow(host: Host, evidence: Evidence, front: seq<string>, side: string)
    ensures SideRefs(host, evidence, front + [side])
         == SideRefs(host, evidence, front)
            + if side in evidence then [SideRef(side, FileRefs(host, evidence[side]))] else []
    ensures SideContents(evidence, front + [side])
         == SideContents(evidence, front) + if side in evidence then FileContents(evidence[side]) else []
  {
    if front == [] {
      assert (front + [side])[1..] == [];
    } else {
      assert (front + [side])[1..] == front[1..] + [side];
      SidesGrow(host, evidence, front[1..], side);
    }
  }

  lemma {:induction false} SideContentsConcatenation(evidence: Evidence, a: seq<string>, b: seq<string>)
    ensures SideContents(evidence, a + b) == SideContents(evidence, a) + SideContents(evidence, b)
  {
    if a == [] {
      assert a + b == b;
    } else {
      assert (a + b)[1..] == a[1..] + b;
      SideContentsConcatenation(evidence, a[1..], b);
    }
  }

  /** One turn of the loop over the sides. */
  lemma NextSide(host: Host, base: seq<Bytes>, evidence: Evidence, sides: seq<string>, i: nat)
    requires i < |sides|
    ensures var side, front, next := sides[i], sides[..i], sides[..i + 1];
            && base + SideContents(evidence, next)
               == base + SideContents(evidence, front) + (if side in evidence then FileContents(evidence[side]) else [])
            && SideRefs(host, evidence, next)
               == SideRefs(host, evidence, front)
                  + (if side in evidence then [SideRef(side, FileRefs(host, evidence[side]))] else [])
  {
    SidesGrow(host, evidence, sides[..i], sides[i]);
    assert sides[..i + 1] == sides[..i] + [sides[i]];
  }

  lemma EarlyCollisionsStay(host: Host, base: seq<Bytes>, evidence: Evidence, sides: seq<string>, n: nat)
    requires n <= |sides| && Collides(host, base + SideContents(evidence, sides[..n]))
    ensures Collides(host, base + SideContents(evidence, sides))
  {
    assert sides == sides[..n] + sides[n..];
    SideContentsConcatenation(evidence, sides[..n], sides[n..]);
    CollisionsStay(host, base + SideContents(evidence, sides[..n]), SideContents(evidence, sides[n..]));
    assert base + SideContents(evidence, sides[..n]) + SideContents(evidence, sides[n..])
        == base + (SideContents(evidence, sides[..n]) + SideContents(evidence, sides[n..]));
  }

  ghost predicate SidesIdentified(host: Host, evidence: Evidence) {
    forall side :: side in evidence ==> !Misidentifies(host, evidence[side])
  }

  /** The wire sides of the evidence, their bodies stored in the writer. */
  method WriteSides(writer: CaptureWriter, evidence: Evidence) returns (sides: Result<seq<SideRef>>)
    requires writer.Valid() && SidesIdentified(writer.host, evidence)
    modifies writer
    ensures sides.Ok? ==> writer.Valid() && writer.stored == old(writer.stored) + SideContents(evidence, SIDES)
                          && sides.value == SideRefs(writer.host, evidence, SIDES)
    ensures sides.Err? ==> Collides(writer.host, old(writer.stored) + SideContents(evidence, SIDES))
  {
    var list: seq<SideRef> := [];
    ghost var base := writer.stored;
    for i := 0 to |SIDES|
      invariant writer.Valid() && writer.stored == base + SideContents(evidence, SIDES[..i])
      invariant list == SideRefs(writer.host, evidence, SIDES[..i])
    {
      NextSide(writer.host, base, evidence, SIDES, i);
      if SIDES[i] in evidence {
        var refs := writer.AddFiles(evidence[SIDES[i]]);
        if refs.Err? {
          EarlyCollisionsStay(writer.host, base, evidence, SIDES, i + 1);
          return Err;
        }
        list := list + [SideRef(SIDES[i], refs.value)];
      }
    }
    assert SIDES[..|SIDES|] == SIDES;
    sides := Ok(list);
  }

  lemma MaterialIsIdentified(host: Host, material: Material)
    requires ValidMaterial(host, material)
    ensures !Misidentifies(host, material.snapshot.files) && SidesIdentified(host, EvidenceOf(host, material))
  {
    RequestFilesAreValid(host, material.snapshot);
    ValidFilesAreIdentified(host, material.snapshot.files);
    EvidenceFilesAreValid(host, material);
    forall side | side in EvidenceOf(host, material) ensures !Misidentifies(host, EvidenceOf(host, material)[side]) {
      ValidFilesAreIdentified(host, EvidenceOf(host, material)[side]);
    }
  }

  /** What has been stored before the context and the evidence. */
  ghost function FirstContents(material: Material): seq<Bytes> {
    [material.target.bytes] + FileContents(material.snapshot.files)
  }

  /** The first content has nothing to collide with. */
  lemma NothingCollidesAlone(host: Host, contents: Bytes)
    ensures !Collides(host, [contents])
  {
  }

  /** Target and snapshot of the wire, their bodies stored in the writer. */
  method WriteTarget(writer: CaptureWriter, material: Material) returns (refs: Result<(ContentRef, seq<FileRef>)>)
    requires writer.Valid() && writer.stored == []
    requires !Misidentifies(writer.host, material.snapshot.files)
    modifies writer
    ensures refs.Ok? ==> writer.Valid() && writer.stored == FirstContents(material)
                         && refs.value.0 == RefOf(writer.host, material.target.bytes)
                         && refs.value.1 == FileRefs(writer.host, material.snapshot.files)
    ensures refs.Err? ==> Collides(writer.host, FirstContents(material))
  {
    assert [] + [material.target.bytes] == [material.target.bytes];
    NothingCollidesAlone(writer.host, material.target.bytes);
    var target := writer.Add(material.target.bytes);
    var snapshot := writer.AddFiles(material.snapshot.files);
    if snapshot.Err? { return Err; }
    refs := Ok((target.value, snapshot.value));
  }

  method WriteContext(writer: CaptureWriter, material: Material) returns (context: Result<Option<ContentRef>>)
    requires writer.Valid()
    modifies writer
    ensures context.Ok? ==> writer.Valid() && writer.stored == old(writer.stored) + ContextContents(material)
                            && context.value == if material.hasProjectContext
                                                then Some(RefOf(writer.host, material.projectContext)) else None
    ensures context.Err? ==> Collides(writer.host, old(writer.stored) + ContextContents(material))
  {
    if !material.hasProjectContext { return Ok(None); }
    var ref := writer.Add(material.projectContext);
    context := if ref.Ok? then Ok(Some(ref.value)) else Err;
  }

  lemma ContentsByGroup(host: Host, material: Material)
    ensures var first, context, sides :=
              FirstContents(material), ContextContents(material), SideContents(EvidenceOf(host, material), SIDES);
            && Contents(host, material) == first + context + sides
            && (Collides(host, first) ==> Collides(host, first + context))
            && (Collides(host, first + context) ==> Collides(host, Contents(host, material)))
  {
    var first, context := FirstContents(material), ContextContents(material);
    if Collides(host, first) { CollisionsStay(host, first, context); }
    if Collides(host, first + context) {
      CollisionsStay(host, first + context, SideContents(EvidenceOf(host, material), SIDES));
    }
  }

  method WriteManifest(writer: CaptureWriter, material: Material, evidence: Evidence) returns (wire: Result<Manifest>)
    requires writer.Valid() && writer.stored == []
    requires ValidMaterial(writer.host, material) && evidence == EvidenceOf(writer.host, material)
    modifies writer
    ensures wire.Ok? ==> writer.Valid() && writer.stored == Contents(writer.host, material)
                         && wire.value == Project(writer.host, material)
    ensures wire.Err? ==> Collides(writer.host, Contents(writer.host, material))
  {
    ContentsByGroup(writer.host, material);
    MaterialIsIdentified(writer.host, material);
    var first := WriteTarget(writer, material);
    if first.Err? { return Err; }
    var context := WriteContext(writer, material);
    if context.Err? { return Err; }
    var sides := WriteSides(writer, evidence);
    if sides.Err? { return Err; }
    wire := Ok(Manifest(V2, material.target.identity.wire, first.value.0, material.snapshot.policy, first.value.1,
                        context.value, material.hasProjectContext, sides.value));
  }

  method NewCapturedReviewArchive(host: Host, json: Json, material: Material) returns (result: Result<ReviewArchive>)
    requires DigestIsPrinted(host)
    ensures result == Archived(host, json, material)
  {
    var admitted := NewCapturedReviewMaterial(host, material.target, material.snapshot, material.projectContext,
                                              material.hasProjectContext, material.evidence);
    if admitted.Err? { return Err; }
    var validated := NewCapturedTargetEvidence(host, material.evidence);
    var writer := new CaptureWriter(host);
    var wire := WriteManifest(writer, material, if validated.Ok? then validated.value else map[]);
    if wire.Err? { return Err; }
    TableFiles(host, writer.stored);
    var blobs := ValuesByPath(writer.blobs, PathOfBlob);
    ByPathIsSorted(host, BlobMap(host, writer.stored), blobs);
    result := Ok(ReviewArchive(json.encode(wire.value), blobs));
  }

  lemma TableFiles(host: Host, stored: seq<Bytes>)
    ensures Files(Table(host, BlobMap(host, stored)), PathOfBlob)
  {
  }

  lemma ByPathIsSorted(host: Host, bodies: map<string, Bytes>, list: seq<Blob>)
    requires ByPath(Table(host, bodies), PathOfBlob, list)
    ensures list == SortedBlobs(host, bodies)
  {
    assert Table(host, bodies).Keys == bodies.Keys;
    assert |list| == |Listing(bodies.Keys)|;
    forall i | 0 <= i < |list| ensures list[i] == SortedBlobs(host, bodies)[i] {
      assert PathOfBlob(list[i]) == Keys(list, PathOfBlob)[i];
    }
  }

  // ---------------------------------------------------------------- references of a manifest

  /** The reference table that the closures of capturedManifestReferences share. */
  class ReferenceTable {
    const host: Host
    var refs: map<string, BlobRef>
    ghost var added: seq<ContentRef>

    ghost predicate Valid()
      reads this
    {
      && (forall ref :: ref in added ==> WellFormedRef(host, ref))
      && refs.Keys == RefPaths(host, added)
      && forall path :: path in refs ==> refs[path] == BlobRef(path, DigestOfPath(path))
    }

    constructor (host: Host)
      ensures Valid() && this.host == host && added == []
    {
      this.host := host;
      refs := map[];
      added := [];
    }

    method Add(ref: ContentRef) returns (ok: bool)
      requires Valid()
      modifies this
      ensures ok <==> WellFormedRef(host, ref)
      ensures ok ==> Valid() && added == old(added) + [ref]
    {
      AddedPaths(host, added, ref);
      if EmptyRef(host, ref) {
        added := added + [ref];
        return true;
      }
      if !ValidPath(ref.blob) || ref.blob != BlobPath(ref.sha256) { return false; }
      AddressedDigest(ref);
      refs := refs[ref.blob := BlobRef(ref.blob, ref.sha256)];
      added := added + [ref];
      ok := true;
    }

    method AddFiles(files: seq<FileRef>) returns (ok: bool)
      requires Valid()
      modifies this
      ensures ok <==> forall ref :: ref in ContentRefs(files) ==> WellFormedRef(host, ref)
      ensures ok ==> Valid() && added == old(added) + ContentRefs(files)
    {
      for i := 0 to |files|
        invariant Valid() && added == old(added) + ContentRefs(files)[..i]
      {
        PrefixGrows(old(added), ContentRefs(files), i);
        assert ContentRefs(files)[i] in ContentRefs(files);
        var fine := Add(files[i].Content());
        if !fine { return false; }
      }
      assert forall ref :: ref in ContentRefs(files) ==> ref in added;
      ok := true;
    }
  }

  lemma AddedPaths(host: Host, added: seq<ContentRef>, ref: ContentRef)
    ensures RefPaths(host, added + [ref]) == RefPaths(host, added) + if EmptyRef(host, ref) then {} else {ref.blob}
  {
    forall path | path in RefPaths(host, added) ensures path in RefPaths(host, added + [ref]) {
      var other :| other in added && !EmptyRef(host, other) && other.blob == path;
      assert other in added + [ref];
    }
    assert ref in added + [ref];
  }

  lemma AddressedDigest(ref: ContentRef)
    requires ValidPath(ref.blob) && ref.blob == BlobPath(ref.sha256)
    ensures DigestOfPath(ref.blob) == ref.sha256
  {
    BlobPathIsPath(ref.sha256);
  }

  ghost predicate AllWellFormed(host: Host, refs: seq<ContentRef>) {
    forall ref :: ref in refs ==> WellFormedRef(host, ref)
  }

  method AddSides(table: ReferenceTable, sides: seq<SideRef>) returns (ok: bool)
    requires table.Valid()
    modifies table
    ensures ok <==> AllWellFormed(table.host, SideContentRefs(sides))
    ensures ok ==> table.Valid() && table.added == old(table.added) + SideContentRefs(sides)
  {
    ghost var base := table.added;
    for i := 0 to |sides|
      invariant table.Valid() && table.added == base + SideContentRefs(sides[..i])
    {
      NextSideRefs(base, sides, i);
      var fine := table.AddFiles(sides[i].files);
      if !fine { return false; }
    }
    assert sides[..|sides|] == sides;
    assert forall ref :: ref in SideContentRefs(sides) ==> ref in table.added;
    ok := true;
  }

  lemma {:induction false} SideContentRefsConcatenation(a: seq<SideRef>, b: seq<SideRef>)
    ensures SideContentRefs(a + b) == SideContentRefs(a) + SideContentRefs(b)
  {
    if a == [] {
      assert a + b == b;
    } else {
      assert (a + b)[1..] == a[1..] + b;
      SideContentRefsConcatenation(a[1..], b);
    }
  }

  lemma SideContentRefsOfOne(side: SideRef)
    ensures SideContentRefs([side]) == ContentRefs(side.files)
  {
    assert [side][1..] == [];
  }

  lemma Splits<T>(items: seq<T>, i: nat)
    requires i < |items|
    ensures items[..i + 1] == items[..i] + [items[i]] && items == items[..i] + [items[i]] + items[i + 1..]
  {
  }

  lemma NextSideRefs(base: seq<ContentRef>, sides: seq<SideRef>, i: nat)
    requires i < |sides|
    ensures base + SideContentRefs(sides[..i]) + ContentRefs(sides[i].files) == base + SideContentRefs(sides[..i + 1])
    ensures forall ref :: ref in ContentRefs(sides[i].files) ==> ref in SideContentRefs(sides)
  {
    var front, back := sides[..i], sides[i + 1..];
    Splits(sides, i);
    SideContentRefsOfOne(sides[i]);
    SideContentRefsConcatenation(front, [sides[i]]);
    SideContentRefsConcatenation(front + [sides[i]], back);
    Associates(base, SideContentRefs(front), ContentRefs(sides[i].files));
    Associates(SideContentRefs(front), ContentRefs(sides[i].files), SideContentRefs(back));
  }

  method CapturedManifestReferences(host: Host, wire: Manifest) returns (result: Result<seq<BlobRef>>)
    ensures result == References(host, wire)
  {
    var table := new ReferenceTable(host);
    var context := if wire.context.Some? then [wire.context.value] else [];
    assert wire.target in ManifestRefs(wire);
    var ok := table.Add(wire.target);
    if !ok { return Err; }
    if wire.context.Some? {
      assert wire.context.value in ManifestRefs(wire);
      ok := table.Add(wire.context.value);
      if !ok { return Err; }
    }
    assert table.added == [wire.target] + context;
    ok := table.AddFiles(wire.snapshot);
    if !ok { return Err; }
    ok := AddSides(table, wire.evidence);
    if !ok { return Err; }
    assert table.added == ManifestRefs(wire);
    var refs := ValuesByPath(table.refs, PathOfRef);
    ByPathIsListed(table.refs, refs);
    result := Ok(refs);
  }

  lemma ByPathIsListed(refs: map<string, BlobRef>, list: seq<BlobRef>)
    requires forall path :: path in refs ==> refs[path] == BlobRef(path, DigestOfPath(path))
    requires ByPath(refs, PathOfRef, list)
    ensures list == RefList(Listing(refs.Keys))
  {
    assert |list| == |Listing(refs.Keys)|;
    forall i | 0 <= i < |list| ensures list[i] == RefList(Listing(refs.Keys))[i] {
      assert PathOfRef(list[i]) == Keys(list, PathOfRef)[i];
    }
  }

  // ---------------------------------------------------------------- restoring

  /** capturedRefsToFiles: each file resolved and rebuilt in turn. */
  function RestoreFiles(host: Host, contents: map<string, Bytes>, files: seq<FileRef>): Result<seq<SnapshotFile>> {
    match ResolveFiles(host, contents, files)
    case Ok(plain) => RebuildFiles(host, plain)
    case Err => Err
  }

  function RestoreFile(host: Host, contents: map<string, Bytes>, file: FileRef): Result<SnapshotFile> {
    match Resolve(host, contents, file.Content())
    case Ok(body) => RebuildFile(host, PlainFile(file.path, file.sha256, body, file.mediaType))
    case Err => Err
  }

  lemma RestoreFilesStep(host: Host, contents: map<string, Bytes>, files: seq<FileRef>)
    requires files != []
    ensures RestoreFiles(host, contents, files)
         == match RestoreFile(host, contents, files[0])
            case Ok(file) => Prepend([file], RestoreFiles(host, contents, files[1..]))
            case Err => Err
  {
    var plain := ResolveFiles(host, contents, files);
    if plain.Ok? { assert plain.value[1..] == ResolveFiles(host, contents, files[1..]).value; }
  }

  function Prepend<T>(front: seq<T>, rest: Result<seq<T>>): Result<seq<T>> {
    match rest case Ok(items) => Ok(front + items) case Err => Err
  }

  lemma PrependTwice<T>(front: seq<T>, item: T, rest: Result<seq<T>>)
    ensures Prepend(front, Prepend([item], rest)) == Prepend(front + [item], rest)
  {
    if rest.Ok? { assert front + ([item] + rest.value) == front + [item] + rest.value; }
  }

  method RefsToFiles(host: Host, contents: map<string, Bytes>, files: seq<FileRef>)
    returns (result: Result<seq<SnapshotFile>>)
    ensures result == RestoreFiles(host, contents, files)
  {
    var list: seq<SnapshotFile> := [];
    assert RestoreFiles(host, contents, files) == Prepend([], RestoreFiles(host, contents, files[0..])) by {
      assert files[0..] == files;
      var rest := RestoreFiles(host, contents, files);
      if rest.Ok? { assert [] + rest.value == rest.value; }
    }
    for i := 0 to |files|
      invariant RestoreFiles(host, contents, files) == Prepend(list, RestoreFiles(host, contents, files[i..]))
    {
      RestoreFilesStep(host, contents, files[i..]);
      assert files[i..][1..] == files[i + 1..];
      var file := RestoreFile(host, contents, files[i]);
      if file.Err? { return Err; }
      PrependTwice(list, file.value, RestoreFiles(host, contents, files[i + 1..]));
      list := list + [file.value];
    }
    assert list + [] == list;
    result := Ok(list);
  }

  /** The evidence loop: resolving and rebuilding one side after the other. */
  function RestoreSides(host: Host, contents: map<string, Bytes>, sides: seq<SideRef>, known: Evidence): Result<Evidence> {
    if sides == [] then Ok(known)
    else if sides[0].side !in SIDES || sides[0].side in known then Err
    else
      match RestoreFiles(host, contents, sides[0].files)
      case Ok(files) => RestoreSides(host, contents, sides[1..], known[sides[0].side := files])
      case Err => Err
  }

  /** Resolving every side before rebuilding any comes to the same. */
  lemma {:induction false} RestoreSidesInTurn(host: Host, contents: map<string, Bytes>, sides: seq<SideRef>, known: Evidence)
    ensures RestoreSides(host, contents, sides, known)
         == match ResolveSides(host, contents, sides) case Ok(plain) => RebuildSides(host, plain, known) case Err => Err
  {
    if sides != [] {
      var plain := ResolveSides(host, contents, sides);
      if plain.Ok? { assert plain.value[1..] == ResolveSides(host, contents, sides[1..]).value; }
      var files := RestoreFiles(host, contents, sides[0].files);
      if sides[0].side in SIDES && sides[0].side !in known && files.Ok? {
        RestoreSidesInTurn(host, contents, sides[1..], known[sides[0].side := files.value]);
      }
    }
  }

  method RefsToSides(host: Host, contents: map<string, Bytes>, list: seq<SideRef>) returns (result: Result<Evidence>)
    ensures result == RestoreSides(host, contents, list, map[])
  {
    var sides: Evidence := map[];
    for i := 0 to |list|
      invariant RestoreSides(host, contents, list, map[]) == RestoreSides(host, contents, list[i..], sides)
    {
      assert list[i..][1..] == list[i + 1..];
      if list[i].side !in SIDES || list[i].side in sides { return Err; }
      var files := RefsToFiles(host, contents, list[i].files);
      if files.Err? { return Err; }
      sides := sides[list[i].side := files.value];
    }
    result := Ok(sides);
  }

  /** The blobs by path, unless one is invalid or a path occurs twice. */
  method GatherBlobs(host: Host, blobs: seq<Blob>) returns (result: Result<map<string, Bytes>>)
    ensures result == Gather(host, blobs)
  {
    var contents: map<string, Bytes> := map[];
    for i := 0 to |blobs|
      invariant Gather(host, blobs[..i]) == Ok(contents)
    {
      assert blobs[..i + 1][..i] == blobs[..i];
      if !ValidBlob(host, blobs[i]) || blobs[i].path in contents {
        GatherStops(host, blobs, i + 1);
        return Err;
      }
      contents := contents[blobs[i].path := blobs[i].bytes];
    }
    assert blobs[..|blobs|] == blobs;
    result := Ok(contents);
  }

  lemma {:induction false} GatherStops(host: Host, blobs: seq<Blob>, n: nat)
    requires n <= |blobs| && Gather(host, blobs[..n]).Err?
    ensures Gather(host, blobs).Err?
    decreases |blobs| - n
  {
    if n == |blobs| {
      assert blobs[..n] == blobs;
    } else {
      assert blobs[..n + 1][..n] == blobs[..n];
      GatherStops(host, blobs, n + 1);
    }
  }

  method CheckInventory(host: Host, contents: map<string, Bytes>, refs: seq<BlobRef>) returns (ok: bool)
    ensures ok <==> Covers(host, contents, refs)
  {
    if |contents| != |refs| { return false; }
    for i := 0 to |refs|
      invariant forall k :: 0 <= k < i ==> refs[k].path in contents && host.sha256(contents[refs[k].path]) == refs[k].sha256
    {
      if refs[i].path !in contents || host.sha256(contents[refs[i].path]) != refs[i].sha256 {
        assert refs[i] in refs;
        return false;
      }
    }
    ok := true;
  }

  /** No side at all is no evidence; otherwise the sides must validate. */
  method EvidenceOfSides(host: Host, sides: Evidence) returns (result: Result<Evidence>)
    ensures result == if sides == map[] then Ok(sides) else NewEvidence(host, sides)
  {
    if sides == map[] { return Ok(map[]); }
    result := NewCapturedTargetEvidence(host, sides);
  }

  /** The part of a restore that follows the inventory checks. */
  method RebuildFromBlobs(host: Host, contents: map<string, Bytes>, wire: Manifest) returns (result: Result<Material>)
    ensures result == match ResolveManifest(host, contents, wire) case Ok(plain) => Rebuild(host, plain) case Err => Err
  {
    RestoreSidesInTurn(host, contents, wire.evidence, map[]);
    var identity := NewTargetIdentity(host, wire.identity);
    if identity.Err? { return Err; }
    var targetBytes := Resolve(host, contents, wire.target);
    if targetBytes.Err? { return Err; }
    var target := TargetFromIdentity(host, identity.value, targetBytes.value);
    if target.Err? { return Err; }
    var files := RefsToFiles(host, contents, wire.snapshot);
    if files.Err? { return Err; }
    var snapshot := NewSnapshotRequest(host, files.value, wire.policy);
    if snapshot.Err? { return Err; }
    var sides := RefsToSides(host, contents, wire.evidence);
    if sides.Err? { return Err; }
    var evidence := EvidenceOfSides(host, sides.value);
    if evidence.Err? { return Err; }
    var context := ResolveContext(host, contents, wire);
    if context.Err? { return Err; }
    result := NewCapturedReviewMaterial(host, target.value, snapshot.value, context.value, wire.hasContext,
                                         evidence.value);
  }

  // ---------------------------------------------------------------- the legacy document

  method ArchiveToFiles(host: Host, files: seq<PlainFile>) returns (result: Result<seq<SnapshotFile>>)
    ensures result == RebuildFiles(host, files)
  {
    var list: seq<SnapshotFile> := [];
    assert RebuildFiles(host, files) == Prepend([], RebuildFiles(host, files[0..])) by {
      assert files[0..] == files;
      var rest := RebuildFiles(host, files);
      if rest.Ok? { assert [] + rest.value == rest.value; }
    }
    for i := 0 to |files|
      invariant RebuildFiles(host, files) == Prepend(list, RebuildFiles(host, files[i..]))
    {
      assert files[i..][1..] == files[i + 1..];
      var file := RebuildFile(host, files[i]);
      if file.Err? { return Err; }
      PrependTwice(list, file.value, RebuildFiles(host, files[i + 1..]));
      list := list + [file.value];
    }
    assert list + [] == list;
    result := Ok(list);
  }

  method ArchiveToSides(host: Host, list: seq<PlainSide>) returns (result: Result<Evidence>)
    ensures result == RebuildSides(host, list, map[])
  {
    var sides: Evidence := map[];
    for i := 0 to |list|
      invariant RebuildSides(host, list, map[]) == RebuildSides(host, list[i..], sides)
    {
      assert list[i..][1..] == list[i + 1..];
      if list[i].side !in SIDES || list[i].side in sides { return Err; }
      var files := ArchiveToFiles(host, list[i].files);
      if files.Err? { return Err; }
      sides := sides[list[i].side := files.value];
    }
    result := Ok(sides);
  }

  method UnmarshalV1(host: Host, json: Json, document: Bytes) returns (result: Result<Material>)
    ensures result == RestoredV1(host, json, document)
  {
    var decoded := json.decodeV1(document);
    if decoded.None? || decoded.value.schemaVersion != V1 { return Err; }
    var wire := decoded.value.plain;
    var identity := NewTargetIdentity(host, wire.identity);
    if identity.Err? { return Err; }
    var target := TargetFromIdentity(host, identity.value, wire.target);
    if target.Err? { return Err; }
    var files := ArchiveToFiles(host, wire.snapshot);
    if files.Err? { return Err; }
    var snapshot := NewSnapshotRequest(host, files.value, wire.policy);
    if snapshot.Err? { return Err; }
    var sides := ArchiveToSides(host, wire.evidence);
    if sides.Err? { return Err; }
    var evidence := EvidenceOfSides(host, sides.value);
    if evidence.Err? { return Err; }
    result := NewCapturedReviewMaterial(host, target.value, snapshot.value, wire.context, wire.hasContext, evidence.value);
  }

  method RestoreCapturedReviewArchive(host: Host, json: Json, manifest: Bytes, blobs: seq<Blob>)
    returns (result: Result<Material>)
    ensures result == Restored(host, json, manifest, blobs)
  {
    VersionsDiffer();
    var version := json.version(manifest);
    if version == None { return Err; }
    if version == Some(V1) {
      if |blobs| != 0 { return Err; }
      result := UnmarshalV1(host, json, manifest);
      return;
    }
    if version != Some(V2) { return Err; }
    var wire := Decoded(json, manifest);
    if wire.Err? { return Err; }
    var refs := CapturedManifestReferences(host, wire.value);
    if refs.Err? { return Err; }
    var contents := GatherBlobs(host, blobs);
    if contents.Err? { return Err; }
    var covered := CheckInventory(host, contents.value, refs.value);
    if !covered { return Err; }
    result := RebuildFromBlobs(host, contents.value, wire.value);
  }

  // ---------------------------------------------------------------- the bundle

  method MarshalCapturedReviewBundle(host: Host, json: Json, material: Material) returns (result: Result<Bytes>)
    requires DigestIsPrinted(host)
    ensures result == Marshalled(host, json, material)
  {
    var archived := NewCapturedReviewArchive(host, json, material);
    if archived.Err? { return Err; }
    var manifest, blobs := archived.value.manifest, archived.value.blobs;
    var buffer := MAGIC + (BigEndian(|manifest|, 8) + manifest);
    if |blobs| > UINT32_MAX { return Err; }
    var bodies := WriteBodies(blobs);
    Associates(MAGIC, Framed(manifest), BigEndian(|blobs|, 4) + bodies);
    result := Ok(buffer + (BigEndian(|blobs|, 4) + bodies));
  }

  method WriteBodies(blobs: seq<Blob>) returns (buffer: Bytes)
    ensures buffer == FramedBodies(Bodies(blobs))
  {
    buffer := [];
    for i := 0 to |blobs|
      invariant buffer == FramedBodies(Bodies(blobs[..i]))
    {
      NextBody(blobs, i);
      buffer := buffer + (BigEndian(|blobs[i].bytes|, 8) + blobs[i].bytes);
    }
    assert blobs[..|blobs|] == blobs;
  }

  lemma {:induction false} FramedConcatenation(a: seq<Bytes>, b: seq<Bytes>)
    ensures FramedBodies(a + b) == FramedBodies(a) + FramedBodies(b)
  {
    if a == [] {
      assert a + b == b;
    } else {
      assert (a + b)[1..] == a[1..] + b;
      FramedConcatenation(a[1..], b);
      Associates(Framed(a[0]), FramedBodies(a[1..]), FramedBodies(b));
    }
  }

  lemma NextBody(blobs: seq<Blob>, i: nat)
    requires i < |blobs|
    ensures FramedBodies(Bodies(blobs[..i + 1])) == FramedBodies(Bodies(blobs[..i])) + Framed(blobs[i].bytes)
  {
    var body := blobs[i].bytes;
    assert Bodies(blobs[..i + 1]) == Bodies(blobs[..i]) + [body];
    FramedConcatenation(Bodies(blobs[..i]), [body]);
    assert FramedBodies([body]) == Framed(body) by { assert [body][1..] == [] && Framed(body) + [] == Framed(body); }
  }

  /** A bytes.Reader: what is left of the contents shrinks as it is read. */
  class Reader {
    var rest: Bytes

    constructor (contents: Bytes)
      ensures rest == contents
    {
      rest := contents;
    }

    /** binary.Read of a big-endian integer; a short read leaves nothing usable behind. */
    method Integer(width: nat) returns (result: Result<nat>)
      modifies this
      ensures result.Ok? <==> ReadInteger(old(rest), width).Ok?
      ensures result.Ok? ==> ReadInteger(old(rest), width) == Ok((result.value, rest))
    {
      if |rest| < width { return Err; }
      result := Ok(FromBigEndian(rest[..width]));
      rest := rest[width..];
    }

    method Body() returns (result: Result<Bytes>)
      modifies this
      ensures result.Ok? <==> ReadBody(old(rest)).Ok?
      ensures result.Ok? ==> ReadBody(old(rest)) == Ok((result.value, rest))
    {
      var length := Integer(8);
      if length.Err? || length.value > |rest| { return Err; }
      result := Ok(rest[..length.value]);
      rest := rest[length.value..];
    }
  }

  method CapturedReviewArchiveBlobReferences(host: Host, json: Json, manifest: Bytes) returns (result: Result<seq<BlobRef>>)
    ensures result == BlobReferences(host, json, manifest)
  {
    VersionsDiffer();
    var version := json.version(manifest);
    if version == None { return Err; }
    if version == Some(V1) {
      var legacy := UnmarshalV1(host, json, manifest);
      return if legacy.Ok? then Ok([]) else Err;
    }
    if version != Some(V2) { return Err; }
    var wire := Decoded(json, manifest);
    if wire.Err? { return Err; }
    result := CapturedManifestReferences(host, wire.value);
  }

  lemma PrependBlob(host: Host, refs: seq<BlobRef>, rest: Bytes, body: Bytes, tail: Bytes)
    requires refs != [] && ReadBody(rest) == Ok((body, tail))
    ensures ReadBlobs(host, refs, rest)
         == if ValidBlob(host, Blob(refs[0].path, host.sha256(body), body)) && host.sha256(body) == refs[0].sha256
            then PrependRead([Blob(refs[0].path, host.sha256(body), body)], ReadBlobs(host, refs[1..], tail))
            else Err
  {
  }

  function PrependRead(front: seq<Blob>, read: Result<(seq<Blob>, Bytes)>): Result<(seq<Blob>, Bytes)> {
    match read case Ok((blobs, left)) => Ok((front + blobs, left)) case Err => Err
  }

  lemma PrependReadTwice(front: seq<Blob>, blob: Blob, read: Result<(seq<Blob>, Bytes)>)
    ensures PrependRead(front, PrependRead([blob], read)) == PrependRead(front + [blob], read)
    ensures PrependRead([], read) == read
  {
    if read.Ok? {
      assert front + ([blob] + read.value.0) == front + [blob] + read.value.0;
      assert [] + read.value.0 == read.value.0;
    }
  }

  method ReadAllBlobs(host: Host, refs: seq<BlobRef>, reader: Reader) returns (result: Result<seq<Blob>>)
    modifies reader
    ensures result.Ok? <==> ReadBlobs(host, refs, old(reader.rest)).Ok?
    ensures result.Ok? ==> ReadBlobs(host, refs, old(reader.rest)) == Ok((result.value, reader.rest))
  {
    var blobs: seq<Blob> := [];
    ghost var all := ReadBlobs(host, refs, reader.rest);
    assert all == PrependRead(blobs, ReadBlobs(host, refs[0..], reader.rest)) by {
      assert refs[0..] == refs;
      if all.Ok? { assert [] + all.value.0 == all.value.0; }
    }
    for i := 0 to |refs|
      invariant all == PrependRead(blobs, ReadBlobs(host, refs[i..], reader.rest))
    {
      ghost var before := reader.rest;
      assert refs[i..][1..] == refs[i + 1..];
      var body := reader.Body();
      if body.Err? { return Err; }
      PrependBlob(host, refs[i..], before, body.value, reader.rest);
      var blob := Blob(refs[i].path, host.sha256(body.value), body.value);
      if !ValidBlob(host, blob) || blob.sha256 != refs[i].sha256 { return Err; }
      PrependReadTwice(blobs, blob, ReadBlobs(host, refs[i + 1..], reader.rest));
      blobs := blobs + [blob];
    }
    assert blobs + [] == blobs;
    result := Ok(blobs);
  }

  method UnmarshalCapturedReviewBundle(host: Host, json: Json, contents: Bytes) returns (result: Result<Material>)
    requires HasPrefix(contents, MAGIC)
    ensures result == Unmarshalled(host, json, contents)
  {
    var reader := new Reader(contents[|MAGIC|..]);
    var manifest := reader.Body();
    if manifest.Err? { return Err; }
    var refs := CapturedReviewArchiveBlobReferences(host, json, manifest.value);
    if refs.Err? { return Err; }
    var count := reader.Integer(4);
    if count.Err? || count.value != |refs.value| { return Err; }
    var blobs := ReadAllBlobs(host, refs.value, reader);
    if blobs.Err? || reader.rest != [] { return Err; }
    result := RestoreCapturedReviewArchive(host, json, manifest.value, blobs.value);
  }
}
