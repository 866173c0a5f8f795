/** The binary bundle that frames a v2 manifest and its blob bodies: fixed magic, big-endian
    lengths, no names.  Writer and reader find the order of the bodies separately. */
module Bundle {
  import opened Prelude
  import opened Ordering
  import opened Capture
  import opened Archive
  import opened ArchiveRoundTrip

  const MAGIC := Ascii("MULGAE-CAPTURE-BUNDLE-V2\n")

  // ---------------------------------------------------------------- big-endian integers

  /** binary.BigEndian of a fixed width: higher bytes of a larger number are lost. */
  function BigEndian(n: nat, width: nat): (bytes: Bytes)
    ensures |bytes| == width
  {
    if width == 0 then [] else BigEndian(n / 0x100, width - 1) + [(n % 0x100) as byte]
  }

  function FromBigEndian(bytes: Bytes): nat {
    if bytes == [] then 0 else 0x100 * FromBigEndian(bytes[..|bytes| - 1]) + bytes[|bytes| - 1] as int
  }

  function Pow256(n: nat): nat {
    if n == 0 then 1 else 0x100 * Pow256(n - 1)
  }

  lemma {:induction false} BigEndianReadsBack(n: nat, width: nat)
    requires n < Pow256(width)
    ensures FromBigEndian(BigEndian(n, width)) == n
  {
    if width > 0 {
      BigEndianReadsBack(n / 0x100, width - 1);
      assert BigEndian(n, width)[..width - 1] == BigEndian(n / 0x100, width - 1);
    }
  }

  lemma {:induction false} BigEndianPrintsBack(bytes: Bytes)
    ensures BigEndian(FromBigEndian(bytes), |bytes|) == bytes
  {
    if bytes != [] {
      var n := |bytes| - 1;
      BigEndianPrintsBack(bytes[..n]);
      assert bytes == bytes[..n] + [bytes[n]];
    }
  }

  /** The highest byte first: byte i of width w counts in units of 256 to the w - 1 - i. */
  lemma {:induction false} BigEndianDigits(n: nat, width: nat, i: nat)
    requires i < width
    ensures Pow256(width - 1 - i) > 0 && BigEndian(n, width)[i] as int == n / Pow256(width - 1 - i) % 0x100
  {
    if i < width - 1 {
      BigEndianDigits(n / 0x100, width - 1, i);
      DivideTwice(n, Pow256(width - 2 - i));
    }
  }

  lemma DivideTwice(n: nat, m: nat)
    requires m > 0
    ensures 0x100 * m > 0 && n / 0x100 / m == n / (0x100 * m)
  {
    var q := n / 0x100 / m;
    var r, s := n / 0x100 % m, n % 0x100;
    assert n / 0x100 == q * m + r;
    assert n == 0x100 * (q * m + r) + s;
    assert 0x100 * (q * m + r) == q * (0x100 * m) + 0x100 * r;
    assert 0x100 * r + s < 0x100 * m;
    Quotient(n, 0x100 * m, q, 0x100 * r + s);
  }

  lemma Monotone(a: nat, b: nat, m: nat)
    requires a <= b
    ensures a * m <= b * m
  {
  }

  lemma NotBelow(p: nat, s: nat, q: nat, r: nat, m: nat)
    requires p * m + s == q * m + r && s < m
    ensures q <= p
  {
    assert (p + 1) * m == p * m + m;
    if p < q { Monotone(p + 1, q, m); }
  }

  lemma Quotient(n: nat, m: nat, q: nat, r: nat)
    requires n == q * m + r && r < m
    ensures n / m == q
  {
    assert n == n / m * m + n % m;
    NotBelow(n / m, n % m, q, r, m);
    NotBelow(q, r, n / m, n % m, m);
  }

  const UINT32_MAX := 0xFFFF_FFFF
  const INT64_MAX := 0x7FFF_FFFF_FFFF_FFFF

  lemma WidthsHold()
    ensures Pow256(8) > INT64_MAX && Pow256(4) == UINT32_MAX + 1
  {
    assert Pow256(2) == 0x1_0000 && Pow256(4) == 0x1_0000_0000 && Pow256(6) == 0x1_0000_0000_0000;
  }

  // ---------------------------------------------------------------- framing

  function Framed(body: Bytes): Bytes {
    BigEndian(|body|, 8) + body
  }

  function FramedBodies(bodies: seq<Bytes>): Bytes {
    if bodies == [] then [] else Framed(bodies[0]) + FramedBodies(bodies[1..])
  }

  function Frame(manifest: Bytes, bodies: seq<Bytes>): Bytes {
    MAGIC + (Framed(manifest) + (BigEndian(|bodies|, 4) + FramedBodies(bodies)))
  }

  function Bodies(blobs: seq<Blob>): (bodies: seq<Bytes>)
    ensures |bodies| == |blobs|
  {
    seq(|blobs|, i requires 0 <= i < |blobs| => blobs[i].bytes)
  }

  /** marshalCapturedReviewBundle */
  ghost function Marshalled(host: Host, json: Json, material: Material): Result<Bytes> {
    match Archived(host, json, material)
    case Ok(archive) =>
      if |archive.blobs| > UINT32_MAX then Err else Ok(Frame(archive.manifest, Bodies(archive.blobs)))
    case Err => Err
  }

  // ---------------------------------------------------------------- reading

  /** A fixed-width integer off the front of what is left to read. */
  function ReadInteger(rest: Bytes, width: nat): Result<(nat, Bytes)> {
    if |rest| < width then Err else Ok((FromBigEndian(rest[..width]), rest[width..]))
  }

  /** A length-prefixed body off the front of what is left to read. */
  function ReadBody(rest: Bytes): Result<(Bytes, Bytes)> {
    match ReadInteger(rest, 8)
    case Ok((length, tail)) => if length > |tail| then Err else Ok((tail[..length], tail[length..]))
    case Err => Err
  }

  /** CapturedReviewArchiveBlobReferences: a legacy document has none. */
  ghost function BlobReferences(host: Host, json: Json, manifest: Bytes): Result<seq<BlobRef>> {
    match json.version(manifest)
    case None => Err
    case Some(version) =>
      if version == V1 then (if RestoredV1(host, json, manifest).Ok? then Ok([]) else Err)
      else if version != V2 then Err
      else (match Decoded(json, manifest) case Ok(wire) => References(host, wire) case Err => Err)
  }

  /** One body per reference, each under the name and digest of its reference. */
  function ReadBlobs(host: Host, refs: seq<BlobRef>, rest: Bytes): Result<(seq<Blob>, Bytes)> {
    if refs == [] then Ok(([], rest))
    else
      match ReadBody(rest)
      case Err => Err
      case Ok((body, tail)) =>
        var blob := Blob(refs[0].path, host.sha256(body), body);
        if !ValidBlob(host, blob) || blob.sha256 != refs[0].sha256 then Err
        else
          match ReadBlobs(host, refs[1..], tail)
          case Ok((blobs, left)) => Ok(([blob] + blobs, left))
          case Err => Err
  }

  ghost function Unmarshalled(host: Host, json: Json, contents: Bytes): Result<Material>
    requires HasPrefix(contents, MAGIC)
  {
    match ReadBody(contents[|MAGIC|..])
    case Err => Err
    case Ok((manifest, afterManifest)) =>
      match BlobReferences(host, json, manifest)
      case Err => Err
      case Ok(refs) =>
        match ReadInteger(afterManifest, 4)
        case Err => Err
        case Ok((count, afterCount)) =>
          if count != |refs| then Err
          else
            match ReadBlobs(host, refs, afterCount)
            case Err => Err
            case Ok((blobs, left)) => if left != [] then Err else Restored(host, json, manifest, blobs)
  }

  // ---------------------------------------------------------------- reading what was written

  lemma ReadsPrefixed(prefix: Bytes, body: Bytes, tail: Bytes)
    requires |prefix| == 8 && FromBigEndian(prefix) == |body|
    ensures ReadBody(prefix + body + tail) == Ok((body, tail))
  {
    var rest := prefix + body + tail;
    assert rest[..8] == prefix && rest[8..] == body + tail;
    assert (body + tail)[..|body|] == body && (body + tail)[|body|..] == tail;
  }

  lemma ReadsFramed(body: Bytes, tail: Bytes)
    requires |body| <= INT64_MAX
    ensures ReadBody(Framed(body) + tail) == Ok((body, tail))
  {
    WidthsHold();
    BigEndianReadsBack(|body|, 8);
    ReadsPrefixed(BigEndian(|body|, 8), body, tail);
  }

  ghost predicate BlobsMatch(host: Host, blobs: seq<Blob>, refs: seq<BlobRef>) {
    && |blobs| == |refs|
    && forall i :: 0 <= i < |blobs| ==>
         ValidBlob(host, blobs[i]) && blobs[i].path == refs[i].path && blobs[i].sha256 == refs[i].sha256
         && |blobs[i].bytes| <= INT64_MAX
  }

  lemma {:induction false} ReadsFramedBodies(host: Host, blobs: seq<Blob>, refs: seq<BlobRef>, tail: Bytes)
    requires BlobsMatch(host, blobs, refs)
    ensures ReadBlobs(host, refs, FramedBodies(Bodies(blobs)) + tail) == Ok((blobs, tail))
  {
    if blobs == [] {
      assert FramedBodies(Bodies(blobs)) + tail == tail;
    } else {
      var rest := FramedBodies(Bodies(blobs[1..])) + tail;
      assert Bodies(blobs)[1..] == Bodies(blobs[1..]);
      assert FramedBodies(Bodies(blobs)) + tail == Framed(blobs[0].bytes) + rest;
      ReadsFramed(blobs[0].bytes, rest);
      assert BlobsMatch(host, blobs[1..], refs[1..]);
      ReadsFramedBodies(host, blobs[1..], refs[1..], tail);
      assert blobs == [blobs[0]] + blobs[1..];
    }
  }

  lemma DropPrefix(prefix: Bytes, rest: Bytes)
    ensures HasPrefix(prefix + rest, prefix) && (prefix + rest)[|prefix|..] == rest
  {
  }

  lemma FrameParts(manifest: Bytes, bodies: seq<Bytes>)
    ensures HasPrefix(Frame(manifest, bodies), MAGIC)
    ensures Frame(manifest, bodies)[|MAGIC|..] == Framed(manifest) + (BigEndian(|bodies|, 4) + FramedBodies(bodies))
  {
    DropPrefix(MAGIC, Framed(manifest) + (BigEndian(|bodies|, 4) + FramedBodies(bodies)));
  }

  lemma PrefixAndRest(contents: Bytes, prefix: Bytes)
    requires HasPrefix(contents, prefix)
    ensures contents == prefix + contents[|prefix|..]
  {
  }

  lemma UnmarshalsFrame(host: Host, json: Json, manifest: Bytes, blobs: seq<Blob>, refs: seq<BlobRef>)
    requires BlobReferences(host, json, manifest) == Ok(refs) && BlobsMatch(host, blobs, refs)
    requires |manifest| <= INT64_MAX && |blobs| <= UINT32_MAX
    ensures HasPrefix(Frame(manifest, Bodies(blobs)), MAGIC)
    ensures Unmarshalled(host, json, Frame(manifest, Bodies(blobs))) == Restored(host, json, manifest, blobs)
  {
    var bodies := Bodies(blobs);
    var afterManifest := BigEndian(|bodies|, 4) + FramedBodies(bodies);
    FrameParts(manifest, bodies);
    ReadsFramed(manifest, afterManifest);
    WidthsHold();
    BigEndianReadsBack(|bodies|, 4);
    assert afterManifest[..4] == BigEndian(|bodies|, 4) && afterManifest[4..] == FramedBodies(bodies);
    assert FramedBodies(bodies) + [] == FramedBodies(bodies);
    ReadsFramedBodies(host, blobs, refs, []);
  }

  /** Every length fits the 63 bits of a Go slice length. */
  ghost predicate InMemory(host: Host, json: Json, material: Material) {
    && |json.encode(Project(host, material))| <= INT64_MAX
    && forall c :: c in Contents(host, material) ==> |c| <= INT64_MAX
  }

  lemma SortedBlobsMatchReferences(host: Host, json: Json, material: Material)
    requires DigestIsPrinted(host) && InMemory(host, json, material)
    ensures var blobs := BlobMap(host, Contents(host, material));
            BlobsMatch(host, SortedBlobs(host, blobs), RefList(Listing(blobs.Keys)))
  {
    var blobs := BlobMap(host, Contents(host, material));
    BlobMapKeys(host, Contents(host, material));
    assert |Listing(blobs.Keys)| == |blobs.Keys| == |blobs|;
    forall i | 0 <= i < |blobs|
      ensures var blob := SortedBlobs(host, blobs)[i];
              ValidBlob(host, blob) && blob.path == RefList(Listing(blobs.Keys))[i].path
              && blob.sha256 == RefList(Listing(blobs.Keys))[i].sha256 && |blob.bytes| <= INT64_MAX
    {
      SortedBlobAt(host, blobs, i);
      BlobPathIsPath(SortedBlobs(host, blobs)[i].sha256);
    }
  }

  lemma ReferencesDispatch(host: Host, json: Json, document: Bytes, wire: Manifest)
    requires json.version(document) == Some(V2) && Decoded(json, document) == Ok(wire)
    ensures BlobReferences(host, json, document) == References(host, wire)
  {
    VersionsDiffer();
  }

  lemma ProjectionReferences(host: Host, json: Json, material: Material)
    requires DigestIsPrinted(host) && JsonLaws(host, json)
    requires ValidMaterial(host, material) && TextIsUTF8(host, material)
    ensures BlobReferences(host, json, json.encode(Project(host, material)))
         == Ok(RefList(Listing(BlobMap(host, Contents(host, material)).Keys)))
  {
    ProjectionIsEncodable(host, json, material);
    DecodesBack(host, json, Project(host, material));
    ReferencesDispatch(host, json, json.encode(Project(host, material)), Project(host, material));
    SameBlobNames(host, material);
  }

  /** A bundle that was written reads back as the capture it was written from. */
  lemma BundleRoundTrip(host: Host, json: Json, material: Material)
    requires DigestIsPrinted(host) && JsonLaws(host, json) && TextIsUTF8(host, material)
    requires InMemory(host, json, material)
    requires Marshalled(host, json, material).Ok?
    ensures var bundle := Marshalled(host, json, material).value;
            HasPrefix(bundle, MAGIC)
            && var restored := Unmarshalled(host, json, bundle);
               restored.Ok? && SameCapture(host, material, restored.value) && ValidMaterial(host, restored.value)
  {
    var blobs := BlobMap(host, Contents(host, material));
    ProjectionReferences(host, json, material);
    SortedBlobsMatchReferences(host, json, material);
    UnmarshalsFrame(host, json, json.encode(Project(host, material)), SortedBlobs(host, blobs),
                    RefList(Listing(blobs.Keys)));
    ArchiveRestores(host, json, material);
  }

  // ---------------------------------------------------------------- accepting only exact framings

  lemma BodyIsFramed(rest: Bytes)
    requires ReadBody(rest).Ok?
    ensures var (body, tail) := ReadBody(rest).value; rest == Framed(body) + tail
  {
    var (length, tail) := ReadInteger(rest, 8).value;
    BigEndianPrintsBack(rest[..8]);
    assert rest == rest[..8] + rest[8..];
    assert tail == tail[..length] + tail[length..];
  }

  lemma {:induction false} BlobsAreFramed(host: Host, refs: seq<BlobRef>, rest: Bytes)
    requires ReadBlobs(host, refs, rest).Ok?
    ensures var (blobs, left) := ReadBlobs(host, refs, rest).value;
            rest == FramedBodies(Bodies(blobs)) + left && |blobs| == |refs|
  {
    var (blobs, left) := ReadBlobs(host, refs, rest).value;
    if refs == [] {
      assert FramedBodies(Bodies(blobs)) + left == left;
    } else {
      BodyIsFramed(rest);
      var (body, tail) := ReadBody(rest).value;
      BlobsAreFramed(host, refs[1..], tail);
      assert Bodies(blobs)[1..] == Bodies(blobs[1..]) && blobs[1..] == ReadBlobs(host, refs[1..], tail).value.0;
    }
  }

  ghost predicate FramesExactly(host: Host, json: Json, contents: Bytes, manifest: Bytes, blobs: seq<Blob>) {
    && contents == Frame(manifest, Bodies(blobs))
    && BlobReferences(host, json, manifest).Ok?
    && |blobs| == |BlobReferences(host, json, manifest).value|
    && Restored(host, json, manifest, blobs) == Unmarshalled(host, json, contents)
  }

  /** What follows the manifest of an accepted bundle. */
  lemma BlobSectionIsFramed(host: Host, refs: seq<BlobRef>, rest: Bytes) returns (blobs: seq<Blob>)
    requires |rest| >= 4 && FromBigEndian(rest[..4]) == |refs|
    requires ReadBlobs(host, refs, rest[4..]).Ok? && ReadBlobs(host, refs, rest[4..]).value.1 == []
    ensures blobs == ReadBlobs(host, refs, rest[4..]).value.0 && |blobs| == |refs|
    ensures rest == BigEndian(|blobs|, 4) + FramedBodies(Bodies(blobs))
  {
    BigEndianPrintsBack(rest[..4]);
    assert rest == rest[..4] + rest[4..];
    BlobsAreFramed(host, refs, rest[4..]);
    blobs := ReadBlobs(host, refs, rest[4..]).value.0;
    assert FramedBodies(Bodies(blobs)) + [] == FramedBodies(Bodies(blobs));
  }

  /** Whatever is accepted is, byte for byte, the framing of the manifest and blobs it was parsed
      into, with one blob per distinct reference. */
  lemma OnlyExactFramings(host: Host, json: Json, contents: Bytes) returns (manifest: Bytes, blobs: seq<Blob>)
    requires HasPrefix(contents, MAGIC) && Unmarshalled(host, json, contents).Ok?
    ensures FramesExactly(host, json, contents, manifest, blobs)
  {
    var rest := contents[|MAGIC|..];
    PrefixAndRest(contents, MAGIC);
    BodyIsFramed(rest);
    var parsed := ReadBody(rest).value;
    manifest := parsed.0;
    var afterManifest := parsed.1;
    var refs := BlobReferences(host, json, manifest).value;
    blobs := BlobSectionIsFramed(host, refs, afterManifest);
  }

  /** A capture is written unless it cannot be archived or its blobs cannot be counted in four bytes. */
  lemma MarshalledWhen(host: Host, json: Json, material: Material)
    ensures Marshalled(host, json, material).Ok? <==>
              && ValidMaterial(host, material) && !Collides(host, Contents(host, material))
              && |Archived(host, json, material).value.blobs| < 0x1_0000_0000
  {
  }

  // ---------------------------------------------------------------- the layout

  /** What stands where in a bundle: the magic line, the length of the manifest in eight bytes and the
      manifest, the number of blobs in four bytes, and the blobs. */
  lemma BundleLayout(manifest: Bytes, bodies: seq<Bytes>)
    ensures var bundle, m := Frame(manifest, bodies), |manifest|;
            && |bundle| >= 37 + m
            && bundle[..25] == Ascii("MULGAE-CAPTURE-BUNDLE-V2\n")
            && bundle[25..33] == BigEndian(m, 8) && bundle[33..33 + m] == manifest
            && bundle[33 + m..37 + m] == BigEndian(|bodies|, 4) && bundle[37 + m..] == FramedBodies(bodies)
  {
    var bundle, m, tail := Frame(manifest, bodies), |manifest|, BigEndian(|bodies|, 4) + FramedBodies(bodies);
    assert |MAGIC| == 25;
    SliceParts(MAGIC, Framed(manifest) + tail);
    SliceParts(Framed(manifest), tail);
    SliceParts(BigEndian(m, 8), manifest);
    SliceParts(BigEndian(|bodies|, 4), FramedBodies(bodies));
    SubSlice(bundle, 25, 0, 8);
    SubSlice(bundle, 25, 8, 8 + m);
    SubSlice(bundle, 25, 8 + m, 12 + m);
    SubSlice(bundle, 25, 12 + m, |bundle| - 25);
    SubSlice(Framed(manifest) + tail, 8 + m, 0, 4);
    assert (Framed(manifest) + tail)[..8] == Framed(manifest)[..8];
    assert (Framed(manifest) + tail)[8..8 + m] == Framed(manifest)[8..];
    assert (Framed(manifest) + tail)[12 + m..] == tail[4..];
  }

  lemma SliceParts<T>(a: seq<T>, b: seq<T>)
    ensures (a + b)[..|a|] == a && (a + b)[|a|..] == b
  {
  }

  lemma SubSlice<T>(whole: seq<T>, start: nat, low: nat, high: nat)
    requires low <= high && start + high <= |whole|
    ensures whole[start..][low..high] == whole[start + low..start + high]
  {
  }

  /** The blobs follow one another, each after its length in eight bytes. */
  lemma BodiesLayout(bodies: seq<Bytes>, body: Bytes)
    ensures FramedBodies([]) == []
    ensures FramedBodies([body] + bodies) == BigEndian(|body|, 8) + body + FramedBodies(bodies)
  {
    assert ([body] + bodies)[1..] == bodies;
  }
}
