/** Captured review material: snapshot files and requests, target identities, evidence sides.

    Library behaviour the model does not define is a parameter: the digest function, UTF-8
    validity, lower-casing, white-space trimming and case-insensitive name equality. */
module Capture {
  import opened Prelude
  import opened Ordering
  import opened Paths

  datatype Host = Host(
    sha256: Bytes -> string,         // sha256Identifier
    utf8: Bytes -> bool,             // utf8.Valid
    utf8String: string -> bool,      // utf8.ValidString
    toLower: string -> string,       // strings.ToLower
    blank: string -> bool,           // strings.TrimSpace(s) == ""
    reservedName: string -> bool)    // EqualFold with .git, .mulgae, .gitignore or .mulgaeignore

  predicate AllAscii(text: string) {
    forall i :: 0 <= i < |text| ==> text[i] as int < 0x80
  }

  /** The only facts the proofs use about the digest: its printed form. */
  ghost predicate DigestIsPrinted(host: Host) {
    forall b :: ValidSHA256(host.sha256(b))
  }

  // ---------------------------------------------------------------- snapshot files

  const TEXT := "text/plain"
  const BINARY := "application/octet-stream"

  /** All three constructors of the source set the media type, so it is never empty in a file
      that validates. */
  datatype SnapshotFile = SnapshotFile(path: string, bytes: Bytes, sha256: string, mediaType: string)

  predicate ReservedPath(host: Host, path: string) {
    exists i :: 0 <= i < |Split(path, '/')| && host.reservedName(Split(path, '/')[i])
  }

  predicate CleanText(host: Host, bytes: Bytes) {
    host.utf8(bytes) && 0 !in bytes
  }

  predicate ValidRaster(bytes: Bytes, mediaType: string) {
    match mediaType
    case "image/png" => |bytes| >= 8 && bytes[..8] == [0x89, 0x50, 0x4E, 0x47, 0x0D, 0x0A, 0x1A, 0x0A]
    case "image/jpeg" => |bytes| >= 3 && bytes[..3] == [0xFF, 0xD8, 0xFF]
    case "image/webp" => |bytes| >= 12 && bytes[..4] == Ascii("RIFF") && bytes[8..12] == Ascii("WEBP")
    case _ => false
  }

  predicate ValidFileBytes(host: Host, bytes: Bytes, mediaType: string) {
    if mediaType == TEXT then CleanText(host, bytes)
    else if mediaType == BINARY then true
    else ValidRaster(bytes, mediaType)
  }

  predicate ValidFile(host: Host, file: SnapshotFile) {
    && ValidPath(file.path) && !ReservedPath(host, file.path)
    && ValidFileBytes(host, file.bytes, file.mediaType)
    && ValidSHA256(file.sha256) && file.sha256 == host.sha256(file.bytes)
  }

  /** NewWorkspaceSnapshotFile, NewWorkspaceBinaryFile and NewWorkspaceVisualAsset differ only
      in the byte check of their media type. */
  function NewFile(host: Host, path: string, bytes: Bytes, expected: string, mediaType: string): Result<SnapshotFile> {
    if ValidFile(host, SnapshotFile(path, bytes, expected, mediaType))
    then Ok(SnapshotFile(path, bytes, expected, mediaType))
    else Err
  }

  /** Which contents each media type admits: text is UTF-8 without NUL, a binary file anything, an
      image what its signature says; there are no other media types. */
  lemma MediaTypesDecide(host: Host, path: string, bytes: Bytes, digest: string, mediaType: string)
    ensures NewFile(host, path, bytes, digest, mediaType).Ok? <==>
              && ValidPath(path) && (forall part :: part in Split(path, '/') ==> !host.reservedName(part))
              && ValidSHA256(digest) && digest == host.sha256(bytes)
              && (mediaType == "text/plain" ==> host.utf8(bytes) && forall b :: b in bytes ==> b != 0)
              && (mediaType == "image/png" ==> HasPrefix(bytes, [137, 80, 78, 71, 13, 10, 26, 10]))
              && (mediaType == "image/jpeg" ==> HasPrefix(bytes, [255, 216, 255]))
              && (mediaType == "image/webp" ==>
                    HasPrefix(bytes, [82, 73, 70, 70]) && |bytes| >= 12 && bytes[8..12] == [87, 69, 66, 80])
              && mediaType in ["text/plain", "application/octet-stream", "image/png", "image/jpeg", "image/webp"]
    ensures NewFile(host, path, bytes, digest, mediaType).Ok? ==>
              NewFile(host, path, bytes, digest, mediaType).value == SnapshotFile(path, bytes, digest, mediaType)
  {
    assert Ascii("RIFF") == [82, 73, 70, 70] && Ascii("WEBP") == [87, 69, 66, 80];
    var parts := Split(path, '/');
    if ReservedPath(host, path) {
      var i :| 0 <= i < |parts| && host.reservedName(parts[i]);
      assert parts[i] in parts;
    }
  }

  // ---------------------------------------------------------------- snapshot requests

  datatype SnapshotRequest = SnapshotRequest(files: seq<SnapshotFile>, policy: string)

  predicate ValidPolicy(host: Host, policy: string) {
    policy != "" && host.utf8String(policy) && '\0' !in policy
  }

  predicate Follows(previous: string, current: string) {
    Less(previous, current) && !HasPrefix(current, previous + "/")
  }

  /** Strictly lexicographic paths, no file directly below its predecessor, no two paths equal
      after lower-casing.  Only neighbours are checked for the file/directory clash; what that
      leaves out is NeighbourCheckSuffices. */
  ghost predicate CanonicalFiles(host: Host, files: seq<SnapshotFile>) {
    forall i :: 0 <= i < |files| ==> Admits(host, files, i)
  }

  ghost predicate Admits(host: Host, files: seq<SnapshotFile>, i: nat)
    requires i < |files|
  {
    && ValidFile(host, files[i])
    && (i > 0 ==> Follows(files[i - 1].path, files[i].path))
    && host.toLower(files[i].path) !in FoldedPaths(host, files, i)
  }

  ghost function FoldedPaths(host: Host, files: seq<SnapshotFile>, n: nat): set<string>
    requires n <= |files|
  {
    if n == 0 then {} else FoldedPaths(host, files, n - 1) + {host.toLower(files[n - 1].path)}
  }

  ghost predicate ValidRequest(host: Host, request: SnapshotRequest) {
    ValidPolicy(host, request.policy) && CanonicalFiles(host, request.files)
  }

  ghost function Request(host: Host, files: seq<SnapshotFile>, policy: string): Result<SnapshotRequest> {
    if ValidRequest(host, SnapshotRequest(files, policy)) then Ok(SnapshotRequest(files, policy)) else Err
  }

  /** A policy is any UTF-8 text but the empty one and one with a NUL. */
  lemma PoliciesAccepted(host: Host, policy: string)
    ensures ValidPolicy(host, policy) <==> |policy| > 0 && host.utf8String(policy) && forall c :: c in policy ==> c != '\0'
  {
  }

  method NewSnapshotRequest(host: Host, files: seq<SnapshotFile>, policy: string)
    returns (result: Result<SnapshotRequest>)
    ensures result == Request(host, files, policy)
  {
    if !ValidPolicy(host, policy) { return Err; }
    var previous := "";
    var folded: set<string> := {};
    for i := 0 to |files|
      invariant forall k :: 0 <= k < i ==> Admits(host, files, k)
      invariant i > 0 ==> previous == files[i - 1].path
      invariant folded == FoldedPaths(host, files, i)
    {
      var current := files[i].path;
      if !ValidFile(host, files[i]) || (i > 0 && !Follows(previous, current)) || host.toLower(current) in folded {
        assert !Admits(host, files, i);
        return Err;
      }
      folded := folded + {host.toLower(current)};
      previous := current;
    }
    result := Ok(SnapshotRequest(files, policy));
  }

  lemma {:induction false} FoldedMembers(host: Host, files: seq<SnapshotFile>, n: nat)
    requires n <= |files|
    ensures forall j :: 0 <= j < n ==> host.toLower(files[j].path) in FoldedPaths(host, files, n)
    ensures forall name :: name in FoldedPaths(host, files, n) ==>
              exists j :: 0 <= j < n && host.toLower(files[j].path) == name
  {
    if n > 0 { FoldedMembers(host, files, n - 1); }
  }

  /** No two accepted paths are equal after lower-casing. */
  lemma FoldsAreUnique(host: Host, files: seq<SnapshotFile>, i: nat, j: nat)
    requires CanonicalFiles(host, files) && i < j < |files|
    ensures host.toLower(files[i].path) != host.toLower(files[j].path)
  {
    FoldedMembers(host, files, j);
    assert Admits(host, files, j);
  }

  /** What the neighbour check amounts to over the whole list. */
  lemma {:induction false} FilesAscend(host: Host, files: seq<SnapshotFile>, i: nat, j: nat)
    requires CanonicalFiles(host, files) && i < j < |files|
    ensures Less(files[i].path, files[j].path)
    decreases j - i
  {
    assert Admits(host, files, j);
    if i < j - 1 {
      FilesAscend(host, files, i, j - 1);
      LessTransitive(files[i].path, files[j - 1].path, files[j].path);
    }
  }

  // ---------------------------------------------------------------- files and directories

  /** With both captured, `outer` would have to be a file and a directory. */
  predicate Below(inner: string, outer: string) {
    HasPrefix(inner, outer + "/")
  }

  /** `text` continues `stem` with a byte that sorts before the slash: it comes before everything
      below `stem`. */
  predicate ContinuesEarly(text: string, stem: string) {
    HasPrefix(text, stem) && |stem| < |text| && text[|stem|] < '/'
  }

  ghost predicate CollisionFree(files: seq<SnapshotFile>) {
    forall i, j :: 0 <= i < j < |files| ==> !Below(files[j].path, files[i].path)
  }

  /** The first file from `n` on that does not continue `stem` early. */
  ghost function PastContinuations(files: seq<SnapshotFile>, stem: string, n: nat): (k: nat)
    requires n <= |files|
    ensures n <= k <= |files|
    ensures forall m :: n <= m < k ==> ContinuesEarly(files[m].path, stem)
    ensures k < |files| ==> !ContinuesEarly(files[k].path, stem)
    decreases |files| - n
  {
    if n < |files| && ContinuesEarly(files[n].path, stem) then PastContinuations(files, stem, n + 1) else n
  }

  /** What lies between a text and one of its continuations is such a continuation too, and not a
      later one. */
  lemma {:induction false} BetweenContinues(stem: string, middle: string, text: string)
    requires Less(stem, middle) && Less(middle, text) && HasPrefix(text, stem) && |stem| < |text|
    ensures HasPrefix(middle, stem) && |stem| < |middle| && middle[|stem|] <= text[|stem|]
  {
    if stem != [] {
      assert middle[0] == stem[0] == text[0];
      BetweenContinues(stem[1..], middle[1..], text[1..]);
      assert middle == [stem[0]] + middle[1..] && stem == [stem[0]] + stem[1..];
    }
  }

  /** Among accepted files, a path below files[i] is possible only if the first path that does not
      continue files[i] early is one. */
  lemma FirstPastIsBelow(host: Host, files: seq<SnapshotFile>, i: nat, j: nat)
    requires CanonicalFiles(host, files) && i < j < |files| && Below(files[j].path, files[i].path)
    ensures var k := PastContinuations(files, files[i].path, i + 1);
            i + 1 < k <= j && Below(files[k].path, files[i].path)
  {
    var stem, k := files[i].path, PastContinuations(files, files[i].path, i + 1);
    assert files[j].path[|stem|] == '/';
    if k < j {
      FilesAscend(host, files, i, k);
      FilesAscend(host, files, k, j);
      BetweenContinues(stem, files[k].path, files[j].path);
    }
    assert Admits(host, files, i + 1);
  }

  /** Exactly when the neighbour check suffices: no accepted path lies below another if and only
      if none follows a run of early continuations that it ends by lying below their stem. */
  lemma NeighbourCheckSuffices(host: Host, files: seq<SnapshotFile>)
    requires CanonicalFiles(host, files)
    ensures CollisionFree(files) <==>
              forall i :: 0 <= i < |files| ==>
                var k := PastContinuations(files, files[i].path, i + 1);
                i + 1 < k < |files| ==> !Below(files[k].path, files[i].path)
  {
    forall i, j | 0 <= i < j < |files| && Below(files[j].path, files[i].path)
      ensures var k := PastContinuations(files, files[i].path, i + 1);
              i + 1 < k < |files| && Below(files[k].path, files[i].path)
    {
      FirstPastIsBelow(host, files, i, j);
    }
  }

  /** A path below files[i] that is accepted shows in the very next path, which continues files[i]
      early; where no path continues its predecessor early, none lies below another. */
  lemma ClashNeedsEarlyNeighbour(host: Host, files: seq<SnapshotFile>)
    requires CanonicalFiles(host, files)
    ensures forall i, j :: 0 <= i < j < |files| && Below(files[j].path, files[i].path) ==>
              ContinuesEarly(files[i + 1].path, files[i].path)
    ensures (forall i :: 0 < i < |files| ==> !ContinuesEarly(files[i].path, files[i - 1].path)) ==> CollisionFree(files)
  {
    forall i, j | 0 <= i < j < |files| && Below(files[j].path, files[i].path)
      ensures ContinuesEarly(files[i + 1].path, files[i].path)
      ensures exists n :: 0 < n < |files| && ContinuesEarly(files[n].path, files[n - 1].path)
    {
      FirstPastIsBelow(host, files, i, j);
      var n := i + 1;
      assert ContinuesEarly(files[n].path, files[n - 1].path);
    }
  }

  function TextFile(host: Host, path: string, bytes: Bytes): SnapshotFile {
    SnapshotFile(path, bytes, host.sha256(bytes), TEXT)
  }

  lemma TextFileIsValid(host: Host, path: string, bytes: Bytes)
    requires DigestIsPrinted(host) && CleanText(host, bytes) && ValidPath(path) && !ReservedPath(host, path)
    ensures ValidFile(host, TextFile(host, path, bytes))
  {
  }

  lemma WitnessPaths()
    ensures Split("a", '/') == ["a"] && Split("a-b", '/') == ["a-b"] && Split("a/b", '/') == ["a", "b"]
    ensures ValidPath("a") && ValidPath("a-b") && ValidPath("a/b")
    ensures Follows("a", "a-b") && Follows("a-b", "a/b") && Below("a/b", "a")
  {
    SplitAtom("a", '/');
    SplitAtom("a-b", '/');
    SplitAtom("b", '/');
    SplitHead("a", "b", '/');
    assert "a" + ['/'] + "b" == "a/b";
    assert "a-b"[1..][0] == '-' && "a/b"[1..][0] == '/';
  }

  /** The neighbour check accepts a file and a path below it once a third path stands between. */
  lemma FileAndDirectoryAccepted(host: Host, bytes: Bytes, policy: string)
    requires DigestIsPrinted(host) && CleanText(host, bytes) && ValidPolicy(host, policy)
    requires host.toLower("a") == "a" && host.toLower("a-b") == "a-b" && host.toLower("a/b") == "a/b"
    requires !host.reservedName("a") && !host.reservedName("a-b") && !host.reservedName("b")
    ensures var files := [TextFile(host, "a", bytes), TextFile(host, "a-b", bytes), TextFile(host, "a/b", bytes)];
            && Request(host, files, policy) == Ok(SnapshotRequest(files, policy))
            && Below(files[2].path, files[0].path) && !CollisionFree(files)
  {
    var files := [TextFile(host, "a", bytes), TextFile(host, "a-b", bytes), TextFile(host, "a/b", bytes)];
    WitnessPaths();
    TextFileIsValid(host, "a", bytes);
    TextFileIsValid(host, "a-b", bytes);
    TextFileIsValid(host, "a/b", bytes);
    assert FoldedPaths(host, files, 0) == {};
    assert FoldedPaths(host, files, 1) == {"a"};
    assert FoldedPaths(host, files, 2) == {"a", "a-b"};
    assert "a/b"[1] == '/' && "a-b"[1] == '-';
    assert Admits(host, files, 0) && Admits(host, files, 1) && Admits(host, files, 2);
    assert Below(files[2].path, files[0].path);
  }

  // ---------------------------------------------------------------- target identities

  const GIT := "git"

  /** The eight identity strings as the manifests spell them. */
  datatype IdentityWire = IdentityWire(
    kind: string, sha256: string, repositoryID: string, baseObjectID: string, headObjectID: string,
    headTreeObjectID: string, indexTreeObjectID: string, gitMode: string)

  datatype TargetIdentity = TargetIdentity(wire: IdentityWire, sourceIdentitySHA256: string)

  predicate ValidGitMode(mode: string) { mode in ["diff", "stage", "dirty"] }

  predicate ValidDigest(text: string) { |text| == 64 && AllLowerHex(text) }

  predicate AllZeroHex(text: string) {
    text != "" && forall i :: 0 <= i < |text| ==> text[i] == '0'
  }

  predicate ValidGitObjectID(text: string) { (|text| == 40 || |text| == 64) && AllLowerHex(text) }

  predicate NonzeroGitObject(text: string) { ValidGitObjectID(text) && !AllZeroHex(text) }

  predicate PlainKind(kind: string) { kind in ["workspace", "patch", "stdin"] }

  function NewTargetIdentity(host: Host, input: IdentityWire): Result<TargetIdentity> {
    if !ValidDigest(input.sha256) || AllZeroHex(input.sha256) then Err
    else if input.kind == GIT then
      var mode := if input.gitMode == "" then "diff" else input.gitMode;
      if !ValidGitMode(mode) || host.blank(input.repositoryID) then Err
      else if !NonzeroGitObject(input.baseObjectID) || !NonzeroGitObject(input.headObjectID)
           || !NonzeroGitObject(input.headTreeObjectID) then Err
      else if input.indexTreeObjectID != "" && !NonzeroGitObject(input.indexTreeObjectID) then Err
      else Ok(TargetIdentity(input.(gitMode := mode), ""))
    else if PlainKind(input.kind) then
      if input == IdentityWire(input.kind, input.sha256, "", "", "", "", "", "")
      then Ok(TargetIdentity(input, "")) else Err
    else Err
  }

  /** The name of a Git object other than the null object, in either hash size. */
  predicate NamesObject(text: string) {
    && (|text| == 40 || |text| == 64) && (forall c :: c in text ==> '0' <= c <= '9' || 'a' <= c <= 'f')
    && exists c :: c in text && c != '0'
  }

  lemma NonzeroNamesObject(text: string)
    ensures NonzeroGitObject(text) <==> NamesObject(text)
    ensures ValidDigest(text) && !AllZeroHex(text) <==> NamesObject(text) && |text| == 64
  {
    if AllLowerHex(text) {
      forall c | c in text ensures IsLowerHex(c) {
        var i :| 0 <= i < |text| && text[i] == c;
      }
    }
    if !AllLowerHex(text) {
      var i :| 0 <= i < |text| && !IsLowerHex(text[i]);
      assert text[i] in text;
    }
    if text != "" && !AllZeroHex(text) {
      var i :| 0 <= i < |text| && text[i] != '0';
      assert text[i] in text;
    }
  }

  /** What a target identity says: of a Git target its repository, its commits and trees, and its mode,
      which is a diff unless spelled out; of every other target nothing but its digest. */
  lemma AcceptedIdentity(host: Host, input: IdentityWire)
    ensures NewTargetIdentity(host, input).Ok? <==>
              && NamesObject(input.sha256) && |input.sha256| == 64
              && if input.kind == "git"
                 then !host.blank(input.repositoryID) && NamesObject(input.baseObjectID) && NamesObject(input.headObjectID)
                      && NamesObject(input.headTreeObjectID)
                      && (input.indexTreeObjectID == "" || NamesObject(input.indexTreeObjectID))
                      && input.gitMode in ["", "diff", "stage", "dirty"]
                 else input.kind in ["workspace", "patch", "stdin"]
                      && [input.repositoryID, input.baseObjectID, input.headObjectID, input.headTreeObjectID,
                          input.indexTreeObjectID, input.gitMode] == ["", "", "", "", "", ""]
    ensures NewTargetIdentity(host, input).Ok? ==>
              NewTargetIdentity(host, input).value.wire
              == input.(gitMode := if input.kind == "git" && input.gitMode == "" then "diff" else input.gitMode)
  {
    NonzeroNamesObject(input.sha256);
    NonzeroNamesObject(input.baseObjectID);
    NonzeroNamesObject(input.headObjectID);
    NonzeroNamesObject(input.headTreeObjectID);
    NonzeroNamesObject(input.indexTreeObjectID);
    var texts := [input.repositoryID, input.baseObjectID, input.headObjectID, input.headTreeObjectID,
                  input.indexTreeObjectID, input.gitMode];
    if texts == ["", "", "", "", "", ""] {
      assert texts[0] == "" && texts[1] == "" && texts[2] == "" && texts[3] == "" && texts[4] == "" && texts[5] == "";
    }
  }

  /** An accepted identity is accepted again, unchanged: an empty Git mode is spelled out once. */
  lemma IdentityIsStable(host: Host, input: IdentityWire)
    requires NewTargetIdentity(host, input).Ok?
    ensures var identity := NewTargetIdentity(host, input).value;
            NewTargetIdentity(host, identity.wire) == Ok(identity)
  {
  }

  datatype CapturedTarget = CapturedTarget(
    kind: string, identity: TargetIdentity, bytes: Bytes, repository: string, base: string, head: string,
    headTree: string, indexTree: Option<string>, gitMode: string)
  {
    /** Only an empty Git diff counts as no change. */
    predicate NoChange() { kind == GIT && bytes == [] }
  }

  function BareDigest(host: Host, bytes: Bytes): string {
    if HasPrefix(host.sha256(bytes), "sha256:") then host.sha256(bytes)[7..] else host.sha256(bytes)
  }

  predicate SafeRepository(host: Host, repository: string) {
    |repository| <= 4096 && '\0' !in repository && '\r' !in repository && '\n' !in repository && repository != ""
  }

  function NewGitTarget(host: Host, mode: string, repository: string, base: string, head: string, headTree: string,
                        indexTree: Option<string>, bytes: Bytes): Result<CapturedTarget> {
    if !CleanText(host, bytes) || !SafeRepository(host, repository) then Err
    else if !ValidGitObjectID(base) || !ValidGitObjectID(head) || !ValidGitObjectID(headTree) then Err
    else if indexTree.Some? && !ValidGitObjectID(indexTree.value) then Err
    else
      var input := IdentityWire(GIT, BareDigest(host, bytes), repository, base, head, headTree,
                                if indexTree.Some? then indexTree.value else "", mode);
      match NewTargetIdentity(host, input)
      case Ok(identity) => Ok(CapturedTarget(GIT, identity, bytes, repository, base, head, headTree, indexTree, mode))
      case Err => Err
  }

  function NewPlainTarget(host: Host, kind: string, bytes: Bytes): Result<CapturedTarget> {
    if bytes == [] || !CleanText(host, bytes) then Err
    else
      match NewTargetIdentity(host, IdentityWire(kind, BareDigest(host, bytes), "", "", "", "", "", ""))
      case Ok(identity) => Ok(CapturedTarget(kind, identity, bytes, "", "", "", "", None, ""))
      case Err => Err
  }

  /** Which captures become targets: non-empty text for the plain kinds; for Git any text, a safe
      repository name, and object names that are not null. */
  lemma TargetsAccepted(host: Host, kind: string, bytes: Bytes, mode: string, repository: string, base: string, head: string,
                        headTree: string, indexTree: Option<string>)
    ensures kind in ["workspace", "patch", "stdin"] ==>
              (NewPlainTarget(host, kind, bytes).Ok? <==>
                 && bytes != [] && host.utf8(bytes) && 0 !in bytes
                 && NamesObject(BareDigest(host, bytes)) && |BareDigest(host, bytes)| == 64)
    ensures NewGitTarget(host, mode, repository, base, head, headTree, indexTree, bytes).Ok? <==>
              && host.utf8(bytes) && 0 !in bytes
              && 1 <= |repository| <= 4096 && !host.blank(repository)
              && (forall i :: 0 <= i < |repository| ==> repository[i] !in "\0\r\n")
              && NamesObject(base) && NamesObject(head) && NamesObject(headTree)
              && (indexTree.Some? ==> NamesObject(indexTree.value))
              && mode in ["", "diff", "stage", "dirty"]
              && NamesObject(BareDigest(host, bytes)) && |BareDigest(host, bytes)| == 64
  {
    var digest := BareDigest(host, bytes);
    NonzeroNamesObject(base);
    NonzeroNamesObject(head);
    NonzeroNamesObject(headTree);
    NonzeroNamesObject(digest);
    if indexTree.Some? { NonzeroNamesObject(indexTree.value); }
    AcceptedIdentity(host, IdentityWire(kind, digest, "", "", "", "", "", ""));
    AcceptedIdentity(host, IdentityWire(GIT, digest, repository, base, head, headTree,
                                        if indexTree.Some? then indexTree.value else "", mode));
    RepositoryIsSafe(repository);
  }

  lemma RepositoryIsSafe(repository: string)
    ensures (forall i :: 0 <= i < |repository| ==> repository[i] !in "\0\r\n") <==>
              '\0' !in repository && '\r' !in repository && '\n' !in repository
  {
  }

  /** NewCapturedReviewTargetFromIdentity */
  function TargetFromIdentity(host: Host, identity: TargetIdentity, bytes: Bytes): Result<CapturedTarget> {
    var wire := identity.wire;
    var target :=
      if PlainKind(wire.kind) then NewPlainTarget(host, wire.kind, bytes)
      else if wire.kind == GIT then
        if !ValidGitObjectID(wire.baseObjectID) || !ValidGitObjectID(wire.headObjectID)
           || !ValidGitObjectID(wire.headTreeObjectID) then Err
        else if wire.indexTreeObjectID != "" && !ValidGitObjectID(wire.indexTreeObjectID) then Err
        else NewGitTarget(host, wire.gitMode, wire.repositoryID, wire.baseObjectID, wire.headObjectID,
                          wire.headTreeObjectID,
                          if wire.indexTreeObjectID == "" then None else Some(wire.indexTreeObjectID), bytes)
      else Err;
    if target.Ok? && target.value.identity == identity then target else Err
  }

  /** CapturedReviewTarget.Valid: rebuilding the target from its own fields gives its identity. */
  predicate ValidTarget(host: Host, target: CapturedTarget) {
    && CleanText(host, target.bytes) && (target.kind == GIT || target.bytes != [])
    && target.identity.wire.kind == target.kind
    && target.identity.wire.sha256 == BareDigest(host, target.bytes)
    && (if target.kind == GIT then
          var rebuilt := NewGitTarget(host, target.gitMode, target.repository, target.base, target.head,
                                      target.headTree, target.indexTree, target.bytes);
          rebuilt.Ok? && rebuilt.value.identity == target.identity
        else if PlainKind(target.kind) then
          && target.repository == "" && !ValidGitObjectID(target.base) && !ValidGitObjectID(target.head)
          && !ValidGitObjectID(target.headTree) && target.indexTree == None
          && var rebuilt := NewPlainTarget(host, target.kind, target.bytes);
             rebuilt.Ok? && rebuilt.value.identity == target.identity
        else false)
  }

  /** The persisted identity and bytes of a valid target rebuild a valid target. */
  lemma TargetSurvivesIdentity(host: Host, target: CapturedTarget)
    requires ValidTarget(host, target)
    ensures NewTargetIdentity(host, target.identity.wire) == Ok(target.identity)
    ensures var rebuilt := TargetFromIdentity(host, target.identity, target.bytes);
            rebuilt.Ok? && ValidTarget(host, rebuilt.value) && rebuilt.value.kind == target.kind
            && rebuilt.value.identity == target.identity && rebuilt.value.bytes == target.bytes
  {
  }

  /** What holds a valid target together: the identity names the digest of the bytes, which are text,
      and of a Git target the very repository, commits, trees and mode that the target carries. */
  lemma ValidTargetIsBound(host: Host, target: CapturedTarget)
    requires ValidTarget(host, target)
    ensures var wire := target.identity.wire;
            && wire.kind == target.kind && target.kind in ["git", "workspace", "patch", "stdin"]
            && (host.sha256(target.bytes) == wire.sha256 || host.sha256(target.bytes) == "sha256:" + wire.sha256)
            && host.utf8(target.bytes) && 0 !in target.bytes && (target.bytes == [] ==> target.kind == "git")
            && (target.kind == "git" ==>
                  && wire.repositoryID == target.repository && 0 < |target.repository| <= 4096
                  && (forall c :: c in target.repository ==> c !in "\0\r\n")
                  && wire.baseObjectID == target.base && wire.headObjectID == target.head
                  && wire.headTreeObjectID == target.headTree
                  && wire.indexTreeObjectID == (if target.indexTree.Some? then target.indexTree.value else "")
                  && wire.gitMode == (if target.gitMode == "" then "diff" else target.gitMode))
  {
    var digest := host.sha256(target.bytes);
    if HasPrefix(digest, "sha256:") { assert digest == "sha256:" + digest[7..]; }
  }

  // ---------------------------------------------------------------- evidence and material

  type Evidence = map<string, seq<SnapshotFile>>

  /** Every evidence loop of the source visits the sides in this order. */
  const SIDES := ["base", "head", "index", "worktree"]

  const EVIDENCE_POLICY := "captured-evidence-v1"

  ghost predicate ValidEvidence(host: Host, evidence: Evidence) {
    && evidence != map[]
    && (forall side :: side in evidence ==> side in SIDES)
    && (forall side :: side in evidence ==> ValidRequest(host, SnapshotRequest(evidence[side], EVIDENCE_POLICY)))
  }

  ghost function NewEvidence(host: Host, sides: Evidence): Result<Evidence> {
    if ValidEvidence(host, sides) then Ok(sides) else Err
  }

  datatype Exclusion = Exclusion(path: string, reason: string)

  datatype Material = Material(
    target: CapturedTarget, snapshot: SnapshotRequest, projectContext: Bytes, hasProjectContext: bool,
    evidence: Evidence, exclusions: Option<seq<Exclusion>>)

  /** NewCapturedReviewMaterialWithEvidenceAndProjectContext */
  ghost function NewMaterial(host: Host, target: CapturedTarget, snapshot: SnapshotRequest, projectContext: Bytes,
                             hasProjectContext: bool, evidence: Evidence): Result<Material> {
    if !ValidTarget(host, target) || !ValidRequest(host, snapshot) then Err
    else if (!hasProjectContext && projectContext != []) || !CleanText(host, projectContext) then Err
    else if !target.NoChange() && !ValidEvidence(host, evidence) then Err
    else Ok(Material(target, snapshot, projectContext, hasProjectContext, evidence, None))
  }

  ghost predicate ValidMaterial(host: Host, material: Material) {
    NewMaterial(host, material.target, material.snapshot, material.projectContext, material.hasProjectContext,
                material.evidence).Ok?
  }

  /** CapturedReviewMaterial.Evidence: evidence that does not validate reads as absent. */
  ghost function EvidenceOf(host: Host, material: Material): Evidence {
    if ValidEvidence(host, material.evidence) then material.evidence else map[]
  }

  // ---------------------------------------------------------------- the constructors as they run

  lemma InvalidSide(host: Host, sides: Evidence, side: string)
    requires side in sides
    requires side !in SIDES || !ValidRequest(host, SnapshotRequest(sides[side], EVIDENCE_POLICY))
    ensures !ValidEvidence(host, sides)
  {
  }

  /** Checking the names first, then copying the sides in their fixed order, accepts exactly the
      evidence whose every side validates, and copies it unchanged. */
  method NewCapturedTargetEvidence(host: Host, sides: Evidence) returns (result: Result<Evidence>)
    ensures result == NewEvidence(host, sides)
  {
    if sides == map[] { return Err; }
    var unseen := sides.Keys;
    while unseen != {}
      invariant unseen <= sides.Keys
      invariant forall side :: side in sides && side !in unseen ==> side in SIDES
      decreases |unseen|
    {
      var side :| side in unseen;
      if side !in SIDES {
        InvalidSide(host, sides, side);
        return Err;
      }
      unseen := unseen - {side};
    }
    var copied: Evidence := map[];
    for i := 0 to |SIDES|
      invariant forall side :: side in copied <==> side in sides && side in SIDES[..i]
      invariant forall side :: side in copied ==>
                  copied[side] == sides[side] && ValidRequest(host, SnapshotRequest(sides[side], EVIDENCE_POLICY))
    {
      assert SIDES[..i + 1] == SIDES[..i] + [SIDES[i]];
      if SIDES[i] in sides {
        var validated := NewSnapshotRequest(host, sides[SIDES[i]], EVIDENCE_POLICY);
        if validated.Err? {
          InvalidSide(host, sides, SIDES[i]);
          return Err;
        }
        copied := copied[SIDES[i] := validated.value.files];
      }
    }
    assert SIDES[..|SIDES|] == SIDES;
    assert copied == sides;
    result := Ok(copied);
  }

  method NewCapturedReviewMaterial(host: Host, target: CapturedTarget, snapshot: SnapshotRequest,
                                   projectContext: Bytes, hasProjectContext: bool, evidence: Evidence)
    returns (result: Result<Material>)
    ensures result == NewMaterial(host, target, snapshot, projectContext, hasProjectContext, evidence)
  {
    var revalidated := NewSnapshotRequest(host, snapshot.files, snapshot.policy);
    if !ValidTarget(host, target) || revalidated.Err? || (!hasProjectContext && projectContext != [])
       || !CleanText(host, projectContext) { return Err; }
    var checked := NewCapturedTargetEvidence(host, evidence);
    if !target.NoChange() && checked.Err? { return Err; }
    result := Ok(Material(target, snapshot, projectContext, hasProjectContext, evidence, None));
  }
}
