/** The directory tree shown to a review provider: the captured files of one tree under
    `current/`, or of two trees under `before/` and `after/`, and the target itself. */
module ProviderWorkspace {
  import opened Prelude
  import opened Ordering
  import opened Sorting
  import opened Paths
  import opened Capture

  const LAYOUT := ";layout=ordinary-directories-v1"
  const TARGET_NAME := "._mulgae_review_target.txt"

  predicate Directory(name: string) { name in ["current", "before", "after"] }

  /** What lower-casing, name comparison and UTF-8 validity do to the fixed ASCII names. */
  ghost predicate FixedNames(host: Host) {
    && (forall directory, path :: Directory(directory) ==>
          host.toLower(directory + "/" + path) == directory + "/" + host.toLower(path))
    && host.toLower(TARGET_NAME) == TARGET_NAME
    && (forall directory :: Directory(directory) ==> !host.reservedName(directory))
    && !host.reservedName(TARGET_NAME)
    && (forall policy :: host.utf8String(policy) ==> host.utf8String(policy + LAYOUT))
  }

  // ---------------------------------------------------------------- what the workspace holds

  function PrefixedFile(directory: string, file: SnapshotFile): SnapshotFile {
    file.(path := directory + "/" + file.path)
  }

  function Prefixed(directory: string, files: seq<SnapshotFile>): (prefixed: seq<SnapshotFile>)
    ensures |prefixed| == |files|
  {
    seq(|files|, i requires 0 <= i < |files| => PrefixedFile(directory, files[i]))
  }

  function TargetFile(host: Host, target: CapturedTarget): SnapshotFile {
    SnapshotFile(TARGET_NAME, target.bytes, host.sha256(target.bytes), TEXT)
  }

  predicate SingleTree(target: CapturedTarget) {
    target.NoChange() || target.identity.wire.kind != GIT || !ValidGitMode(target.identity.wire.gitMode)
  }

  /** The side that a comparison shows as its result. */
  function AfterSide(wire: IdentityWire): string {
    match wire.gitMode
    case "stage" => "index"
    case "dirty" => "worktree"
    case _ => if wire.indexTreeObjectID != "" then "index" else "head"
  }

  predicate HasSides(material: Material) {
    SingleTree(material.target)
    || ("base" in material.evidence && AfterSide(material.target.identity.wire) in material.evidence)
  }

  function TreeFiles(material: Material): seq<SnapshotFile>
    requires HasSides(material)
  {
    if SingleTree(material.target) then Prefixed("current", material.snapshot.files)
    else Prefixed("after", material.evidence[AfterSide(material.target.identity.wire)])
         + Prefixed("before", material.evidence["base"])
  }

  function WorkspaceFiles(host: Host, material: Material): seq<SnapshotFile>
    requires HasSides(material)
  {
    (if material.target.NoChange() then [] else [TargetFile(host, material.target)]) + TreeFiles(material)
  }

  function WorkspaceOf(host: Host, material: Material): SnapshotRequest
    requires HasSides(material)
  {
    SnapshotRequest(WorkspaceFiles(host, material), material.snapshot.policy + LAYOUT)
  }

  // ---------------------------------------------------------------- prefixing keeps a list canonical

  lemma ReservedUnder(host: Host, directory: string, path: string)
    requires PlainComponent(directory)
    ensures ReservedPath(host, directory + "/" + path) <==> host.reservedName(directory) || ReservedPath(host, path)
  {
    SplitHead(directory, path, '/');
    var parts, whole := Split(path, '/'), Split(directory + "/" + path, '/');
    assert whole == [directory] + parts;
    if ReservedPath(host, path) {
      var i :| 0 <= i < |parts| && host.reservedName(parts[i]);
      assert whole[i + 1] == parts[i];
    }
    if host.reservedName(directory) { assert host.reservedName(whole[0]); }
  }

  lemma PrefixedFileIsValid(host: Host, directory: string, file: SnapshotFile)
    requires FixedNames(host) && Directory(directory)
    requires ValidFile(host, file)
    ensures ValidFile(host, PrefixedFile(directory, file))
  {
    assert PlainComponent(directory);
    PathUnder(directory, file.path);
    ReservedUnder(host, directory, file.path);
  }

  lemma FollowsUnder(directory: string, a: string, b: string)
    requires Follows(a, b)
    ensures Follows(directory + "/" + a, directory + "/" + b)
  {
    LessSamePrefix(directory + "/", a, b);
    CommonPrefix(directory + "/", a + "/", b);
    assert directory + "/" + (a + "/") == directory + "/" + a + "/";
  }

  lemma CommonPrefix(prefix: string, a: string, b: string)
    ensures HasPrefix(prefix + b, prefix + a) <==> HasPrefix(b, a)
    ensures prefix + a == prefix + b <==> a == b
  {
    assert (prefix + a)[|prefix|..] == a && (prefix + b)[|prefix|..] == b;
    if HasPrefix(prefix + b, prefix + a) {
      assert (prefix + b)[|prefix|..][..|a|] == (prefix + a)[|prefix|..];
    }
  }

  lemma {:induction false} FoldsUnder(host: Host, directory: string, files: seq<SnapshotFile>, n: nat, name: string)
    requires FixedNames(host) && Directory(directory) && n <= |files|
    ensures directory + "/" + name in FoldedPaths(host, Prefixed(directory, files), n)
       <==> name in FoldedPaths(host, files, n)
  {
    if n > 0 {
      FoldsUnder(host, directory, files, n - 1, name);
      CommonPrefix(directory + "/", name, host.toLower(files[n - 1].path));
    }
  }

  lemma PrefixedIsCanonical(host: Host, directory: string, files: seq<SnapshotFile>)
    requires FixedNames(host) && Directory(directory) && CanonicalFiles(host, files)
    ensures CanonicalFiles(host, Prefixed(directory, files))
  {
    var prefixed := Prefixed(directory, files);
    forall i | 0 <= i < |files| ensures Admits(host, prefixed, i) {
      assert Admits(host, files, i);
      PrefixedFileIsValid(host, directory, files[i]);
      if i > 0 { FollowsUnder(directory, files[i - 1].path, files[i].path); }
      FoldsUnder(host, directory, files, i, host.toLower(files[i].path));
    }
  }

  // ---------------------------------------------------------------- separate groups of files

  /** Every path of `a` comes before, not above, and case-fold apart from every path of `b`. */
  ghost predicate Apart(host: Host, a: seq<SnapshotFile>, b: seq<SnapshotFile>) {
    forall i, j :: 0 <= i < |a| && 0 <= j < |b| ==>
      Follows(a[i].path, b[j].path) && host.toLower(a[i].path) != host.toLower(b[j].path)
  }

  lemma {:induction false} FoldsOfConcatenation(host: Host, a: seq<SnapshotFile>, b: seq<SnapshotFile>, n: nat)
    requires n <= |a + b|
    ensures n <= |a| ==> FoldedPaths(host, a + b, n) == FoldedPaths(host, a, n)
    ensures n > |a| ==> FoldedPaths(host, a + b, n) == FoldedPaths(host, a, |a|) + FoldedPaths(host, b, n - |a|)
  {
    if n > 0 {
      FoldsOfConcatenation(host, a, b, n - 1);
      if n == |a| + 1 { assert FoldedPaths(host, b, 0) == {}; }
    }
  }

  lemma ApartFoldIsNew(host: Host, a: seq<SnapshotFile>, b: seq<SnapshotFile>, j: nat)
    requires Apart(host, a, b) && j < |b|
    ensures host.toLower(b[j].path) !in FoldedPaths(host, a, |a|)
  {
    FoldedMembers(host, a, |a|);
  }

  lemma ConcatenationIsCanonical(host: Host, a: seq<SnapshotFile>, b: seq<SnapshotFile>)
    requires CanonicalFiles(host, a) && CanonicalFiles(host, b) && Apart(host, a, b)
    ensures CanonicalFiles(host, a + b)
  {
    forall i | 0 <= i < |a + b| ensures Admits(host, a + b, i) {
      FoldsOfConcatenation(host, a, b, i);
      if i < |a| {
        assert Admits(host, a, i);
      } else {
        assert Admits(host, b, i - |a|);
        ApartFoldIsNew(host, a, b, i - |a|);
      }
    }
  }

  lemma FirstCharacterSeparates(a: string, b: string)
    requires a != "" && b != "" && a[0] < b[0]
    ensures Follows(a, b)
  {
    assert (a + "/")[0] == a[0];
  }

  lemma DirectoriesAreApart(host: Host, after: seq<SnapshotFile>, before: seq<SnapshotFile>)
    requires FixedNames(host)
    ensures Apart(host, Prefixed("after", after), Prefixed("before", before))
  {
    forall i, j | 0 <= i < |after| && 0 <= j < |before|
      ensures var a, b := "after" + "/" + after[i].path, "before" + "/" + before[j].path;
              Follows(a, b) && host.toLower(a) != host.toLower(b)
    {
      FirstCharacterSeparates("after" + "/" + after[i].path, "before" + "/" + before[j].path);
      assert ("after" + "/" + host.toLower(after[i].path))[0] == 'a';
      assert ("before" + "/" + host.toLower(before[j].path))[0] == 'b';
    }
  }

  lemma TargetIsApart(host: Host, file: SnapshotFile, directory: string, files: seq<SnapshotFile>)
    requires FixedNames(host) && Directory(directory) && file.path == TARGET_NAME
    ensures Apart(host, [file], Prefixed(directory, files))
  {
    forall j | 0 <= j < |files|
      ensures var b := directory + "/" + files[j].path;
              Follows(TARGET_NAME, b) && host.toLower(TARGET_NAME) != host.toLower(b)
    {
      FirstCharacterSeparates(TARGET_NAME, directory + "/" + files[j].path);
      assert (directory + "/" + host.toLower(files[j].path))[0] == directory[0];
    }
  }

  // ---------------------------------------------------------------- the workspace is a valid request

  lemma TargetFileIsValid(host: Host, target: CapturedTarget)
    requires FixedNames(host) && DigestIsPrinted(host) && ValidTarget(host, target)
    ensures ValidFile(host, TargetFile(host, target)) && CanonicalFiles(host, [TargetFile(host, target)])
  {
    TargetNameIsPath(host);
  }

  lemma TargetNameIsPath(host: Host)
    requires FixedNames(host)
    ensures ValidPath(TARGET_NAME) && !ReservedPath(host, TARGET_NAME)
  {
    assert PlainComponent(TARGET_NAME);
    PlainComponentIsPath(TARGET_NAME);
    SplitAtom(TARGET_NAME, '/');
  }

  lemma EvidenceSideIsCanonical(host: Host, evidence: Evidence, side: string)
    requires ValidEvidence(host, evidence) && side in evidence
    ensures CanonicalFiles(host, evidence[side])
  {
    assert ValidRequest(host, SnapshotRequest(evidence[side], EVIDENCE_POLICY));
  }

  lemma TreeIsCanonical(host: Host, material: Material)
    requires FixedNames(host) && ValidMaterial(host, material) && HasSides(material)
    ensures CanonicalFiles(host, TreeFiles(material))
  {
    if SingleTree(material.target) {
      PrefixedIsCanonical(host, "current", material.snapshot.files);
    } else {
      var after, before := material.evidence[AfterSide(material.target.identity.wire)], material.evidence["base"];
      EvidenceSideIsCanonical(host, material.evidence, "base");
      EvidenceSideIsCanonical(host, material.evidence, AfterSide(material.target.identity.wire));
      PrefixedIsCanonical(host, "after", after);
      PrefixedIsCanonical(host, "before", before);
      DirectoriesAreApart(host, after, before);
      ConcatenationIsCanonical(host, Prefixed("after", after), Prefixed("before", before));
    }
  }

  lemma ApartFromBoth(host: Host, a: seq<SnapshotFile>, b: seq<SnapshotFile>, c: seq<SnapshotFile>)
    requires Apart(host, a, b) && Apart(host, a, c)
    ensures Apart(host, a, b + c)
  {
  }

  lemma TargetIsApartFromTree(host: Host, material: Material)
    requires FixedNames(host) && HasSides(material)
    ensures Apart(host, [TargetFile(host, material.target)], TreeFiles(material))
  {
    var file := TargetFile(host, material.target);
    if SingleTree(material.target) {
      TargetIsApart(host, file, "current", material.snapshot.files);
    } else {
      var after, before := material.evidence[AfterSide(material.target.identity.wire)], material.evidence["base"];
      TargetIsApart(host, file, "after", after);
      TargetIsApart(host, file, "before", before);
      ApartFromBoth(host, [file], Prefixed("after", after), Prefixed("before", before));
    }
  }

  lemma WorkspaceIsCanonical(host: Host, material: Material)
    requires FixedNames(host) && DigestIsPrinted(host)
    requires ValidMaterial(host, material) && HasSides(material)
    ensures CanonicalFiles(host, WorkspaceFiles(host, material))
  {
    var tree := TreeFiles(material);
    TreeIsCanonical(host, material);
    if material.target.NoChange() {
      assert [] + tree == tree;
    } else {
      TargetFileIsValid(host, material.target);
      TargetIsApartFromTree(host, material);
      ConcatenationIsCanonical(host, [TargetFile(host, material.target)], tree);
    }
  }

  lemma PolicyWithLayout(host: Host, policy: string)
    requires FixedNames(host) && ValidPolicy(host, policy)
    ensures ValidPolicy(host, policy + LAYOUT)
  {
  }

  /** The workspace is strictly sorted, unique after case folding, and valid file by file. */
  lemma WorkspaceIsValidRequest(host: Host, material: Material)
    requires FixedNames(host) && DigestIsPrinted(host)
    requires ValidMaterial(host, material) && HasSides(material)
    ensures ValidRequest(host, WorkspaceOf(host, material))
  {
    WorkspaceIsCanonical(host, material);
    PolicyWithLayout(host, material.snapshot.policy);
  }

  // ---------------------------------------------------------------- recovering the sides

  function StrippedFile(directory: string, file: SnapshotFile): seq<SnapshotFile> {
    if HasPrefix(file.path, directory + "/") then [file.(path := file.path[|directory + "/"|..])] else []
  }

  /** The files under a directory, with the directory taken off their paths. */
  function Stripped(directory: string, files: seq<SnapshotFile>): seq<SnapshotFile> {
    if files == [] then [] else StrippedFile(directory, files[0]) + Stripped(directory, files[1..])
  }

  lemma {:induction false} StrippedConcatenation(directory: string, a: seq<SnapshotFile>, b: seq<SnapshotFile>)
    ensures Stripped(directory, a + b) == Stripped(directory, a) + Stripped(directory, b)
  {
    if a == [] {
      assert a + b == b;
    } else {
      assert (a + b)[1..] == a[1..] + b && (a + b)[0] == a[0];
      StrippedConcatenation(directory, a[1..], b);
      Associates(StrippedFile(directory, a[0]), Stripped(directory, a[1..]), Stripped(directory, b));
    }
  }

  lemma {:induction false} StripsOwn(directory: string, files: seq<SnapshotFile>)
    ensures Stripped(directory, Prefixed(directory, files)) == files
  {
    if files == [] {
      assert Prefixed(directory, files) == [];
    } else {
      var prefix := directory + "/";
      assert Prefixed(directory, files)[1..] == Prefixed(directory, files[1..]);
      StripsOwn(directory, files[1..]);
      assert (prefix + files[0].path)[|prefix|..] == files[0].path;
      assert files == [files[0]] + files[1..];
    }
  }

  lemma {:induction false} StripsNoOther(directory: string, files: seq<SnapshotFile>)
    requires Directory(directory)
    requires forall i :: 0 <= i < |files| ==> files[i].path != "" && files[i].path[0] != directory[0]
    ensures Stripped(directory, files) == []
  {
    if files != [] { StripsNoOther(directory, files[1..]); }
  }

  /** Taking the prefixes off again gives each captured side back, bytes and media types included. */
  lemma SidesAreRecovered(host: Host, material: Material)
    requires HasSides(material)
    ensures var files := WorkspaceFiles(host, material);
            if SingleTree(material.target) then Stripped("current", files) == material.snapshot.files
            else Stripped("before", files) == material.evidence["base"]
                 && Stripped("after", files) == material.evidence[AfterSide(material.target.identity.wire)]
  {
    var own := if material.target.NoChange() then [] else [TargetFile(host, material.target)];
    if SingleTree(material.target) {
      StripsOwn("current", material.snapshot.files);
      StripsNoOther("current", own);
      StrippedConcatenation("current", own, TreeFiles(material));
    } else {
      TwoTreesRecovered(own, material.evidence[AfterSide(material.target.identity.wire)], material.evidence["base"]);
    }
  }

  lemma StripsOneOf(directory: string, own: seq<SnapshotFile>, a: seq<SnapshotFile>, b: seq<SnapshotFile>)
    requires Stripped(directory, own) == []
    ensures Stripped(directory, b) == [] ==> Stripped(directory, own + (a + b)) == Stripped(directory, a)
    ensures Stripped(directory, a) == [] ==> Stripped(directory, own + (a + b)) == Stripped(directory, b)
  {
    StrippedConcatenation(directory, own, a + b);
    StrippedConcatenation(directory, a, b);
  }

  lemma OtherTree(directory: string, other: string, files: seq<SnapshotFile>)
    requires Directory(directory) && Directory(other) && directory[0] != other[0]
    ensures Stripped(directory, Prefixed(other, files)) == []
  {
    StripsNoOther(directory, Prefixed(other, files));
  }

  lemma TwoTreesRecovered(own: seq<SnapshotFile>, after: seq<SnapshotFile>, before: seq<SnapshotFile>)
    requires forall i :: 0 <= i < |own| ==> own[i].path == TARGET_NAME
    ensures Stripped("before", own + (Prefixed("after", after) + Prefixed("before", before))) == before
    ensures Stripped("after", own + (Prefixed("after", after) + Prefixed("before", before))) == after
  {
    var a, b := Prefixed("after", after), Prefixed("before", before);
    StripsOwn("before", before);
    StripsOwn("after", after);
    StripsNoOther("before", own);
    StripsNoOther("after", own);
    OtherTree("before", "after", after);
    OtherTree("after", "before", before);
    StripsOneOf("before", own, a, b);
    StripsOneOf("after", own, a, b);
  }

  /** What a review shows, in the words of the manifests: an unchanged Git target and everything that
      is not Git shows one tree, a Git change two. */
  predicate Compares(material: Material) {
    material.target.kind == "git" && material.target.bytes != []
  }

  /** The side shown as the result of a comparison: what a commit would record, what is on disk, or
      the index that the diff was taken to, if any, and otherwise the head. */
  predicate ShowsSide(wire: IdentityWire, side: string) {
    if wire.gitMode == "stage" then side == "index"
    else if wire.gitMode == "dirty" then side == "worktree"
    else wire.gitMode == "diff" && side == (if wire.indexTreeObjectID == "" then "head" else "index")
  }

  predicate ShownSidesCaptured(material: Material) {
    Compares(material) ==>
      && "base" in material.evidence
      && exists side :: side in material.evidence && ShowsSide(material.target.identity.wire, side)
  }

  lemma ComparisonHasMode(host: Host, material: Material)
    requires ValidMaterial(host, material)
    ensures SingleTree(material.target) <==> !Compares(material)
    ensures Compares(material) ==>
              forall side :: ShowsSide(material.target.identity.wire, side) <==> side == AfterSide(material.target.identity.wire)
    ensures HasSides(material) <==> ShownSidesCaptured(material)
  {
    TargetSurvivesIdentity(host, material.target);
    if Compares(material) {
      assert ShowsSide(material.target.identity.wire, AfterSide(material.target.identity.wire));
    }
  }

  /** The tree of a valid material holds, under `current/`, the snapshot, or under `before/` and
      `after/` the base and the side that the mode shows; beside the trees stands the target alone,
      if it changed. */
  lemma WorkspaceShowsSides(host: Host, material: Material, side: string)
    requires ValidMaterial(host, material) && ShownSidesCaptured(material)
    requires Compares(material) ==> ShowsSide(material.target.identity.wire, side)
    ensures HasSides(material) && (Compares(material) ==> side in material.evidence && "base" in material.evidence)
    ensures var files := WorkspaceFiles(host, material);
            if Compares(material)
            then Stripped("before", files) == material.evidence["base"] && Stripped("after", files) == material.evidence[side]
                 && |files| == 1 + |material.evidence["base"]| + |material.evidence[side]|
            else Stripped("current", files) == material.snapshot.files
                 && |files| == (if material.target.kind == "git" then 0 else 1) + |material.snapshot.files|
    ensures material.target.kind != "git" || material.target.bytes != [] ==>
              WorkspaceFiles(host, material)[0]
              == SnapshotFile("._mulgae_review_target.txt", material.target.bytes, host.sha256(material.target.bytes), "text/plain")
    ensures WorkspaceOf(host, material).policy == material.snapshot.policy + ";layout=ordinary-directories-v1"
  {
    ComparisonHasMode(host, material);
    SidesAreRecovered(host, material);
  }

  // ---------------------------------------------------------------- the constructor as it runs

  function PathOf(file: SnapshotFile): string { file.path }

  /** SortWorkspaceSnapshotFiles */
  method SortFiles(files: seq<SnapshotFile>) returns (sorted: seq<SnapshotFile>)
    ensures multiset(sorted) == multiset(files)
    ensures forall target :: multiset(target) == multiset(files) && StrictlyAscending(Keys(target, PathOf)) ==> sorted == target
  {
    var less := (a: SnapshotFile, b: SnapshotFile) => Less(a.path, b.path);
    KeyOrderIsStrictWeak(less, PathOf);
    sorted := SortSlice(files, less);
    forall target | multiset(target) == multiset(files) && StrictlyAscending(Keys(target, PathOf)) ensures sorted == target {
      OnlyArrangement(sorted, target, less, PathOf);
    }
  }

  lemma CanonicalPathsAscend(host: Host, files: seq<SnapshotFile>)
    requires CanonicalFiles(host, files)
    ensures StrictlyAscending(Keys(files, PathOf))
  {
    forall i, j | 0 <= i < j < |files| ensures Less(Keys(files, PathOf)[i], Keys(files, PathOf)[j]) {
      FilesAscend(host, files, i, j);
      assert Keys(files, PathOf)[i] == files[i].path && Keys(files, PathOf)[j] == files[j].path;
    }
  }

  lemma InvalidPrefixedPath(host: Host, directory: string, files: seq<SnapshotFile>, i: nat)
    requires Directory(directory) && i < |files| && !ValidPath(directory + "/" + files[i].path)
    ensures !CanonicalFiles(host, files)
  {
    assert PlainComponent(directory);
    PathUnder(directory, files[i].path);
    assert !Admits(host, files, i);
  }

  method PrefixWorkspaceFiles(host: Host, directory: string, files: seq<SnapshotFile>)
    returns (result: Result<seq<SnapshotFile>>)
    requires FixedNames(host) && Directory(directory)
    ensures CanonicalFiles(host, files) ==> result == Ok(Prefixed(directory, files))
    ensures result.Ok? ==> multiset(result.value) == multiset(Prefixed(directory, files))
  {
    var list: seq<SnapshotFile> := [];
    for i := 0 to |files|
      invariant list == Prefixed(directory, files)[..i]
    {
      if !ValidPath(directory + "/" + files[i].path) {
        InvalidPrefixedPath(host, directory, files, i);
        return Err;
      }
      list := list + [files[i].(path := directory + "/" + files[i].path)];
    }
    PrefixedAscends(host, directory, files);
    assert list == Prefixed(directory, files);
    list := SortFiles(list);
    result := Ok(list);
  }

  lemma PrefixedAscends(host: Host, directory: string, files: seq<SnapshotFile>)
    requires FixedNames(host) && Directory(directory)
    ensures CanonicalFiles(host, files) ==> StrictlyAscending(Keys(Prefixed(directory, files), PathOf))
  {
    if CanonicalFiles(host, files) {
      PrefixedIsCanonical(host, directory, files);
      CanonicalPathsAscend(host, Prefixed(directory, files));
    }
  }

  method PrefixedWorkspaceRequest(host: Host, directory: string, files: seq<SnapshotFile>, policy: string)
    returns (result: Result<SnapshotRequest>)
    requires FixedNames(host) && Directory(directory)
    ensures CanonicalFiles(host, files) ==> result == Request(host, Prefixed(directory, files), policy)
  {
    var prefixed := PrefixWorkspaceFiles(host, directory, files);
    if prefixed.Err? { return Err; }
    result := NewSnapshotRequest(host, prefixed.value, policy);
  }

  /** The tree of a comparison: both sides prefixed, joined and sorted. */
  method ComparisonRequest(host: Host, before: seq<SnapshotFile>, after: seq<SnapshotFile>, policy: string)
    returns (result: Result<SnapshotRequest>)
    requires FixedNames(host)
    ensures CanonicalFiles(host, before) && CanonicalFiles(host, after) ==>
              result == Request(host, Prefixed("after", after) + Prefixed("before", before), policy)
  {
    var beforeFiles := PrefixWorkspaceFiles(host, "before", before);
    if beforeFiles.Err? { return Err; }
    var afterFiles := PrefixWorkspaceFiles(host, "after", after);
    if afterFiles.Err? { return Err; }
    ComparisonAscends(host, before, after);
    var files := SortFiles(beforeFiles.value + afterFiles.value);
    result := NewSnapshotRequest(host, files, policy);
  }

  lemma ComparisonAscends(host: Host, before: seq<SnapshotFile>, after: seq<SnapshotFile>)
    requires FixedNames(host)
    ensures var a, b := Prefixed("after", after), Prefixed("before", before);
            CanonicalFiles(host, before) && CanonicalFiles(host, after) ==>
              StrictlyAscending(Keys(a + b, PathOf)) && multiset(b + a) == multiset(a + b)
  {
    if CanonicalFiles(host, before) && CanonicalFiles(host, after) {
      PrefixedIsCanonical(host, "after", after);
      PrefixedIsCanonical(host, "before", before);
      DirectoriesAreApart(host, after, before);
      ConcatenationIsCanonical(host, Prefixed("after", after), Prefixed("before", before));
      CanonicalPathsAscend(host, Prefixed("after", after) + Prefixed("before", before));
    }
  }

  /** withProviderTarget */
  method WithProviderTarget(host: Host, target: CapturedTarget, workspace: SnapshotRequest, policy: string)
    returns (result: Result<SnapshotRequest>)
    requires FixedNames(host)
    ensures target.NoChange() ==> result == Ok(workspace)
    ensures !target.NoChange() && ValidFile(host, TargetFile(host, target))
            && CanonicalFiles(host, [TargetFile(host, target)] + workspace.files) ==>
              result == Request(host, [TargetFile(host, target)] + workspace.files, policy)
  {
    if target.NoChange() { return Ok(workspace); }
    var file := NewFile(host, TARGET_NAME, target.bytes, host.sha256(target.bytes), TEXT);
    if file.Err? { return Err; }
    TargetGoesFirst(host, file.value, workspace.files);
    var files := SortFiles(workspace.files + [file.value]);
    result := NewSnapshotRequest(host, files, policy);
  }

  lemma TargetGoesFirst(host: Host, file: SnapshotFile, files: seq<SnapshotFile>)
    ensures multiset(files + [file]) == multiset([file] + files)
    ensures CanonicalFiles(host, [file] + files) ==> StrictlyAscending(Keys([file] + files, PathOf))
  {
    if CanonicalFiles(host, [file] + files) { CanonicalPathsAscend(host, [file] + files); }
  }

  /** ProviderWorkspace succeeds for exactly the valid materials with the sides their mode needs,
      and its result is the target file, if the target changed, followed by the prefixed trees. */
  method ProviderWorkspaceOf(host: Host, material: Material) returns (result: Result<SnapshotRequest>)
    requires FixedNames(host) && DigestIsPrinted(host)
    ensures result.Ok? <==> ValidMaterial(host, material) && ShownSidesCaptured(material)
    ensures result.Ok? ==> HasSides(material) && result.value == WorkspaceOf(host, material)
  {
    var admitted := NewCapturedReviewMaterial(host, material.target, material.snapshot, material.projectContext,
                                              material.hasProjectContext, material.evidence);
    if admitted.Err? { return Err; }
    ComparisonHasMode(host, material);
    var policy := material.snapshot.policy + LAYOUT;
    PolicyWithLayout(host, material.snapshot.policy);
    var tree: Result<SnapshotRequest>;
    if SingleTree(material.target) {
      tree := PrefixedWorkspaceRequest(host, "current", material.snapshot.files, policy);
    } else {
      if "base" !in material.evidence { return Err; }
      var side := AfterSide(material.target.identity.wire);
      if side !in material.evidence { return Err; }
      EvidenceSideIsCanonical(host, material.evidence, "base");
      EvidenceSideIsCanonical(host, material.evidence, side);
      tree := ComparisonRequest(host, material.evidence["base"], material.evidence[side], policy);
    }
    TreeIsCanonical(host, material);
    WorkspaceIsValidRequest(host, material);
    assert tree == Ok(SnapshotRequest(TreeFiles(material), policy));
    if material.target.NoChange() {
      assert [] + TreeFiles(material) == TreeFiles(material);
    } else {
      TargetFileIsValid(host, material.target);
    }
    result := WithProviderTarget(host, material.target, tree.value, policy);
  }
}
