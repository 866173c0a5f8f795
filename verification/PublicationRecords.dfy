/** The evidence that travels through publication: identities, byte-bound artifacts, receipts, the
    composite and the requests of the install chain, with the canonical paths they must name. */
module PublicationRecords {
  import opened Prelude
  import opened Decimal
  import opened Paths
  import RunSupport
  import Sorting

  /** The digest and the audit-token check are parameters. */
  datatype Checks = Checks(sha256: Bytes -> string, token: (string, nat) -> bool)

  /** An absolute clean path without NUL or backslash. */
  predicate ValidRoot(text: string) {
    text == "/" || (HasPrefix(text, "/") && ValidPath(text[1..]))
  }

  datatype Run = Run(root: string, sessionID: string, runID: string) {
    predicate Valid() { ValidRoot(root) && ValidSessionID(sessionID) && ValidRunID(runID) }
  }

  datatype FinalIdentity = FinalIdentity(reviewID: string, path: string, sha256: string) {
    predicate Valid() { ValidReviewID(reviewID) && ValidPath(path) && ValidSHA256(sha256) }
  }

  datatype FinalArtifact = FinalArtifact(identity: FinalIdentity, bytes: Bytes) {
    predicate Valid(checks: Checks) { identity.Valid() && bytes != [] && checks.sha256(bytes) == identity.sha256 }
  }

  datatype Artifact = Artifact(path: string, sha256: string, bytes: Bytes) {
    predicate Valid(checks: Checks) {
      ValidPath(path) && ValidSHA256(sha256) && bytes != [] && checks.sha256(bytes) == sha256
    }
  }

  datatype IssuedReviewID = IssuedReviewID(reviewID: string, candidateSHA256: string) {
    predicate Valid() { ValidReviewID(reviewID) && ValidSHA256(candidateSHA256) }
  }

  datatype Binding = Binding(issued: IssuedReviewID, final: FinalIdentity) {
    predicate Valid() { issued.Valid() && final.Valid() && issued.reviewID == final.reviewID }
  }

  predicate ValidSourceIDs(checks: Checks, ids: seq<string>) {
    && ids != []
    && (forall i :: 0 <= i < |ids| ==> checks.token(ids[i], 256))
    && (forall i, j :: 0 <= i < j < |ids| ==> ids[i] != ids[j])
  }

  datatype Receipt = Receipt(
    root: string, destination: string, sha256: string, byteLength: int, channel: string, sourceIDs: seq<string>)
  {
    predicate Valid(checks: Checks) {
      && ValidRoot(root) && ValidPath(destination) && ValidSHA256(sha256) && byteLength >= 0
      && checks.token(channel, 128) && ValidSourceIDs(checks, sourceIDs)
    }
  }

  /** A root is the file system's own, or an absolute path that is its own cleaned form. */
  lemma RootsAreAbsolute(text: string)
    ensures ValidRoot(text) <==>
              && text != "" && text[0] == '/'
              && (text == "/" || (|text| > 1 && '\0' !in text[1..] && '\\' !in text[1..] && text[1] != '/'
                                  && Clean(Split(text[1..], '/'), []) == Split(text[1..], '/')
                                  && text[1..] != "." && text[1..] != ".." && !HasPrefix(text[1..], "../")))
  {
    if text != "" && text[0] == '/' {
      ValidPathsAreClean(text[1..]);
      assert text[..1] == "/";
    }
  }

  /** Source identifiers are at least one and pairwise different, each a safe token. */
  method ValidateSourceIDs(checks: Checks, ids: seq<string>) returns (ok: bool)
    ensures ok <==> ids != [] && (forall id :: id in ids ==> checks.token(id, 256)) && forall id :: multiset(ids)[id] <= 1
    ensures ok <==> ValidSourceIDs(checks, ids)
  {
    if |ids| == 0 { return false; }
    var seen: set<string> := {};
    for n := 0 to |ids|
      invariant forall i :: 0 <= i < n ==> checks.token(ids[i], 256) && ids[i] in seen
      invariant forall id :: id in seen ==> exists i :: 0 <= i < n && ids[i] == id
      invariant forall i, j :: 0 <= i < j < n ==> ids[i] != ids[j]
    {
      if !checks.token(ids[n], 256) {
        assert ids[n] in ids;
        return false;
      }
      if ids[n] in seen {
        var i :| 0 <= i < n && ids[i] == ids[n];
        Sorting.TwiceInSequence(ids, i, n);
        return false;
      }
      seen := seen + {ids[n]};
    }
    forall id ensures multiset(ids)[id] <= 1 { Sorting.CountsOnce(ids, id); }
    ok := true;
  }

  /** What a record of each kind shows. */
  lemma RecordsShow(checks: Checks, final: FinalArtifact, artifact: Artifact, binding: Binding, receipt: Receipt)
    ensures final.Valid(checks) <==>
              && ValidReviewID(final.identity.reviewID) && ValidPath(final.identity.path)
              && |final.bytes| > 0 && final.identity.sha256 == checks.sha256(final.bytes) && ValidSHA256(checks.sha256(final.bytes))
    ensures artifact.Valid(checks) <==>
              && ValidPath(artifact.path) && |artifact.bytes| > 0 && artifact.sha256 == checks.sha256(artifact.bytes)
              && ValidSHA256(checks.sha256(artifact.bytes))
    ensures binding.Valid() <==>
              && binding.final.Valid() && ValidSHA256(binding.issued.candidateSHA256)
              && binding.issued.reviewID == binding.final.reviewID
    ensures receipt.Valid(checks) <==>
              && ValidRoot(receipt.root) && ValidPath(receipt.destination) && ValidSHA256(receipt.sha256)
              && receipt.byteLength > -1 && checks.token(receipt.channel, 128) && ValidSourceIDs(checks, receipt.sourceIDs)
  {
  }

  // ---------------------------------------------------------------- canonical paths

  function FinalName(reviewID: string): string { "review_" + reviewID + ".json" }

  function FinalParts(sessionID: string, runID: string, reviewID: string): seq<string> {
    [sessionID, runID, FinalName(reviewID)]
  }

  function StagedParts(sessionID: string, runID: string, name: string): seq<string> {
    [sessionID, runID, "publication", "staged", name]
  }

  datatype Document = StatusDocument | JournalDocument

  function MutableParts(sessionID: string, runID: string, document: Document): seq<string> {
    match document
    case StatusDocument => [sessionID, runID, "status.json"]
    case JournalDocument => [sessionID, runID, "publication", "journal.json"]
  }

  /** NewSafeRelativePath of slash-joined components. */
  function PathOf(parts: seq<string>): Result<string> {
    if ValidPath(Join(parts, '/')) then Ok(Join(parts, '/')) else Err
  }

  /** validateCanonicalFinalPath */
  predicate CanonicalFinal(run: Run, final: FinalIdentity) {
    PathOf(FinalParts(run.sessionID, run.runID, final.reviewID)) == Ok(final.path)
  }

  /** canonicalStagedFinalPath */
  function StagedFinalPath(run: Run, final: FinalIdentity): Result<string> {
    if run.Valid() && final.Valid() then PathOf(StagedParts(run.sessionID, run.runID, FinalName(final.reviewID) + ".tmp"))
    else Err
  }

  /** canonicalMutablePublicationPath */
  function MutablePath(run: Run, document: Document): Result<string> {
    if run.Valid() then PathOf(MutableParts(run.sessionID, run.runID, document)) else Err
  }

  /** publicationScopeForFinal: session and run read back out of a final path. */
  function ScopeOf(final: FinalIdentity): Result<(string, string)> {
    var parts := Split(final.path, '/');
    if final.Valid() && |parts| == 3 && parts[2] == FinalName(final.reviewID)
       && ValidSessionID(parts[0]) && ValidRunID(parts[1])
    then Ok((parts[0], parts[1])) else Err
  }

  function StagedPathForFinal(final: FinalIdentity): Result<string> {
    match ScopeOf(final)
    case Ok((sessionID, runID)) => PathOf(StagedParts(sessionID, runID, FinalName(final.reviewID) + ".tmp"))
    case Err => Err
  }

  function MutablePathForFinal(final: FinalIdentity, document: Document): Result<string> {
    match ScopeOf(final)
    case Ok((sessionID, runID)) => PathOf(MutableParts(sessionID, runID, document))
    case Err => Err
  }

  function ManifestParts(run: Run): seq<string> { [run.sessionID, run.runID, "manifest.json"] }

  function LineageParts(final: FinalIdentity): seq<string> { ["store", "lineage-edges", "e_" + final.reviewID + ".json"] }

  function EpochParts(epoch: nat): seq<string> { ["store", "epochs", RunSupport.EpochName(epoch)] }

  // ---------------------------------------------------------------- path facts

  lemma IdentifiersArePlain(sessionID: string, runID: string)
    requires ValidSessionID(sessionID) && ValidRunID(runID)
    ensures PlainComponent(sessionID) && PlainComponent(runID)
  {
    IdentifierIsPlainComponent(sessionID, "s_");
    IdentifierIsPlainComponent(runID, "r_");
  }

  predicate SafeCharacters(text: string) {
    forall c :: c in text ==> c != '/' && c != '\0' && c != '\\'
  }

  lemma SafeNameIsPlain(head: string, middle: string, tail: string)
    requires SafeCharacters(head) && SafeCharacters(middle) && SafeCharacters(tail) && |head| >= 2 && head[0] != '.'
    ensures PlainComponent(head + middle + tail)
  {
    assert (head + middle + tail)[0] == head[0];
  }

  lemma ReviewNamesArePlain(reviewID: string)
    requires ValidReviewID(reviewID)
    ensures PlainComponent(FinalName(reviewID)) && PlainComponent(FinalName(reviewID) + ".tmp")
    ensures PlainComponent("e_" + reviewID + ".json")
  {
    UUIDCharacters(reviewID);
    SafeNameIsPlain("review_", reviewID, ".json");
    SafeNameIsPlain("review_", reviewID + ".json", ".tmp");
    assert "review_" + (reviewID + ".json") == FinalName(reviewID);
    SafeNameIsPlain("e_", reviewID, ".json");
  }

  lemma FinalPathIsPath(sessionID: string, runID: string, reviewID: string)
    requires ValidSessionID(sessionID) && ValidRunID(runID) && ValidReviewID(reviewID)
    ensures PathOf(FinalParts(sessionID, runID, reviewID)).Ok?
    ensures Split(PathOf(FinalParts(sessionID, runID, reviewID)).value, '/') == FinalParts(sessionID, runID, reviewID)
  {
    IdentifiersArePlain(sessionID, runID);
    ReviewNamesArePlain(reviewID);
    JoinedIsPath(FinalParts(sessionID, runID, reviewID));
  }

  lemma StagedNameIsPath(sessionID: string, runID: string, name: string)
    requires ValidSessionID(sessionID) && ValidRunID(runID) && PlainComponent(name)
    ensures PathOf(StagedParts(sessionID, runID, name)).Ok?
    ensures Split(PathOf(StagedParts(sessionID, runID, name)).value, '/') == StagedParts(sessionID, runID, name)
  {
    IdentifiersArePlain(sessionID, runID);
    JoinedIsPath(StagedParts(sessionID, runID, name));
  }

  lemma MutablePathIsPath(sessionID: string, runID: string, document: Document)
    requires ValidSessionID(sessionID) && ValidRunID(runID)
    ensures PathOf(MutableParts(sessionID, runID, document)).Ok?
  {
    IdentifiersArePlain(sessionID, runID);
    JoinedIsPath(MutableParts(sessionID, runID, document));
  }

  /** Splitting a final path finds the scope it was joined from, and nothing else does: a final is
      canonical for a run exactly when its path reads back as that run's session and run. */
  lemma ScopeRoundTrip(run: Run, final: FinalIdentity)
    requires run.Valid() && final.Valid()
    ensures CanonicalFinal(run, final) <==> ScopeOf(final) == Ok((run.sessionID, run.runID))
  {
    FinalPathIsPath(run.sessionID, run.runID, final.reviewID);
    var parts := Split(final.path, '/');
    JoinSplit(final.path, '/');
    if ScopeOf(final) == Ok((run.sessionID, run.runID)) {
      assert parts == FinalParts(run.sessionID, run.runID, final.reviewID);
    }
  }

  /** The two ways of finding a canonical path agree on a canonical final. */
  lemma CanonicalPathsAgree(run: Run, final: FinalIdentity, document: Document)
    requires run.Valid() && final.Valid() && CanonicalFinal(run, final)
    ensures StagedFinalPath(run, final) == StagedPathForFinal(final) && StagedFinalPath(run, final).Ok?
    ensures MutablePath(run, document) == MutablePathForFinal(final, document) && MutablePath(run, document).Ok?
  {
    ScopeRoundTrip(run, final);
    ReviewNamesArePlain(final.reviewID);
    StagedNameIsPath(run.sessionID, run.runID, FinalName(final.reviewID) + ".tmp");
    MutablePathIsPath(run.sessionID, run.runID, document);
  }

  /** A staged final never stands where the final itself will. */
  lemma StagedIsNotFinal(run: Run, final: FinalIdentity)
    requires run.Valid() && final.Valid() && CanonicalFinal(run, final)
    ensures StagedFinalPath(run, final).Ok? && StagedFinalPath(run, final).value != final.path
  {
    ReviewNamesArePlain(final.reviewID);
    StagedNameIsPath(run.sessionID, run.runID, FinalName(final.reviewID) + ".tmp");
    FinalPathIsPath(run.sessionID, run.runID, final.reviewID);
    assert |FinalParts(run.sessionID, run.runID, final.reviewID)| == 3;
    assert |StagedParts(run.sessionID, run.runID, FinalName(final.reviewID) + ".tmp")| == 5;
  }

  // ---------------------------------------------------------------- the composite

  datatype Epoch = Epoch(value: nat, record: Artifact) {
    predicate Valid(checks: Checks) { value > 0 && record.Valid(checks) }
  }

  datatype Composite = Composite(run: Run, final: FinalIdentity, manifest: Artifact, lineage: Artifact, epoch: Epoch) {
    predicate Valid(checks: Checks) {
      && run.Valid() && final.Valid() && manifest.Valid(checks) && lineage.Valid(checks) && epoch.Valid(checks)
      && CanonicalFinal(run, final)
      && PathOf(ManifestParts(run)) == Ok(manifest.path)
      && PathOf(LineageParts(final)) == Ok(lineage.path)
      && PathOf(EpochParts(epoch.value)) == Ok(epoch.record.path)
    }
  }

  const STAGED_NAMES := ["manifest.json.tmp", "lineage-edge.json.tmp", "epoch.json.tmp"]

  datatype PrepareRequest = PrepareRequest(composite: Composite, manifest: string, lineage: string, epoch: string) {
    predicate Valid(checks: Checks) {
      && composite.Valid(checks)
      && PathOf(StagedParts(composite.run.sessionID, composite.run.runID, STAGED_NAMES[0])) == Ok(manifest)
      && PathOf(StagedParts(composite.run.sessionID, composite.run.runID, STAGED_NAMES[1])) == Ok(lineage)
      && PathOf(StagedParts(composite.run.sessionID, composite.run.runID, STAGED_NAMES[2])) == Ok(epoch)
      && DistinctPaths([manifest, lineage, epoch])
    }
  }

  predicate DistinctPaths(paths: seq<string>) {
    && (forall i :: 0 <= i < |paths| ==> ValidPath(paths[i]))
    && (forall i, j :: 0 <= i < j < |paths| ==> paths[i] != paths[j])
  }

  method RequireDistinctPublicationPaths(paths: seq<string>) returns (ok: bool)
    ensures ok <==> DistinctPaths(paths)
  {
    var seen: set<string> := {};
    for n := 0 to |paths|
      invariant forall i :: 0 <= i < n ==> ValidPath(paths[i]) && paths[i] in seen
      invariant forall path :: path in seen ==> exists i :: 0 <= i < n && paths[i] == path
      invariant forall i, j :: 0 <= i < j < n ==> paths[i] != paths[j]
    {
      if !ValidPath(paths[n]) || paths[n] in seen { return false; }
      seen := seen + {paths[n]};
    }
    ok := true;
  }

  predicate ReceiptMatches(checks: Checks, receipt: Receipt, artifact: Artifact) {
    && receipt.Valid(checks) && receipt.destination == artifact.path && receipt.sha256 == artifact.sha256
    && receipt.byteLength == |artifact.bytes|
  }

  datatype Prepared = Prepared(
    request: PrepareRequest, manifest: Artifact, lineage: Artifact, epoch: Artifact, receipts: seq<Receipt>, durable: bool)
  {
    predicate Valid(checks: Checks) {
      && request.Valid(checks) && manifest.Valid(checks) && lineage.Valid(checks) && epoch.Valid(checks)
      && manifest.sha256 == request.composite.manifest.sha256
      && lineage.sha256 == request.composite.lineage.sha256
      && epoch.sha256 == request.composite.epoch.record.sha256
      && manifest.path == request.manifest && lineage.path == request.lineage && epoch.path == request.epoch
      && |receipts| == 3
      && ReceiptMatches(checks, receipts[0], manifest) && ReceiptMatches(checks, receipts[1], lineage)
      && ReceiptMatches(checks, receipts[2], epoch)
    }
  }

  /** The staged copy at `path` holds the bytes of the member: same digest, and a receipt for exactly
      these bytes at exactly this place. */
  predicate StagedCopy(checks: Checks, staged: Artifact, member: Artifact, path: string, receipt: Receipt) {
    && staged.path == path == receipt.destination
    && checks.sha256(staged.bytes) == checks.sha256(member.bytes) == receipt.sha256
    && receipt.byteLength == |staged.bytes| && staged.bytes != []
  }

  /** A valid preparation is bound to its composite byte for byte, up to the digest: manifest, lineage
      edge and epoch record each stand at their own staging path with a receipt of their own. */
  lemma PreparedIsByteBound(checks: Checks, prepared: Prepared)
    requires prepared.Valid(checks)
    ensures |prepared.receipts| == 3
    ensures var request := prepared.request;
            && StagedCopy(checks, prepared.manifest, request.composite.manifest, request.manifest, prepared.receipts[0])
            && StagedCopy(checks, prepared.lineage, request.composite.lineage, request.lineage, prepared.receipts[1])
            && StagedCopy(checks, prepared.epoch, request.composite.epoch.record, request.epoch, prepared.receipts[2])
            && |{request.manifest, request.lineage, request.epoch}| == 3
  {
    var paths := [prepared.request.manifest, prepared.request.lineage, prepared.request.epoch];
    assert paths[0] != paths[1] && paths[0] != paths[2] && paths[1] != paths[2];
  }

  lemma PreparedCompositeIsValid(checks: Checks, prepared: Prepared)
    requires prepared.Valid(checks)
    ensures prepared.request.composite.Valid(checks) && CanonicalFinal(prepared.request.composite.run, prepared.request.composite.final)
  {
  }

  lemma MatchingReceiptIsValid(checks: Checks, receipt: Receipt, artifact: Artifact)
    requires ReceiptMatches(checks, receipt, artifact)
    ensures receipt.Valid(checks) && receipt.destination == artifact.path && receipt.sha256 == artifact.sha256
    ensures receipt.byteLength == |artifact.bytes|
  {
  }

  /** NewPrepareCompositeRequest */
  function Prepare(checks: Checks, composite: Composite): Result<PrepareRequest> {
    var sessionID, runID := composite.run.sessionID, composite.run.runID;
    match (PathOf(StagedParts(sessionID, runID, STAGED_NAMES[0])), PathOf(StagedParts(sessionID, runID, STAGED_NAMES[1])),
           PathOf(StagedParts(sessionID, runID, STAGED_NAMES[2])))
    case (Ok(manifest), Ok(lineage), Ok(epoch)) =>
      var request := PrepareRequest(composite, manifest, lineage, epoch);
      if request.Valid(checks) then Ok(request) else Err
    case _ => Err
  }

  /** The paths of a run's own documents and of its staged final, as they are spelled. */
  lemma RunPathTexts(run: Run, final: FinalIdentity)
    requires run.Valid() && final.Valid() && CanonicalFinal(run, final)
    ensures final.path == run.sessionID + "/" + run.runID + "/" + ("review_" + final.reviewID + ".json")
    ensures StagedFinalPath(run, final)
         == Ok(run.sessionID + "/" + run.runID + "/" + "publication" + "/" + "staged" + "/"
               + ("review_" + final.reviewID + ".json" + ".tmp"))
    ensures MutablePath(run, StatusDocument) == Ok(run.sessionID + "/" + run.runID + "/" + "status.json")
    ensures MutablePath(run, JournalDocument) == Ok(run.sessionID + "/" + run.runID + "/" + "publication" + "/" + "journal.json")
  {
    CanonicalPathsAgree(run, final, StatusDocument);
    CanonicalPathsAgree(run, final, JournalDocument);
    JoinOfFew(run.sessionID, run.runID, FinalName(final.reviewID), "", "");
    JoinOfFew(run.sessionID, run.runID, "publication", "staged", FinalName(final.reviewID) + ".tmp");
    JoinOfFew(run.sessionID, run.runID, "status.json", "", "");
    JoinOfFew(run.sessionID, run.runID, "publication", "journal.json", "");
  }

  /** The paths of the composite's members, as they are spelled. */
  lemma CompositePathTexts(checks: Checks, composite: Composite)
    requires composite.Valid(checks)
    ensures composite.manifest.path == composite.run.sessionID + "/" + composite.run.runID + "/" + "manifest.json"
    ensures composite.lineage.path == "store" + "/" + "lineage-edges" + "/" + ("e_" + composite.final.reviewID + ".json")
    ensures composite.epoch.record.path == "store" + "/" + "epochs" + "/" + ("epoch_" + Pad(composite.epoch.value, 20) + ".json")
    ensures composite.epoch.value > 0
  {
    JoinOfFew(composite.run.sessionID, composite.run.runID, "manifest.json", "", "");
    JoinOfFew("store", "lineage-edges", "e_" + composite.final.reviewID + ".json", "", "");
    JoinOfFew("store", "epochs", RunSupport.EpochName(composite.epoch.value), "", "");
  }

  lemma PartsBindPath(a: seq<string>, b: seq<string>)
    requires a != [] && b != [] && PlainComponents(a) && PlainComponents(b)
    ensures Join(a, '/') == Join(b, '/') <==> a == b
  {
    JoinedIsPath(a);
    JoinedIsPath(b);
  }

  /** Every valid composite can be prepared: its three staging paths are valid and distinct. */
  lemma ValidCompositePrepares(checks: Checks, composite: Composite)
    requires composite.Valid(checks)
    ensures Prepare(checks, composite).Ok? && Prepare(checks, composite).value.composite == composite
  {
    var sessionID, runID := composite.run.sessionID, composite.run.runID;
    StagedNamesAreDistinct();
    StagedNameIsPath(sessionID, runID, STAGED_NAMES[0]);
    StagedNameIsPath(sessionID, runID, STAGED_NAMES[1]);
    StagedNameIsPath(sessionID, runID, STAGED_NAMES[2]);
    assert StagedParts(sessionID, runID, STAGED_NAMES[0])[4] == STAGED_NAMES[0];
    assert StagedParts(sessionID, runID, STAGED_NAMES[1])[4] == STAGED_NAMES[1];
    assert StagedParts(sessionID, runID, STAGED_NAMES[2])[4] == STAGED_NAMES[2];
  }

  lemma StagedNamesAreDistinct()
    ensures PlainComponent(STAGED_NAMES[0]) && PlainComponent(STAGED_NAMES[1]) && PlainComponent(STAGED_NAMES[2])
    ensures STAGED_NAMES[0] != STAGED_NAMES[1] && STAGED_NAMES[0] != STAGED_NAMES[2] && STAGED_NAMES[1] != STAGED_NAMES[2]
  {
    StagedNameIsPlain(0);
    StagedNameIsPlain(1);
    StagedNameIsPlain(2);
  }

  lemma StagedNameIsPlain(i: nat)
    requires i < 3
    ensures PlainComponent(STAGED_NAMES[i]) && STAGED_NAMES[i][0] == ['m', 'l', 'e'][i]
  {
    if i == 0 {
      assert PlainComponent("manifest.json.tmp");
    } else if i == 1 {
      assert PlainComponent("lineage-edge.json.tmp");
    } else {
      assert PlainComponent("epoch.json.tmp");
    }
  }

  /** The final and the three members of a valid composite never share a path. */
  lemma CompositePathsAreDistinct(checks: Checks, composite: Composite)
    requires composite.Valid(checks)
    ensures DistinctPaths([composite.final.path, composite.manifest.path, composite.lineage.path, composite.epoch.record.path])
  {
    var run, final := composite.run, composite.final;
    IdentifiersArePlain(run.sessionID, run.runID);
    ReviewNamesArePlain(final.reviewID);
    EpochNameIsPlain(composite.epoch.value);
    var a, b, c, d := FinalParts(run.sessionID, run.runID, final.reviewID), ManifestParts(run), LineageParts(final),
      EpochParts(composite.epoch.value);
    FixedNamesArePlain();
    RunAndStoreDiffer(run, final, composite.epoch.value);
    MembersDiffer(run, final, composite.epoch.value);
    PartsBindPath(a, b);
    PartsBindPath(a, c);
    PartsBindPath(a, d);
    PartsBindPath(b, c);
    PartsBindPath(b, d);
    PartsBindPath(c, d);
  }

  lemma EpochNameIsPlain(epoch: nat)
    ensures PlainComponent(RunSupport.EpochName(epoch))
  {
    PadDenotes(epoch, 20);
    SafeNameIsPlain("epoch_", Pad(epoch, 20), ".json");
  }

  lemma FixedNamesArePlain()
    ensures PlainComponent("store") && PlainComponent("lineage-edges") && PlainComponent("epochs")
            && PlainComponent("manifest.json")
  {
    FixedNameIsPlain("store");
    FixedNameIsPlain("lineage-edges");
    FixedNameIsPlain("epochs");
    FixedNameIsPlain("manifest.json");
  }

  lemma FixedNameIsPlain(name: string)
    requires |name| > 2 && forall i :: 0 <= i < |name| ==> name[i] != '/' && name[i] != '\0' && name[i] != '\\'
    ensures PlainComponent(name)
  {
  }

  lemma RunAndStoreDiffer(run: Run, final: FinalIdentity, epoch: nat)
    requires ValidSessionID(run.sessionID)
    ensures FinalParts(run.sessionID, run.runID, final.reviewID) != LineageParts(final)
    ensures FinalParts(run.sessionID, run.runID, final.reviewID) != EpochParts(epoch)
    ensures ManifestParts(run) != LineageParts(final) && ManifestParts(run) != EpochParts(epoch)
  {
    assert run.sessionID[1] == '_' && "store"[1] == 't';
    assert FinalParts(run.sessionID, run.runID, final.reviewID)[0] == run.sessionID && ManifestParts(run)[0] == run.sessionID;
    assert LineageParts(final)[0] == "store" && EpochParts(epoch)[0] == "store";
  }

  lemma MembersDiffer(run: Run, final: FinalIdentity, epoch: nat)
    ensures FinalParts(run.sessionID, run.runID, final.reviewID) != ManifestParts(run)
    ensures LineageParts(final) != EpochParts(epoch)
  {
    assert FinalName(final.reviewID)[0] == 'r' && "manifest.json"[0] == 'm';
    assert FinalParts(run.sessionID, run.runID, final.reviewID)[2] == FinalName(final.reviewID);
    assert ManifestParts(run)[2] == "manifest.json";
    assert "lineage-edges"[0] == 'l' && "epochs"[0] == 'e';
    assert LineageParts(final)[1] == "lineage-edges" && EpochParts(epoch)[1] == "epochs";
  }
}
