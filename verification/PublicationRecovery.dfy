/** Recovery after a crash: what durable evidence must travel with an observation, the gate that the
    service puts before an action, and the requests that the action builds past it. */
module PublicationRecovery {
  import opened Prelude
  import opened Paths
  import opened Publication
  import opened PublicationRecords

  // ---------------------------------------------------------------- observed evidence

  datatype ObservedDocument = ObservedDocument(
    document: Document, path: string, sha256: string, bytes: Bytes, present: bool)
  {
    predicate Valid(checks: Checks) {
      && ValidPath(path)
      && if !present then sha256 == "" && bytes == []
         else ValidSHA256(sha256) && (bytes != [] || document.StatusDocument?) && checks.sha256(bytes) == sha256
    }
  }

  datatype Snapshot = Snapshot(final: FinalArtifact, manifest: Artifact, lineage: Artifact, epoch: Epoch) {
    predicate Valid(checks: Checks) {
      && final.Valid(checks) && manifest.Valid(checks) && lineage.Valid(checks) && epoch.Valid(checks)
      && DistinctPaths([final.identity.path, manifest.path, lineage.path, epoch.record.path])
    }
  }

  datatype Material = Material(
    final: FinalArtifact, stagedPath: Option<string>, journal: ObservedDocument, status: Option<ObservedDocument>,
    candidate: Option<FinalArtifact>, prepared: Option<Prepared>, snapshot: Option<Snapshot>)
  {
    predicate Valid(checks: Checks) {
      && final.Valid(checks)
      && MutablePathForFinal(final.identity, JournalDocument) == Ok(journal.path)
      && (stagedPath.Some? ==> StagedPathForFinal(final.identity) == Ok(stagedPath.value))
      && journal.Valid(checks) && journal.document.JournalDocument?
      && (status.Some? ==>
            MutablePathForFinal(final.identity, StatusDocument) == Ok(status.value.path) && status.value.Valid(checks)
            && status.value.document.StatusDocument?)
      && (candidate.Some? <==> prepared.Some?)
      && (snapshot.Some? ==> snapshot.value.Valid(checks) && snapshot.value.final == final)
      && (candidate.Some? ==>
            journal.present && candidate.value.Valid(checks) && candidate.value.identity == final.identity
            && prepared.value.Valid(checks) && prepared.value.request.composite.final == final.identity)
    }
  }

  datatype Observation = Observation(input: Input, storeEpoch: nat, material: Option<Material>) {
    predicate Valid(checks: Checks) {
      && storeEpoch > 0 && input.Valid()
      && (material.Some? ==> material.value.Valid(checks))
      && (!input.observation.P2Committed? && material.Some? ==> material.value.snapshot.None?)
      && match input.observation
         case P0Staged => material.Some? && material.value.stagedPath.Some? && Prepares(material.value)
         case P1Installed => material.Some? && material.value.stagedPath.None? && Prepares(material.value)
         case P0None =>
           if input.journal in {ContentValidated, FinalStaged}
           then material.Some? && material.value.stagedPath.None? && Prepares(material.value)
           else material.None?
         case P2Committed =>
           && material.Some? && material.value.stagedPath.None? && material.value.candidate.None?
           && material.value.prepared.None? && material.value.status.Some? && material.value.snapshot.Some?
           && material.value.snapshot.value.epoch.value == storeEpoch
         case AmbiguousOrMismatch => material.None?
    }
  }

  predicate Prepares(material: Material) {
    material.candidate.Some? && material.prepared.Some?
  }

  // ---------------------------------------------------------------- requests

  datatype AdoptRequest = AdoptRequest(run: Run, stagedPath: string, binding: Binding, final: FinalArtifact, maxBytes: int) {
    predicate Valid(checks: Checks) {
      && run.Valid() && ValidPath(stagedPath) && binding.Valid() && final.Valid(checks) && maxBytes > 0
      && |final.bytes| <= maxBytes && binding.final == final.identity && CanonicalFinal(run, final.identity)
      && StagedFinalPath(run, final.identity) == Ok(stagedPath)
    }
  }

  datatype StageRequest = StageRequest(
    run: Run, stagedPath: string, binding: Binding, hasSource: bool, maxBytes: int, expectedByteLength: int,
    sourceIDs: seq<string>, hasAbort: bool)
  {
    predicate Valid(checks: Checks) {
      && run.Valid() && ValidPath(stagedPath) && binding.Valid() && CanonicalFinal(run, binding.final)
      && StagedFinalPath(run, binding.final) == Ok(stagedPath) && hasSource && maxBytes > 0
      && 0 <= expectedByteLength <= maxBytes && ValidSourceIDs(checks, sourceIDs) && hasAbort
    }
  }

  datatype StageResult = StageResult(stagedPath: string, final: FinalIdentity, receipt: Receipt, durable: bool) {
    predicate Valid(checks: Checks) {
      && ValidPath(stagedPath) && final.Valid() && stagedPath != final.path && receipt.Valid(checks)
      && receipt.destination == stagedPath && receipt.sha256 == final.sha256
    }
  }

  datatype InstallRequest = InstallRequest(run: Run, staged: StageResult) {
    predicate Valid(checks: Checks) {
      && run.Valid() && staged.Valid(checks) && staged.durable && staged.receipt.root == run.root
      && CanonicalFinal(run, staged.final) && StagedFinalPath(run, staged.final) == Ok(staged.stagedPath)
    }
  }

  datatype Expectation = Expectation(mustBeAbsent: bool, sha256: string) {
    predicate Valid() { if mustBeAbsent then sha256 == "" else ValidSHA256(sha256) }
  }

  /** A replacement is made only over what was observed. */
  function ExpectationFor(observed: ObservedDocument): Expectation {
    if observed.present then Expectation(false, observed.sha256) else Expectation(true, "")
  }

  datatype ReplaceRequest = ReplaceRequest(
    run: Run, document: Document, path: string, prior: Expectation, replacement: Bytes, sha256: string)
  {
    predicate Valid(checks: Checks) {
      && run.Valid() && MutablePath(run, document) == Ok(path) && prior.Valid() && replacement != []
      && ValidSHA256(sha256) && checks.sha256(replacement) == sha256
    }
  }

  // ---------------------------------------------------------------- what a request or observation shows

  /** An observed document that is there shows the printed digest of its bytes, and only a status may
      have none; one that is missing shows nothing. */
  lemma DocumentShows(checks: Checks, observed: ObservedDocument)
    ensures observed.Valid(checks) <==>
              && ValidPath(observed.path)
              && (observed.present ==> ValidSHA256(observed.sha256) && observed.sha256 == checks.sha256(observed.bytes))
              && (observed.present && observed.bytes == [] ==> observed.document == StatusDocument)
              && (!observed.present ==> observed.sha256 == "" && observed.bytes == [])
  {
  }

  /** Everything in valid recovery material is of one session, run and final, at the paths that these
      have, and byte-bound. */
  lemma MaterialShows(checks: Checks, material: Material)
    requires material.Valid(checks)
    ensures material.final.identity.sha256 == checks.sha256(material.final.bytes) && material.final.bytes != []
    ensures ScopeOf(material.final.identity).Ok?
    ensures var (sessionID, runID) := ScopeOf(material.final.identity).value;
            var identity := material.final.identity;
            && identity.path == sessionID + "/" + runID + "/" + ("review_" + identity.reviewID + ".json")
            && material.journal.path == sessionID + "/" + runID + "/" + "publication" + "/" + "journal.json"
            && material.journal.document == JournalDocument && material.journal.Valid(checks)
            && (material.status.Some? ==>
                  material.status.value.path == sessionID + "/" + runID + "/" + "status.json"
                  && material.status.value.document == StatusDocument && material.status.value.Valid(checks))
            && (material.stagedPath.Some? ==>
                  material.stagedPath.value
                  == sessionID + "/" + runID + "/" + "publication" + "/" + "staged" + "/" + ("review_" + identity.reviewID + ".json" + ".tmp"))
    ensures material.candidate.Some? <==> material.prepared.Some?
    ensures material.candidate.Some? ==>
              && material.journal.present && material.candidate.value.Valid(checks) && material.prepared.value.Valid(checks)
              && material.candidate.value.identity == material.final.identity
              && material.prepared.value.request.composite.final == material.final.identity
    ensures material.snapshot.Some? ==> material.snapshot.value.Valid(checks) && material.snapshot.value.final == material.final
  {
    var identity := material.final.identity;
    var (sessionID, runID) := ScopeOf(identity).value;
    var run := Run("/", sessionID, runID);
    ScopeRoundTrip(run, identity);
    RunPathTexts(run, identity);
    CanonicalPathsAgree(run, identity, JournalDocument);
    CanonicalPathsAgree(run, identity, StatusDocument);
  }

  lemma StagedPathText(run: Run, final: FinalIdentity, stagedPath: string)
    requires run.Valid() && final.Valid() && CanonicalFinal(run, final)
    ensures StagedFinalPath(run, final) == Ok(stagedPath) <==>
              stagedPath == run.sessionID + "/" + run.runID + "/" + "publication" + "/" + "staged" + "/"
                            + ("review_" + final.reviewID + ".json" + ".tmp")
    ensures StagedFinalPath(run, final) == Ok(stagedPath) ==> ValidPath(stagedPath) && stagedPath != final.path
  {
    RunPathTexts(run, final);
    StagedIsNotFinal(run, final);
    StagedPathIsPath(run, final);
  }

  /** Staged bytes are adopted for a run only at the staging path of a final of that run, for the
      review that was issued, under a cap that holds them. */
  lemma AdoptionShows(checks: Checks, request: AdoptRequest)
    ensures request.Valid(checks) <==>
              && request.run.Valid() && request.final.Valid(checks) && CanonicalFinal(request.run, request.final.identity)
              && request.stagedPath == request.run.sessionID + "/" + request.run.runID + "/" + "publication" + "/" + "staged" + "/"
                                       + ("review_" + request.final.identity.reviewID + ".json" + ".tmp")
              && request.binding.final == request.final.identity && request.binding.issued.Valid()
              && request.binding.issued.reviewID == request.final.identity.reviewID
              && |request.final.bytes| <= request.maxBytes
  {
    if request.run.Valid() && request.final.Valid(checks) && CanonicalFinal(request.run, request.final.identity) {
      StagedPathText(request.run, request.final.identity, request.stagedPath);
    }
  }

  /** A candidate is staged only at that path too, with a source, a cap that its length respects, and
      source identifiers that can be audited. */
  lemma StagingShows(checks: Checks, request: StageRequest)
    ensures request.Valid(checks) <==>
              && request.run.Valid() && request.binding.Valid() && CanonicalFinal(request.run, request.binding.final)
              && request.stagedPath == request.run.sessionID + "/" + request.run.runID + "/" + "publication" + "/" + "staged" + "/"
                                       + ("review_" + request.binding.final.reviewID + ".json" + ".tmp")
              && request.hasSource && request.hasAbort && 1 <= request.maxBytes
              && 0 <= request.expectedByteLength <= request.maxBytes && ValidSourceIDs(checks, request.sourceIDs)
  {
    if request.run.Valid() && request.binding.Valid() && CanonicalFinal(request.run, request.binding.final) {
      StagedPathText(request.run, request.binding.final, request.stagedPath);
    }
  }

  /** What may be installed was staged durably for this run: a receipt in its root, of the digest that
      the final names, at the final's staging path and not at its own. */
  lemma InstallationShows(checks: Checks, request: InstallRequest)
    ensures request.Valid(checks) <==>
              && request.run.Valid() && request.staged.final.Valid() && CanonicalFinal(request.run, request.staged.final)
              && request.staged.durable && request.staged.receipt.Valid(checks)
              && request.staged.receipt.root == request.run.root
              && request.staged.receipt.destination == request.staged.stagedPath
              && request.staged.receipt.sha256 == request.staged.final.sha256
              && request.staged.stagedPath
                 == request.run.sessionID + "/" + request.run.runID + "/" + "publication" + "/" + "staged" + "/"
                    + ("review_" + request.staged.final.reviewID + ".json" + ".tmp")
    ensures request.Valid(checks) ==> request.staged.stagedPath != request.staged.final.path
  {
    if request.run.Valid() && request.staged.final.Valid() && CanonicalFinal(request.run, request.staged.final) {
      StagedPathText(request.run, request.staged.final, request.staged.stagedPath);
    }
  }

  /** A document is replaced only at its own path in the run, by bytes under their digest, and over
      either nothing or bytes of a known digest. */
  lemma ReplacementShows(checks: Checks, request: ReplaceRequest)
    ensures request.Valid(checks) <==>
              && request.run.Valid()
              && request.path == (if request.document == StatusDocument
                                  then request.run.sessionID + "/" + request.run.runID + "/" + "status.json"
                                  else request.run.sessionID + "/" + request.run.runID + "/" + "publication" + "/" + "journal.json")
              && (request.prior.mustBeAbsent ==> request.prior.sha256 == "")
              && (!request.prior.mustBeAbsent ==> ValidSHA256(request.prior.sha256))
              && |request.replacement| >= 1 && request.sha256 == checks.sha256(request.replacement)
              && ValidSHA256(checks.sha256(request.replacement))
  {
    if request.run.Valid() {
      MutablePathIsPath(request.run.sessionID, request.run.runID, request.document);
      JoinOfFew(request.run.sessionID, request.run.runID, "status.json", "", "");
      JoinOfFew(request.run.sessionID, request.run.runID, "publication", "journal.json", "");
    }
  }

  // ---------------------------------------------------------------- what the evidence implies

  /** The run of a prepared composite is the run its final's path names, so every path found from
      the final is the one found from the run. */
  lemma PreparedFixesRun(checks: Checks, material: Material)
    requires material.Valid(checks) && Prepares(material)
    ensures var run := material.prepared.value.request.composite.run;
            && run.Valid() && CanonicalFinal(run, material.final.identity)
            && MutablePath(run, JournalDocument) == Ok(material.journal.path)
            && StagedFinalPath(run, material.final.identity) == StagedPathForFinal(material.final.identity)
            && StagedFinalPath(run, material.final.identity).Ok?
            && ScopeOf(material.final.identity) == Ok((run.sessionID, run.runID))
  {
    var run := material.prepared.value.request.composite.run;
    CanonicalPathsAgree(run, material.final.identity, JournalDocument);
    ScopeRoundTrip(run, material.final.identity);
  }

  lemma StagedPathIsPath(run: Run, final: FinalIdentity)
    requires StagedFinalPath(run, final).Ok?
    ensures ValidPath(StagedFinalPath(run, final).value)
  {
  }

  /** A durable result for the canonical staged bytes of a run can be installed in that run. */
  lemma DurableResultInstalls(checks: Checks, run: Run, result: StageResult)
    requires run.Valid() && CanonicalFinal(run, result.final) && StagedFinalPath(run, result.final) == Ok(result.stagedPath)
    requires result.Valid(checks) && result.durable && result.receipt.root == run.root
    ensures InstallRequest(run, result).Valid(checks)
  {
  }

  // ---------------------------------------------------------------- the gate before an action

  /** What the service reads in a recovery journal. */
  datatype JournalRecord = JournalRecord(storeEpoch: nat, candidateSHA256: string)

  /** The service's readers of canonical JSON records are parameters: the journal at its one schema
      version, the candidate digest in a manifest, and whether journal and composite tell the same
      story for a journal state. */
  datatype Records = Records(
    journal: Bytes -> Option<JournalRecord>,
    manifestCandidate: Bytes -> Option<string>,
    consistent: (Bytes, JournalState, FinalArtifact, Composite) -> bool)

  predicate ReceiptsAtRoot(receipts: seq<Receipt>, root: string) {
    forall i :: 0 <= i < |receipts| ==> receipts[i].root == root
  }

  /** The journal decodes, tells the story of the composite, and is of the observed epoch. */
  predicate JournalBinds(records: Records, observation: Observation, journal: ObservedDocument, candidate: FinalArtifact,
                         composite: Composite) {
    var record := records.journal(journal.bytes);
    && record.Some? && records.consistent(journal.bytes, observation.input.journal, candidate, composite)
    && record.value.storeEpoch == observation.storeEpoch && ValidSHA256(record.value.candidateSHA256)
  }

  /** preparedMatchesComposite, of a composite and itself. */
  predicate PreparedAtRoot(checks: Checks, prepared: Prepared) {
    prepared.Valid(checks) && ReceiptsAtRoot(prepared.receipts, prepared.request.composite.run.root)
  }

  predicate CanonicalNames(run: Run, material: Material, candidate: FinalArtifact) {
    && PathOf(MutableParts(run.sessionID, run.runID, JournalDocument)) == Ok(material.journal.path)
    && StagedFinalPath(run, candidate.identity).Ok?
    && (material.stagedPath.Some? ==> StagedFinalPath(run, candidate.identity) == Ok(material.stagedPath.value))
  }

  /** All that validateRecoveryMaterial asks of candidate and composite. */
  predicate Passes(checks: Checks, records: Records, run: Run, observation: Observation, material: Material,
                   candidate: FinalArtifact, prepared: Prepared) {
    && material.Valid(checks) && candidate.Valid(checks) && prepared.durable && PreparedAtRoot(checks, prepared)
    && prepared.request.composite.run == run && prepared.request.composite.final == candidate.identity
    && JournalBinds(records, observation, material.journal, candidate, prepared.request.composite)
    && CanonicalNames(run, material, candidate)
  }

  method PreparedMatchesComposite(checks: Checks, prepared: Prepared) returns (ok: bool)
    ensures ok <==> PreparedAtRoot(checks, prepared)
  {
    if !prepared.Valid(checks) { return false; }
    ok := EveryReceiptAt(prepared.receipts, prepared.request.composite.run.root);
  }

  method EveryReceiptAt(receipts: seq<Receipt>, root: string) returns (ok: bool)
    ensures ok <==> ReceiptsAtRoot(receipts, root)
  {
    for i := 0 to |receipts|
      invariant forall k :: 0 <= k < i ==> receipts[k].root == root
    {
      if receipts[i].root != root { return false; }
    }
    ok := true;
  }

  /** The service asks this gate with the candidate and composite that the observation carries. */
  ghost predicate Admitted(checks: Checks, records: Records, run: Run, observation: Observation) {
    && observation.Valid(checks) && observation.material.Some? && Prepares(observation.material.value)
    && var material := observation.material.value;
       Passes(checks, records, run, observation, material, material.candidate.value, material.prepared.value)
  }

  /** Of a valid observation that carries a composite the gate learns only four things: that the
      preparation is durable, that its receipts are in the composite's root, that the composite is of
      the run being recovered, and that the journal binds it.  Paths and identities agree anyway. */
  lemma GateAsksFourThings(checks: Checks, records: Records, run: Run, observation: Observation)
    requires observation.Valid(checks) && observation.material.Some? && Prepares(observation.material.value)
    ensures var material := observation.material.value;
            var prepared, candidate := material.prepared.value, material.candidate.value;
            var composite := prepared.request.composite;
            var record := records.journal(material.journal.bytes);
            Admitted(checks, records, run, observation) <==>
              && prepared.durable && (forall i :: 0 <= i < 3 ==> prepared.receipts[i].root == run.root)
              && composite.run == run
              && record.Some? && record.value.storeEpoch == observation.storeEpoch
              && ValidSHA256(record.value.candidateSHA256)
              && records.consistent(material.journal.bytes, observation.input.journal, candidate, composite)
  {
    var material := observation.material.value;
    PreparedFixesRun(checks, material);
  }

  /** issuedReviewIDFromMaterial: journal and manifest must name the same validated candidate. */
  function IssuedFrom(records: Records, journal: Bytes, manifest: Bytes, reviewID: string): Result<IssuedReviewID> {
    match (records.journal(journal), records.manifestCandidate(manifest))
    case (Some(record), Some(candidate)) =>
      var issued := IssuedReviewID(reviewID, record.candidateSHA256);
      if record.candidateSHA256 != "" && record.candidateSHA256 == candidate && issued.Valid() then Ok(issued) else Err
    case _ => Err
  }

  function IssuedOf(records: Records, material: Material): Result<IssuedReviewID>
    requires Prepares(material)
  {
    IssuedFrom(records, material.journal.bytes, material.prepared.value.request.composite.manifest.bytes,
               material.candidate.value.identity.reviewID)
  }

  /** Past the gate a review ID is issued exactly when the manifest names the journal's candidate. */
  lemma GateIssues(checks: Checks, records: Records, run: Run, observation: Observation)
    requires Admitted(checks, records, run, observation)
    ensures var material := observation.material.value;
            && records.journal(material.journal.bytes).Some?
            && (IssuedOf(records, material).Ok? <==>
                  records.manifestCandidate(material.prepared.value.request.composite.manifest.bytes)
                  == Some(records.journal(material.journal.bytes).value.candidateSHA256))
  {
  }

  // ---------------------------------------------------------------- the actions past the gate

  lemma CandidateIsAdoptable(checks: Checks, material: Material, issued: IssuedReviewID, maxBytes: int)
    requires material.Valid(checks) && Prepares(material) && material.stagedPath.Some?
    requires issued.Valid() && issued.reviewID == material.final.identity.reviewID
    requires maxBytes >= |material.candidate.value.bytes|
    ensures AdoptRequest(material.prepared.value.request.composite.run, material.stagedPath.value,
                         Binding(issued, material.candidate.value.identity), material.candidate.value, maxBytes).Valid(checks)
  {
    PreparedFixesRun(checks, material);
  }

  /** What the service checks of the result of an adoption before it installs. */
  ghost predicate Returns(checks: Checks, run: Run, material: Material, result: StageResult)
    requires Prepares(material) && material.stagedPath.Some?
  {
    && result.Valid(checks) && result.durable && result.receipt.root == run.root
    && result.receipt.byteLength == |material.candidate.value.bytes|
    && result.stagedPath == material.stagedPath.value && result.final == material.candidate.value.identity
  }

  /** Past the gate an installation can be carried out in the run being recovered: the adopt request
      is valid, and so is the install request for whatever adoption result the service accepts. */
  lemma InstallIsExecutable(checks: Checks, records: Records, run: Run, observation: Observation, maxBytes: int,
                            result: StageResult)
    requires Admitted(checks, records, run, observation) && IssuedOf(records, observation.material.value).Ok?
    requires Classify(observation.input).Ok? && Classify(observation.input).value.action == InstallStagedFinal
    requires maxBytes >= |observation.material.value.candidate.value.bytes|
    ensures observation.material.value.stagedPath.Some?
    ensures var material := observation.material.value;
            var issued, candidate := IssuedOf(records, material).value, material.candidate.value;
            && AdoptRequest(run, material.stagedPath.value, Binding(issued, candidate.identity), candidate, maxBytes).Valid(checks)
            && (Returns(checks, run, material, result) ==> InstallRequest(run, result).Valid(checks))
  {
    var material := observation.material.value;
    EvidenceFitsAction(checks, observation);
    CandidateIsAdoptable(checks, material, IssuedOf(records, material).value, maxBytes);
    PreparedFixesRun(checks, material);
    if Returns(checks, run, material, result) { DurableResultInstalls(checks, run, result); }
  }

  /** The source under which a candidate is staged again. */
  const CANDIDATE_SOURCES := ["validated_candidate"]

  lemma CandidateIsStageable(checks: Checks, material: Material, issued: IssuedReviewID, maxBytes: int)
    requires material.Valid(checks) && Prepares(material)
    requires issued.Valid() && issued.reviewID == material.final.identity.reviewID
    requires maxBytes >= |material.candidate.value.bytes| && ValidSourceIDs(checks, CANDIDATE_SOURCES)
    ensures var run, candidate := material.prepared.value.request.composite.run, material.candidate.value;
            && StagedFinalPath(run, candidate.identity).Ok?
            && StageRequest(run, StagedFinalPath(run, candidate.identity).value, Binding(issued, candidate.identity), true,
                            maxBytes, |candidate.bytes|, CANDIDATE_SOURCES, true).Valid(checks)
  {
    PreparedFixesRun(checks, material);
    StagedPathIsPath(material.prepared.value.request.composite.run, material.final.identity);
  }

  /** Past the gate a candidate can be staged again: nothing is staged, the request for the canonical
      staging path is valid, and the journal can be moved on afterwards. */
  lemma RestageIsExecutable(checks: Checks, records: Records, run: Run, observation: Observation, maxBytes: int)
    requires Admitted(checks, records, run, observation) && IssuedOf(records, observation.material.value).Ok?
    requires Classify(observation.input).Ok? && Classify(observation.input).value.action == RestageValidatedCandidate
    requires maxBytes >= |observation.material.value.candidate.value.bytes| && checks.token("validated_candidate", 256)
    ensures var material := observation.material.value;
            var issued, candidate := IssuedOf(records, material).value, material.candidate.value;
            && material.stagedPath.None?
            && StagedFinalPath(run, candidate.identity).Ok?
            && StageRequest(run, StagedFinalPath(run, candidate.identity).value, Binding(issued, candidate.identity), true,
                            maxBytes, |candidate.bytes|, CANDIDATE_SOURCES, true).Valid(checks)
            && forall bytes :: JournalReplaceable(checks, run, material, bytes)
  {
    var material := observation.material.value;
    EvidenceFitsAction(checks, observation);
    CandidateIsStageable(checks, material, IssuedOf(records, material).value, maxBytes);
    forall bytes ensures JournalReplaceable(checks, run, material, bytes) { JournalMovesOn(checks, material, bytes); }
  }

  /** A printed replacement of the observed journal makes a valid compare-and-swap request. */
  predicate JournalReplaceable(checks: Checks, run: Run, material: Material, bytes: Bytes) {
    bytes != [] && ValidSHA256(checks.sha256(bytes)) ==>
      ReplaceRequest(run, JournalDocument, material.journal.path, ExpectationFor(material.journal), bytes,
                     checks.sha256(bytes)).Valid(checks)
  }

  lemma JournalMovesOn(checks: Checks, material: Material, bytes: Bytes)
    requires material.Valid(checks) && Prepares(material)
    ensures JournalReplaceable(checks, material.prepared.value.request.composite.run, material, bytes)
  {
    PreparedFixesRun(checks, material);
  }

  /** Past the gate the composite can be committed: it is valid and durably prepared, for the final
      that is already installed in this run, nothing is left to stage, and the journal can be moved
      on afterwards. */
  lemma CommitIsExecutable(checks: Checks, records: Records, run: Run, observation: Observation)
    requires Admitted(checks, records, run, observation)
    requires Classify(observation.input).Ok? && Classify(observation.input).value.action == CommitCompositeEpoch
    ensures var material := observation.material.value;
            var prepared := material.prepared.value;
            && material.stagedPath.None? && prepared.Valid(checks) && prepared.durable
            && prepared.request.composite.final == material.candidate.value.identity
            && CanonicalFinal(run, material.final.identity)
            && forall bytes :: JournalReplaceable(checks, run, material, bytes)
  {
    var material := observation.material.value;
    EvidenceFitsAction(checks, observation);
    PreparedFixesRun(checks, material);
    forall bytes ensures JournalReplaceable(checks, run, material, bytes) { JournalMovesOn(checks, material, bytes); }
  }

  lemma StatusIsReplaceable(checks: Checks, material: Material, root: string, replacement: Bytes)
    requires material.Valid(checks) && material.status.Some?
    requires ValidRoot(root) && replacement != [] && ValidSHA256(checks.sha256(replacement))
    ensures ScopeOf(material.final.identity).Ok?
    ensures var (sessionID, runID) := ScopeOf(material.final.identity).value;
            ReplaceRequest(Run(root, sessionID, runID), StatusDocument, material.status.value.path,
                           ExpectationFor(material.status.value), replacement, checks.sha256(replacement)).Valid(checks)
  {
  }

  lemma CommittedEvidence(checks: Checks, observation: Observation)
    requires observation.Valid(checks) && observation.input.observation.P2Committed?
    ensures observation.material.Some?
    ensures var material := observation.material.value;
            && material.Valid(checks) && material.status.Some? && material.snapshot.Some?
            && material.snapshot.value.epoch.value == observation.storeEpoch && material.snapshot.value.final == material.final
  {
  }

  /** A completed status can be reconstructed: the members observed at the store's own epoch belong
      to the same final, and the status found present or missing can be replaced in any root. */
  lemma ReconstructionIsExecutable(checks: Checks, observation: Observation, root: string, replacement: Bytes)
    requires observation.Valid(checks) && Classify(observation.input).Ok?
    requires Classify(observation.input).value.action == ReconstructCompletedStatus
    requires ValidRoot(root) && replacement != [] && ValidSHA256(checks.sha256(replacement))
    ensures var material := observation.material.value;
            && material.snapshot.Some? && material.snapshot.value.epoch.value == observation.storeEpoch
            && material.snapshot.value.final == material.final && material.status.Some?
            && ScopeOf(material.final.identity).Ok?
            && var (sessionID, runID) := ScopeOf(material.final.identity).value;
               ReplaceRequest(Run(root, sessionID, runID), StatusDocument, material.status.value.path,
                              ExpectationFor(material.status.value), replacement, checks.sha256(replacement)).Valid(checks)
  {
    ActionIs(observation.input);
    CommittedEvidence(checks, observation);
    StatusIsReplaceable(checks, observation.material.value, root, replacement);
  }

  /** Which evidence each action needs. */
  predicate Needs(action: RecoveryAction, material: Option<Material>) {
    && (material.None? <==> action == ResumeCollection || action == EmitCorruptionDiagnostic)
    && (material.Some? && material.value.stagedPath.Some? <==> action == InstallStagedFinal)
    && (material.Some? && Prepares(material.value) <==>
          action == InstallStagedFinal || action == CommitCompositeEpoch || action == RestageValidatedCandidate)
    && (material.Some? && material.value.snapshot.Some? <==> action == ReconstructCompletedStatus)
  }

  /** The action by durable class, and by journal hint where there are no durable facts. */
  function ActionFor(input: Input): RecoveryAction {
    match input.observation
    case AmbiguousOrMismatch => EmitCorruptionDiagnostic
    case P2Committed => ReconstructCompletedStatus
    case P1Installed => CommitCompositeEpoch
    case P0Staged => InstallStagedFinal
    case P0None =>
      if input.journal == Collecting then ResumeCollection
      else if input.journal in {ContentValidated, FinalStaged} then RestageValidatedCandidate
      else EmitCorruptionDiagnostic
  }

  lemma ActionIs(input: Input)
    requires input.Valid()
    ensures Classify(input).Ok? && Classify(input).value.action == ActionFor(input)
  {
    ClassifierIsTotal(input);
  }

  lemma EvidenceFitsClass(checks: Checks, observation: Observation)
    requires observation.Valid(checks)
    ensures Needs(ActionFor(observation.input), observation.material)
  {
  }

  /** What an observation carries is exactly what the action chosen from it needs. */
  lemma EvidenceFitsAction(checks: Checks, observation: Observation)
    requires observation.Valid(checks)
    ensures Classify(observation.input).Ok?
    ensures Needs(Classify(observation.input).value.action, observation.material)
  {
    ActionIs(observation.input);
    EvidenceFitsClass(checks, observation);
  }

  // ---------------------------------------------------------------- corruption snapshots

  datatype CorruptionCAS = CorruptionCAS(input: Input, reasons: seq<string>, storeEpoch: nat) {
    predicate Valid() {
      && storeEpoch > 0 && input.Valid() && Classify(input).Ok?
      && Classify(input).value.status.Corrupt? && Classify(input).value.action == EmitCorruptionDiagnostic
      && Classify(input).value.reasons == reasons
    }

    predicate Matches(checks: Checks, observation: Observation) {
      Valid() && observation.Valid(checks) && observation.storeEpoch == storeEpoch && observation.input == input
    }
  }

  /** NewCorruptionObservationCAS */
  function CaptureCorruption(checks: Checks, observation: Observation): Result<CorruptionCAS> {
    if !observation.Valid(checks) || Classify(observation.input).Err? then Err
    else
      var decision := Classify(observation.input).value;
      var cas := CorruptionCAS(observation.input, decision.reasons, observation.storeEpoch);
      if decision.status.Corrupt? && decision.action == EmitCorruptionDiagnostic && cas.Valid() then Ok(cas) else Err
  }

  /** A snapshot can be taken of exactly the corrupt observations; it matches the observation it was
      taken from and any later one with the same epoch and classifier facts, and whatever it
      matches is corrupt for the reasons it records. */
  lemma CorruptionIsCaptured(checks: Checks, observation: Observation, later: Observation)
    requires observation.Valid(checks)
    ensures CaptureCorruption(checks, observation).Ok? <==>
              Classify(observation.input).Ok? && Classify(observation.input).value.action == EmitCorruptionDiagnostic
    ensures CaptureCorruption(checks, observation).Ok? ==>
              var cas := CaptureCorruption(checks, observation).value;
              && cas.Matches(checks, observation) && ValidReasons(cas.reasons)
              && (cas.Matches(checks, later) <==>
                    later.Valid(checks) && later.storeEpoch == observation.storeEpoch && later.input == observation.input)
              && (cas.Matches(checks, later) ==>
                    Classify(later.input).value.status.Corrupt? && Classify(later.input).value.reasons == cas.reasons
                    && later.material.None?)
  {
    ClassifierIsTotal(observation.input);
    if later.Valid(checks) { EvidenceFitsAction(checks, later); }
  }
}
