# Mulgae verification model

Mulgae runs AI code reviews and publishes their results durably. This project models its
deterministic core in Dafny and proves what that core promises. It can be checked with
`dafny verify dfyconfig.toml`.

What is modelled, by file:

- `Capture.dfy`, `ProviderWorkspace.dfy`: captured review material (snapshot files and requests,
  target identities, evidence sides) and the directory tree derived from it for a provider.
- `Archive.dfy`, `ArchiveRoundTrip.dfy`, `Bundle.dfy`, `ArchiveCodec.dfy`: the captured review
  archive. `Archive` and `Bundle` define what the manifest, the blobs and the binary framing are;
  `ArchiveRoundTrip` and `Bundle` prove what survives and what is refused; `ArchiveCodec` is the code
  as it runs (blob table, reference table, loops, buffer, reader), each method proved to compute the
  defining function.
- `Attempts.dfy`, `Runs.dfy`: the attempt and run aggregates as classes, with invariants and
  termination measures over whole runs.
- `TerminalReceipts.dfy`, `TerminalBinding.dfy`: the cleanup evidence and the identifiers of receipts;
  the two one-shot terminal bindings as classes whose methods are the critical sections, and every
  interleaving of acquirer, binders and callers as runs of one state machine.
- `Publication.dfy`, `PublicationRecords.dfy`, `PublicationRecovery.dfy`: the durable classifier, the
  evidence records and canonical paths, the fit between the action chosen and the evidence carried,
  and the gate and requests of a recovery.
- `Composition.dfy`, `Findings.dfy`, `Decimal.dfy`, `RunSupport.dfy`, `Checksums.dfy`,
  `LiveReview.dfy`, `ProviderBranches.dfy`: canonical orders and encodings.
- `StrictJson.dfy`, `RunListing.dfy`, `DiagnosticSink.dfy`: stateful readers and logs.
- `Prelude.dfy`, `Paths.dfy`: results, byte strings, bytewise order, sorting, slash paths, identifiers.

Conventions. A Go string is a Dafny `string` whose characters stand for bytes. A closed set of string
constants is a datatype where nothing depends on its spelling. An error is `Err`, without its text.
`sort.Slice` is used only through the contract "a sorted permutation"; it is never assumed stable.
A map that the program ranges over is ranged over in an arbitrary order. SHA-256, JSON text,
UTF-8 validity, lower-casing, white-space trimming and clocks are parameters; the laws a theorem needs
of them are predicates in its `requires` (`DigestIsPrinted`, `JsonLaws`, `FixedNames`, `TextLaws`).
No law says that the digest is injective: the archive round trip holds for any digest function, because
writing stops at a collision.

Three properties that one might expect are false of the code; each has its exact condition and an input
that violates it:

- A printed checksum inventory is parsed back if and only if no source contains a line break
  (`Checksums.InventoryRoundTrip`); neither path validator excludes one (`Checksums.LineBreakLosesInventory`).
- The request constructor rejects colliding paths with the word "non-colliding" in its error
  (`internal/ports/workspace.go:124`), but compares neighbours only. `a`, `a-b`, `a/b` is accepted
  (`Capture.FileAndDirectoryAccepted`); `Capture.NeighbourCheckSuffices` says exactly which accepted lists
  have no path below another.
- A raw diagnostic stream within its cap is stored whole if and only if it is empty or the cap is below the
  largest 64-bit integer (`DiagnosticSink.StoredWhole`, `DiagnosticSink.LargestCapStoresNothing`): the reader
  asks for one byte more than the cap, and that sum wraps.

`DiagnosticSink.FinalizeOutcome` is a robustness statement: it says what a finalization does under any clock,
one whose readings cannot stamp an event included. The clock that both constructors of the sink install
always stamps, and then `DiagnosticSink.FinalizeSucceeds` applies.

## Model

| member | source | states |
|---|---|---|
| `Capture.NewSnapshotRequest` | internal/ports/workspace.go:107-135 | accepts exactly a valid policy with files that are valid, strictly ascending, not directly below their predecessor and unique after case folding |
| `Capture.FilesAscend` | internal/ports/workspace.go:113-134 | the neighbour check orders any two paths of an accepted list, however far apart |
| `Capture.FoldsAreUnique` | internal/ports/workspace.go:126-130 | no two accepted paths are equal after lower-casing |
| `Capture.FileAndDirectoryAccepted` | internal/ports/workspace.go:123-125 | the files `a`, `a-b`, `a/b` make an accepted request although the last path lies below the first |
| `Capture.NeighbourCheckSuffices` | internal/ports/workspace.go:113-134 | no path of an accepted list lies below another if and only if no run of paths that continue a stem before the slash is followed by a path below that stem |
| `Capture.ClashNeedsEarlyNeighbour` | internal/ports/workspace.go:123-125 | a path below an accepted one shows in its immediate successor, which continues it by a byte before the slash; without such neighbours no path lies below another |
| `Capture.MediaTypesDecide` | internal/ports/workspace.go:137-161 | which paths, digests and contents each media type admits: text without NUL, anything, or the three image signatures |
| `Capture.AcceptedIdentity` | internal/domain/target.go:75-123 | which identities are accepted, and that an empty Git mode is spelled out as a diff |
| `Capture.TargetsAccepted` | internal/ports/review_input.go:89-208 | which captures become targets: non-empty text of the plain kinds, any text of Git with a safe repository name and real object names |
| `Capture.IdentityIsStable` | internal/domain/target.go:75-123 | an accepted target identity is accepted again unchanged |
| `Capture.TargetSurvivesIdentity` | internal/ports/review_input.go:145-184 | identity and bytes of a valid captured target rebuild a valid target with the same identity and bytes |
| `Capture.ValidTargetIsBound` | internal/ports/review_input.go:234-290 | a valid target's identity names the digest of its bytes and, for Git, its repository, commits, trees and mode |
| `Capture.NewCapturedTargetEvidence` | internal/ports/review_input.go:316-338 | two passes over the sides accept exactly evidence whose every side validates, and copy it unchanged |
| `Capture.NewCapturedReviewMaterial` | internal/ports/review_input.go:382-396 | material is accepted exactly when target, snapshot, context and (for a changed target) evidence are valid |
| `ProviderWorkspace.ProviderWorkspaceOf` | internal/ports/review_input.go:436-540 | succeeds for exactly the valid materials that captured the sides their mode shows: base with index for stage, worktree for dirty, and index or head for diff; the result is the target file, if the target changed, followed by the prefixed trees with bytes and media types unchanged |
| `ProviderWorkspace.WorkspaceIsValidRequest` | internal/ports/review_input.go:479-517 | that result is itself a valid request: strictly sorted and case-fold unique across directories and target file |
| `ProviderWorkspace.SidesAreRecovered` | internal/ports/review_input.go:431-435 | stripping the directory prefixes gives each captured side back |
| `ProviderWorkspace.WorkspaceShowsSides` | internal/ports/review_input.go:440-517 | which captured side `before/`, `after/` and `current/` hold for each kind and mode of target, which target file stands beside them, and under which policy |
| `ProviderWorkspace.PrefixWorkspaceFiles` | internal/ports/review_input.go:527-540 | prefixing and sorting a canonical list succeeds and only prepends the directory |
| `ProviderWorkspace.SortFiles` | internal/ports/workspace.go:248-250 | sorting by path has one result whenever some arrangement ascends strictly |
| `ArchiveCodec.CaptureWriter.Add` | internal/ports/review_archive_split.go:107-128 | stores a content under its digest once and returns its reference; fails only when stored contents collide |
| `ArchiveCodec.CaptureWriter.AddFiles` | internal/ports/review_archive_split.go:129-142 | stores every file's bytes in order; fails only on a collision or a misidentified file |
| `ArchiveCodec.NewCapturedReviewArchive` | internal/ports/review_archive_split.go:102-189 | fails for exactly the invalid materials and those with colliding contents; otherwise yields the projected manifest and its blobs in path order |
| `ArchiveCodec.CapturedManifestReferences` | internal/ports/review_archive_split.go:382-425 | yields the distinct references in path order, if and only if every reference is well formed |
| `ArchiveCodec.CapturedReviewArchiveBlobReferences` | internal/ports/review_archive_split.go:193-216 | dispatches on the schema version; a legacy document has no references |
| `ArchiveCodec.RefsToFiles` | internal/ports/review_archive_split.go:357-380 | resolving and rebuilding file by file computes resolving all, then rebuilding all |
| `ArchiveCodec.RestoreSidesInTurn` | internal/ports/review_archive_split.go:316-340 | interleaving resolution and rebuilding of the sides comes to the same as doing one after the other |
| `ArchiveCodec.RestoreCapturedReviewArchive` | internal/ports/review_archive_split.go:243-355 | the restore loops compute the restored material that the round-trip theorems speak about |
| `ArchiveCodec.UnmarshalV1` | internal/ports/review_archive.go:95-173 | the legacy reader computes the legacy restored material |
| `ArchiveCodec.MarshalCapturedReviewBundle` | internal/ports/review_archive_split.go:455-483 | the written buffer is the framing of the archive |
| `ArchiveCodec.UnmarshalCapturedReviewBundle` | internal/ports/review_archive_split.go:489-527 | the step-by-step reader computes the parsed bundle |
| `ArchiveRoundTrip.SameBlobNames` | internal/ports/review_archive_split.go:102-189 | the blobs that the writer files are exactly those that the manifest's references name |
| `ArchiveRoundTrip.ArchiveRestores` | internal/ports/review_archive_split.go:102-355 | restoring what was archived gives the same target, snapshot, context and evidence, for any digest function; exclusions are not carried |
| `ArchiveRoundTrip.RestoreDemandsInventory` | internal/ports/review_archive_split.go:265-283 | a restore gets past its checks exactly with well-formed references and valid blobs of pairwise different paths that are those the manifest names |
| `ArchiveRoundTrip.GatherMeaning` | internal/ports/review_archive_split.go:265-274 | gathering accepts exactly valid blobs with different paths and files each body under its path |
| `ArchiveRoundTrip.CoversMeaning` | internal/ports/review_archive_split.go:275-283 | the count and the per-reference checks together demand the exact set of paths |
| `ArchiveRoundTrip.RestoreIgnoresBlobOrder` | internal/ports/review_archive_split.go:243-355 | a restore does not depend on the order of the blobs |
| `ArchiveRoundTrip.LegacyDocumentRestores` | internal/ports/review_archive.go:47-144 | a capture encoded inline restores as the same capture |
| `ArchiveRoundTrip.UntypedFileIsText` | internal/ports/review_archive.go:154-173 | a file without a media type is rebuilt as text and refused unless it is text |
| `ArchiveRoundTrip.ElidedFilesRebuild` | internal/ports/review_archive.go:154-173 | files whose text entries leave the media type out, any of them, rebuild as the files |
| `ArchiveRoundTrip.ElidedDocumentRestores` | internal/ports/review_archive.go:95-173 | a legacy document whose text files leave the media type out restores as the same capture |
| `ArchiveRoundTrip.ElidedManifestRestores` | internal/ports/review_archive_split.go:357-380 | whatever a manifest restores to, it restores to the same with media types of text left out |
| `ArchiveRoundTrip.ElidedArchiveRestores` | internal/ports/review_archive_split.go:243-380 | the blobs of an archive restore the capture under such a manifest |
| `Archive.RefNamesContent` | internal/ports/review_archive_split.go:107-128 | empty contents have a digest and no blob, others a blob named after their digest |
| `Archive.ProjectionLayout` | internal/ports/review_archive_split.go:143-180 | the manifest's version, its context reference and its sides in the order base, head, index, worktree |
| `Bundle.BundleRoundTrip` | internal/ports/review_archive_split.go:455-527 | a bundle that was written is read back as the capture it was written from, although writer and reader find the blob order separately |
| `Bundle.MarshalledWhen` | internal/ports/review_archive_split.go:455-483 | a capture is written unless it is invalid, has colliding contents or too many blobs to count |
| `Bundle.OnlyExactFramings` | internal/ports/review_archive_split.go:489-527 | whatever is accepted is byte for byte the framing of the manifest and blobs parsed from it, with one blob per distinct reference |
| `Bundle.ReadsFramed` | internal/ports/review_archive_split.go:489-518 | a length-prefixed body is read back from the front of any longer input |
| `Bundle.BundleLayout` | internal/ports/review_archive_split.go:455-483 | magic line, eight bytes of manifest length, manifest, four bytes of blob count, blobs |
| `Bundle.BigEndianDigits` | internal/ports/review_archive_split.go:455-483 | lengths are written highest byte first |
| `Attempts.NewAttempt` | internal/domain/attempt.go:47-59 | an attempt with its trimmed provider starts queued with a queued initial invocation at sequence 1, or not at all |
| `Attempts.Attempt.ReportInvocation` | internal/domain/attempt.go:256-263 | the newest invocation that may carry the role report |
| `Attempts.Attempt.MoveTo` | internal/domain/attempt.go:61-118 | one guarded state step; a rejected one changes nothing |
| `Attempts.Attempt.AppendRetryInvocation` | internal/domain/attempt.go:122-135 | one guarded append of a retry |
| `Attempts.Attempt.AppendExtractInvocation` | internal/domain/attempt.go:141-160 | one guarded append of an extraction |
| `Attempts.Attempt.AppendRepairInvocation` | internal/domain/attempt.go:162-181 | one guarded append of a repair |
| `Attempts.Attempt.MoveInvocation` | internal/domain/attempt.go:183-237 | one guarded step of the current invocation |
| `Attempts.Attempt.MarkInvocationRuntimeArtifactsExpected` | internal/domain/attempt.go:241-251 | marks a running latest invocation once |
| `Attempts.ReachableIsShaped` | internal/domain/attempt.go:61-267 | every reachable attempt has sequences 1..n, n at most 2, a second invocation that is a retry of a failure or a repair or extraction of a success, and a succeeded report whenever it validates or has succeeded |
| `Attempts.ReachableAccepts` | internal/domain/attempt.go:61-251 | exactly which operations a reachable attempt accepts, told by what its invocations did, and what an accepted one changes |
| `Attempts.EveryAttemptCanEnd` | internal/domain/states.go:119-132 | an attempt can be cancelled or blocked until it has ended, and can fail once it has started |
| `Attempts.FirstIsFrozen` | internal/domain/attempt.go:122-237 | with a second invocation there, the first and the number of invocations no longer change |
| `Attempts.RunKeeps` | internal/domain/attempt.go:61-251 | shape and frozen first invocation hold over every sequence of operations |
| `Attempts.TerminalStays` | internal/domain/states.go:119-132 | a terminal attempt never changes state again |
| `Attempts.AtMostTwelve` | internal/domain/attempt.go:61-251 | no run of an attempt has more than twelve accepted operations |
| `Attempts.RepairTakesTwelve` | internal/domain/attempt.go:61-251 | the repair path takes all twelve and succeeds |
| `Attempts.RetrySucceeds` | internal/domain/attempt.go:61-135 | a failed first invocation is made good by one retry |
| `Attempts.ExtractionNeverDecides` | internal/domain/attempt.go:137-160 | however an extraction ends, the accepted report succeeds |
| `Runs.ValidateRoleTasks` | internal/domain/run.go:229-256 | accepts exactly non-empty lists of distinct pending roles whose floor is required, and returns them in the fixed order |
| `Runs.BuiltTasksAreAcceptable` | internal/domain/role_task.go:43-52 | tasks that came out of their constructor are acceptable exactly when there are any and their roles differ, and one alone is a valid selection |
| `Runs.NewRun` | internal/domain/run.go:202-227 | a run starts pending with the given tasks in fixed order, exactly for valid identifiers, a target and acceptable tasks |
| `Runs.Run.MoveTo` | internal/domain/run.go:258-291 | one guarded state step; completion and degradation by what the roles did |
| `Runs.Run.MoveRole` | internal/domain/run.go:302-318 | one guarded step of one selected role of a running run |
| `Runs.ReachableRun` | internal/domain/run.go:229-318 | every reachable run keeps its selection in fixed order with logic required; completed and degraded say what the roles did |
| `Runs.ReachableAccepts` | internal/domain/run.go:258-318 | exactly which state and role steps a reachable run accepts, and what an accepted one changes |
| `Runs.EveryRunCanEnd` | internal/domain/states.go:51-95 | a run can be cancelled until it has ended and failed while it runs; with all roles ended it completes or degrades exactly when the required ones succeeded |
| `Runs.EndedIsFinal` | internal/domain/run.go:258-318 | a run that has ended no longer changes at all, its roles included |
| `Runs.OutcomesAreExclusive` | internal/domain/run.go:265-288 | no role vector permits completion and degradation; all-terminal roles permit neither exactly when a required one did not succeed |
| `Runs.AtMostThreePerRole` | internal/domain/states.go:51-95 | a run of n roles accepts at most 2 + 3n operations |
| `Runs.EverySelectionCompletes` | internal/domain/run.go:258-318 | every fresh run can complete, with exactly that many |
| `TerminalReceipts.NewProviderRunTerminalReceipt` | internal/ports/scheduling.go:370-387 | accepts exactly valid namespace receipts of different instances, in any order, and returns them in canonical order |
| `TerminalReceipts.AggregateIsValid` | internal/ports/scheduling.go:401-418 | rebuilding and comparing accepts exactly the empty proof and the canonical aggregates |
| `TerminalReceipts.NamespaceInputBinds` | internal/ports/scheduling.go:333-340 | the NUL-separated text of a namespace receipt names one receipt |
| `TerminalReceipts.WorkspaceTerminalReceiptInput` | internal/ports/workspace.go:602-626 | the sequence of writes produces the framed text of workspace, run and namespaces |
| `TerminalReceipts.ReceiptInputBinds` | internal/ports/workspace.go:602-626 | that text is the same exactly for the same workspace, run and cleaned-up namespaces |
| `TerminalReceipts.ReceiptInputLayout` | internal/ports/workspace.go:602-626 | which texts name a release, in which order |
| `TerminalReceipts.NamesAsSpelled` | internal/ports/provider.go:327-341 | the spelling of provider instances and snapshot names |
| `TerminalReceipts.ReceiptShowsCleanup` | internal/ports/scheduling.go:343-351 | a namespace receipt is valid exactly with a named namespace and all four cleanup steps |
| `TerminalBinding.ReceiptsAreAttested` | internal/ports/workspace.go:548-598 | in every interleaving the receipt of a release validates, identifier included, and shows a completion that was checked before |
| `TerminalBinding.ReleaseBinding.Bind` | internal/ports/workspace.go:536-547 | succeeds exactly for a valid workspace and operation while open and unbound, and then records both |
| `TerminalBinding.ReleaseBinding.Release` | internal/ports/workspace.go:552-565 | the locked part of a release: unavailable, consumed, failed, or released with the identified receipt of the completion |
| `TerminalBinding.DrainBinding.Bind` | internal/ports/workspace.go:396-407 | the same for a qualification workspace |
| `TerminalBinding.DrainBinding.Drain` | internal/ports/workspace.go:408-426 | the locked part of a drain: unavailable, failed, drained, or the kept receipt again |
| `TerminalBinding.RunKeeps` | internal/ports/workspace.go:368-427 | the protocol invariant holds after every interleaving |
| `TerminalBinding.BindsOnceWhileOpen` | internal/ports/workspace.go:536-547 | in every interleaving a bind succeeds at most once, and before the callback is closed |
| `TerminalBinding.ActionsDecide` | internal/ports/workspace.go:508-547 | in every interleaving the first valid offer before the closing is bound and nothing else; the lease is returned exactly when the callback returned a lease on that workspace, and every other decision fails the acquisition |
| `TerminalBinding.OnlyMatchingLeaseHasEffect` | internal/ports/workspace.go:516-531 | a callback that fails, returns no lease or one on another workspace leaves a capability without effect |
| `TerminalBinding.CheckDecides` | internal/ports/workspace.go:548-551 | which calls of a release get past the check before the lock |
| `TerminalBinding.CallDecides` | internal/ports/workspace.go:552-565 | the cleanup runs exactly when the lease is out and none has succeeded; who gets a receipt |
| `TerminalBinding.ClosingReadsAreFinal` | internal/ports/workspace.go:516-531 | what the acquirer read when it closed the binding never changes afterwards |
| `TerminalBinding.EffectsFollowAcquisition` | internal/ports/workspace.go:508-566 | no cleanup runs and no receipt exists before the lease was returned; lease and receipts name the one bound workspace |
| `TerminalBinding.FailedAcquisitionHasNoEffect` | internal/ports/workspace.go:521-527 | after a failed acquisition the bound operation never does anything |
| `TerminalBinding.CleansUpOnce` | internal/ports/workspace.go:552-565 | the cleanup succeeds at most once and never runs again after it did |
| `TerminalBinding.DrainsAgree` | internal/ports/workspace.go:408-426 | all drains that succeed return the same receipt |
| `TerminalBinding.CleanupIsAvailable` | internal/ports/workspace.go:548-565 | once the lease is out, a checked call whose cleanup works gets the receipt, and a failed one may be repeated |
| `TerminalBinding.DrainSucceeds` | internal/ports/workspace.go:368-427 | the intended run ends with the receipt, twice |
| `Publication.ClassifierIsTotal` | internal/domain/publication.go:382-450 | the classifier decides exactly the valid inputs, always with a decision that validates |
| `Publication.DecisionsCarryFacts` | internal/domain/publication.go:382-450 | the stored exit of a committed publication and the reasons of an ambiguous one come through unchanged; which inputs are corrupt, with which exit and reasons; nothing else carries an exit |
| `Publication.EveryDecisionIsReachable` | internal/domain/publication.go:337-378 | decision validation admits nothing the classifier cannot produce |
| `Publication.JournalIsOnlyAHint` | internal/domain/publication.go:380-450 | the journal changes no authority, and no decision where a durable fact was found |
| `Publication.ValidateReasonCodes` | internal/domain/publication.go:561-576 | accepts exactly non-empty lists of distinct well-formed reason codes |
| `Publication.ValidateReasonCode` | internal/domain/publication.go:578-598 | accepts exactly 1 to 64 bytes of the reason grammar |
| `Publication.ReasonsAreTokens` | internal/domain/publication.go:578-598 | the alphabet of reason codes |
| `Publication.ReduceOperationalExit` | internal/domain/publication.go:532-543 | the result was observed and no observed exit precedes it |
| `Publication.DominatingExitIsUnique` | internal/domain/publication.go:530-543 | the reduced exit depends only on which exits were observed |
| `Publication.PrecedenceOfCodes` | internal/domain/publication.go:166-187 | the precedence is 10, 8, 7, 9, 2, 4, 1, 0 |
| `PublicationRecords.ScopeRoundTrip` | internal/ports/publication.go:3162-3227 | splitting a final path finds a run's scope exactly when joining that scope gives the path |
| `PublicationRecords.CanonicalPathsAgree` | internal/ports/publication.go:3172-3241 | the staged and mutable paths found from the final are those found from its run, and they are valid |
| `PublicationRecords.StagedIsNotFinal` | internal/ports/publication.go:3172-3180 | a staged final never stands at its final path |
| `PublicationRecords.RunPathTexts` | internal/ports/publication.go:3162-3241 | the paths of a final, its staged copy, the status and the journal, as they are spelled |
| `PublicationRecords.CompositePathTexts` | internal/ports/publication.go:3243-3267 | the paths of manifest, lineage edge and epoch record, as they are spelled |
| `PublicationRecords.RootsAreAbsolute` | internal/ports/foundation.go:787-804 | roots are the file system's own or absolute paths in cleaned form |
| `PublicationRecords.ValidateSourceIDs` | internal/ports/foundation.go:921-937 | the loop accepts exactly non-empty lists of safe tokens of which none occurs twice |
| `PublicationRecords.PreparedIsByteBound` | internal/ports/publication.go:2615-2651 | in a valid preparation each member stands at its own staging path, with the digest of the composite's bytes and a receipt for exactly its bytes |
| `PublicationRecords.RequireDistinctPublicationPaths` | internal/ports/publication.go:3406-3418 | accepts exactly valid pairwise different paths |
| `PublicationRecords.ValidCompositePrepares` | internal/ports/publication.go:2484-2530 | every valid composite has valid, distinct staging paths |
| `PublicationRecords.CompositePathsAreDistinct` | internal/ports/publication.go:3243-3267 | final, manifest, lineage edge and epoch record of a valid composite never share a path |
| `PublicationRecovery.EvidenceFitsAction` | internal/ports/publication.go:1552-1647 | a staged path, candidate and composite, or a snapshot is carried exactly for the actions that need it, and nothing at all exactly for resuming and for corruption |
| `PublicationRecovery.MaterialShows` | internal/ports/publication.go:1348-1418 | everything in recovery material belongs to one session, run and final, at the spelled paths, and is byte-bound |
| `PublicationRecovery.AdoptionShows` | internal/ports/publication.go:1897-1917 | which staged bytes may be adopted: at the final's staging path, for the issued review, within the cap |
| `PublicationRecovery.StagingShows` | internal/ports/publication.go:1809-1845 | which candidates may be staged, and where |
| `PublicationRecovery.InstallationShows` | internal/ports/publication.go:2031-2055 | what may be installed: a durable copy of this run, at the staging path, under the digest that the final names |
| `PublicationRecovery.ReplacementShows` | internal/ports/publication.go:2258-2285 | a document is replaced only at its own path, by bytes under their digest, over nothing or a known digest |
| `PublicationRecovery.PreparedFixesRun` | internal/ports/publication.go:1348-1418 | the run of the carried composite is the one the final's path names |
| `PublicationRecovery.PreparedMatchesComposite` | internal/app/publication/service.go:1965-1975 | the loop accepts exactly valid preparations whose receipts are in the composite's root |
| `PublicationRecovery.GateAsksFourThings` | internal/app/publication/service.go:2008-2074 | of a valid observation the recovery gate lets through exactly those that are durably prepared, with receipts in the composite's root, for the run being recovered, and with a journal that binds composite, epoch and candidate |
| `PublicationRecovery.GateIssues` | internal/app/publication/service.go:1796-1817 | past the gate a review ID is issued exactly when the manifest names the journal's candidate |
| `PublicationRecovery.InstallIsExecutable` | internal/app/publication/service.go:848-914 | past the gate the adopt request is valid for the run, and so is the install request for every adoption result that the service accepts |
| `PublicationRecovery.RestageIsExecutable` | internal/app/publication/service.go:822-847 | past the gate nothing is staged, the stage request for the canonical path is valid, and the journal can be moved on |
| `PublicationRecovery.CommitIsExecutable` | internal/app/publication/service.go:935-957 | past the gate the composite is valid and durably prepared, for the final it was prepared for, with nothing left staged, and the journal can be moved on |
| `PublicationRecovery.ReconstructionIsExecutable` | internal/ports/publication.go:1620-1640 | the carried snapshot is of the observed epoch and final, and the observed status can be replaced |
| `PublicationRecovery.CorruptionIsCaptured` | internal/ports/publication.go:2836-2937 | a snapshot is taken of exactly the corrupt observations and matches exactly the observations with the same epoch and facts |
| `Composition.FingerprintInput` | internal/domain/composition.go:74-105 | accepts exactly a root with one to seven complete sources of different roles, and returns the preimage of their role order |
| `Composition.AcceptedMeans` | internal/domain/composition.go:74-100 | which compositions are accepted |
| `Composition.FieldDelimits` | internal/domain/composition.go:127-131 | a length-prefixed field ends where it ends whatever follows |
| `Composition.FingerprintBinds` | internal/domain/composition.go:74-105 | equal preimages exactly for equal root, recovery digest and role-to-(run, attempt) mapping, whatever the order of the sources and their review IDs |
| `Composition.PreimageBinds` | internal/domain/composition.go:81-103 | the two versions never meet, and ordered sources are bound field by field |
| `Composition.PreimageBegins` | internal/domain/composition.go:81-90 | the version, the root and the recovery manifest at the head of the preimage |
| `Composition.PreimageGrows` | internal/domain/composition.go:91-103 | every source adds role, run and attempt, in this order |
| `Composition.IdentityBytes` | internal/domain/composition.go:112-122 | decoding sixteen bytes and overwriting two in place forces exactly the version and variant bits |
| `Composition.RunID` | internal/domain/composition.go:112-125 | the printed bytes are the identity whose validity and stability are proved |
| `Composition.RunIDsAreStable` | internal/domain/composition.go:112-125 | which digests name a run, that the name is valid, and that two digests name the same run exactly when they agree outside the forced bits |
| `Composition.RunIDLayout` | internal/domain/composition.go:112-125 | which digits of the digest stand where in the run identity |
| `Findings.OrderAndAssignFindings` | internal/domain/finding.go:170-225 | succeeds exactly for valid findings; the output is a sorted permutation of the contents numbered from F001 |
| `Findings.BeforeIsLexicographic` | internal/domain/finding.go:178-220 | the nested comparisons are the lexicographic order of fourteen keys |
| `Findings.TiesAreIdentical` | internal/domain/finding.go:178-220 | findings the comparator ties differ at most in their identifier |
| `Findings.OutputIsDetermined` | internal/domain/finding.go:170-225 | inputs with the same contents have one output although the sort is unstable |
| `Findings.MostSevereFirst` | internal/domain/finding.go:180-191 | what the order means for severity, path, line and role |
| `Findings.LaterKeysInOrder` | internal/domain/finding.go:190-220 | the order of the ten keys after severity, path, line and role |
| `Findings.IdentifiersAreDistinct` | internal/domain/finding.go:221-224 | no two findings share an identifier |
| `Findings.OrderingIsIdempotent` | internal/domain/finding.go:170-225 | ordering again changes nothing |
| `Findings.ValidityIgnoresIdentifier` | internal/domain/finding.go:126-157 | ordered findings are valid again, so they can be ordered again |
| `Findings.EveryFieldIsChecked` | internal/domain/finding.go:126-157 | no field of a valid finding can be replaced by one that its rules refuse |
| `Findings.WriteFingerprintInput` | internal/domain/finding.go:245-255 | the loops write each text after its eight length bytes, highest first |
| `Findings.FingerprintInputBinds` | internal/domain/finding.go:245-255 | equal preimages exactly for equal rule, path and region texts |
| `Decimal.DecimalIdentifier` | internal/ports/publication.go:1019-1031 | the loop accepts exactly the identifier grammar |
| `Decimal.IdentifiersArePaddedPositives` | internal/ports/publication.go:1019-1031 | the accepted identifiers are exactly what zero-padded printing gives for positive integers |
| `Decimal.PadInjective` | internal/ports/runtime_diagnostics.go:881-886 | one integer each |
| `Paths.ValidPathsAreClean` | internal/ports/foundation.go:806-831 | the component rules accept exactly the relative paths that are their own cleaned form and do not leave through dotdot |
| `RunSupport.DirectoriesArePrinted` | internal/ports/publication.go:1013-1017 | the invocation directory grammar accepts exactly the printed ordinals and purposes |
| `RunSupport.DirectoryBinds` | internal/ports/runtime_diagnostics.go:885-885 | a printed directory names one ordinal and one purpose |
| `RunSupport.EpochNamesAreOrdered` | internal/ports/publication.go:3262-3265 | for every uint64, epoch record names sort bytewise as the epochs do and are distinct |
| `Checksums.Generate` | internal/builtin/generate.go:38-66 | prints one line per file but the inventory itself, in source order |
| `Checksums.ParseChecksums` | internal/builtin/catalog.go:198-226 | the parsing loop computes the parsed inventory |
| `Checksums.InventoryRoundTrip` | internal/builtin/catalog.go:198-226 | a printed inventory of canonical sorted sources reads back as exactly its digests if and only if no source contains a line break |
| `Checksums.InventoryText` | internal/builtin/generate.go:54-64 | digest, two spaces, source, line break |
| `Checksums.ParsedIsPrinted` | internal/builtin/catalog.go:198-226 | whatever parses is, character for character, the printed inventory of canonical ascending sources, and parses to their digests |
| `Checksums.SourcesAreClean` | internal/builtin/catalog.go:388-401 | the source rules accept exactly the relative paths that are their own cleaned form |
| `Checksums.LineBreakLosesInventory` | internal/builtin/catalog.go:198-226 | the accepted source `a`, line break, `b` is one whose inventory does not read back |
| `Checksums.ValidateChecksums` | internal/builtin/catalog.go:228-251 | count, digest and presence checks accept exactly the files whose sources and digests are those of the inventory |
| `Checksums.GeneratedInventoryIsExact` | internal/builtin/generate.go:38-66 | the inventory generated from newline-free sources accepts exactly the same sources with the same digests |
| `LiveReview.ShowCommandSplits` | internal/ports/live_review.go:99-105 | the shell splits the command into git, --no-pager, show and exactly the operand, if and only if it has no NUL |
| `LiveReview.LiveSourceReadPlan` | internal/ports/live_review.go:69-109 | the nested loops list one read per admitted path, before side first |
| `LiveReview.PlanShows` | internal/ports/live_review.go:75-109 | which blobs each kind of target shows on which side, and that a workspace is read without commands |
| `LiveReview.PlannedCommandsSplit` | internal/ports/live_review.go:85-106 | every planned command shows exactly the blob of its path on its side |
| `LiveReview.RangesParseUniquely` | internal/ports/live_source.go:52-63 | a value is a range exactly when it can be written as separated operands, and then in one way |
| `ProviderBranches.ExtendBranches` | internal/builtin/generate_portfolio_contracts.go:902-915 | the nested mask loops produce one branch per subset |
| `ProviderBranches.OneBranchPerSubsequence` | internal/builtin/generate_portfolio_contracts.go:889-918 | for distinct families an array matches exactly one branch when it lists families in order, and none otherwise |
| `ProviderBranches.SelectedBinds` | internal/builtin/generate_portfolio_contracts.go:903-909 | different masks select different families |
| `StrictJson.DecodeStrictJSONObject` | internal/app/command_result.go:484-507 | the decoder over a consumed token stream computes the parse |
| `StrictJson.DecodeValue` | internal/app/command_result.go:509-572 | one value is taken off the stream, or the decode fails |
| `StrictJson.DecodesExactlyObjects` | internal/app/command_result.go:484-572 | a stream decodes exactly when it ends cleanly and flattens one object without duplicate names at any depth, and then to that object |
| `StrictJson.FlattenThenDecode` | internal/app/command_result.go:484-572 | flattening and decoding is the identity |
| `StrictJson.SpellingOfDocuments` | internal/app/command_result.go:509-572 | how objects and arrays are spelled and which values they are |
| `RunListing.ListRuns` | internal/composition/mcp_backend.go:186-248 | an absent root is an empty page; otherwise the loop computes the page, or fails when enumeration failed or a cancellation was seen |
| `RunListing.InterruptedMeans` | internal/composition/mcp_backend.go:207-232 | a cancellation fails the listing exactly when it is seen at a candidate that the page goes through |
| `RunListing.FollowingCursorsListsAll` | internal/composition/mcp_backend.go:200-247 | following the cursors ends, lists every listable run once, newest first, and listed and omitted add up to the candidates and to the diagnostics once per page |
| `RunListing.CursorsOrderBySession` | internal/composition/mcp_backend.go:211-214 | cursors sort by session, then by run |
| `RunListing.ScanCovers` | internal/composition/mcp_backend.go:203-246 | what one page covers, and which cursor it returns |
| `RunListing.PageIsBounded` | internal/composition/mcp_backend.go:240-245 | no page exceeds a positive limit |
| `RunListing.SolelyWraps` | internal/composition/mcp_backend.go:303-329 | true exactly when every way down a non-nil error tree ends at the target |
| `DiagnosticSink.Sink.AppendEvent` | internal/ports/runtime_diagnostics.go:710-733 | one stamped, numbered event, or nothing |
| `DiagnosticSink.Sink.EmitEvent` | internal/ports/runtime_diagnostics.go:698-708 | an open sink appends unless the call is cancelled |
| `DiagnosticSink.Sink.PersistRaw` | internal/ports/runtime_diagnostics.go:735-763 | a stream is read up to one byte past its cap and stored under its path while the sink is open; a broken or too long one is aborted, the latter with drop metadata |
| `DiagnosticSink.Sink.Replace` | internal/ports/runtime_diagnostics.go:764-796 | a status of the run is accepted while the sink is open, and keeps nothing |
| `DiagnosticSink.Sink.Close` | internal/ports/runtime_diagnostics.go:797-841 | the finalization as it runs, with the location and last number it reports when installed |
| `DiagnosticSink.LogIsNumberedAndMonotone` | internal/ports/runtime_diagnostics.go:710-733 | event i is numbered i + 1 and elapsed times never decrease, whatever the clock reads |
| `DiagnosticSink.ElapsedFollowsClock` | internal/ports/runtime_diagnostics.go:716-731 | every event carries the latest time that it or an earlier one was stamped with |
| `DiagnosticSink.MillisMeaning` | internal/ports/runtime_diagnostics.go:716-721 | times are whole milliseconds since the start, at least zero and at most what a duration holds |
| `DiagnosticSink.FinalizedIsFinal` | internal/ports/runtime_diagnostics.go:698-841 | after a successful finalization the log ends with how the run ended (stopped exactly for failed and cancelled runs), with the state name and cause of the call that closed it, and the closing; no later call succeeds or changes anything |
| `DiagnosticSink.FinalizeSucceeds` | internal/ports/runtime_diagnostics.go:797-841 | with a clock that stamps, a run can be finalized after any calls, exactly once; it appends exactly the two events that say how the run ended and that it was closed, and reports the last number |
| `DiagnosticSink.FinalizeOutcome` | internal/ports/runtime_diagnostics.go:797-841 | under any clock: when a finalization succeeds, changes nothing, or leaves its first event behind |
| `DiagnosticSink.RawPathsBind` | internal/ports/runtime_diagnostics.go:881-886 | raw streams have valid paths in the invocation grammar, shared only by the same stream of the same invocation |
| `DiagnosticSink.InvocationPathText` | internal/ports/runtime_diagnostics.go:885-885 | the raw path of an invocation, as it is spelled |
| `DiagnosticSink.QualificationPathText` | internal/ports/runtime_diagnostics.go:882-884 | the raw path of a qualification, as it is spelled |
| `DiagnosticSink.StreamsKeepApart` | internal/ports/runtime_diagnostics.go:735-763 | after any calls the path of a stream holds what was last stored for that very stream |
| `DiagnosticSink.StoredWhole` | internal/ports/runtime_diagnostics.go:739-752 | a stream within its cap is stored whole if and only if it is empty or the cap is below the largest 64-bit integer; below it too long streams are dropped and broken ones aborted, never cut short |
| `DiagnosticSink.LargestCapStoresNothing` | internal/ports/runtime_diagnostics.go:739-740 | one byte under the largest cap is stored as no bytes |

## Left out

- SHA-256, JSON text and tokenisation, UTF-8, Unicode folding and white space are parameters with stated laws.
- Error texts and defensive copies; Go values are copied on assignment here. Context cancellation is modelled in `RunListing` and `DiagnosticSink` only.
- The manifest's JSON spelling: decoding is assumed to invert encoding on UTF-8 strings only, which is what `TextIsUTF8` asks of a material.
- Archive.RestoredV1: a legacy document is read directly; the dispatcher's test for the bundle magic is not repeated on it, since a decodable JSON document cannot start with the magic.
- Capture exclusions are request policy and are not part of an archived capture.
- Capture.NewGitTarget: an empty Git mode is spelled out in the identity only; the private field keeps the caller's spelling.
- PublicationRecovery.Passes: the readers of journal and manifest JSON and the two semantic comparisons behind them are parameters.
- The binding of a provider namespace, which follows the same protocol as the two workspace bindings.
- The lease's reported workspace identity is read once in the model; an implementation of the lease interface could answer differently each time.
- Runs.NewRun: run types, and the child constructors around it with their lineage identifiers and self-reference checks.
- RunListing.ListRuns: what the root probe finds is a parameter and the four resolution calls are an outcome per candidate; the ascending candidate list is the enumerator's promise and a precondition of the paging theorem only.
- ProviderBranches.ExtendBranches: the search for the schema node and the bound of `1<<n` in a machine word; numbers are unbounded here.
- LiveReview.ShowCommandSplits: the shell is the lexical part of the standard; commands that would need expansion are refused rather than expanded.
- DiagnosticSink.Sink.AppendEvent: sequence numbers are unbounded; draft validation is a field of the draft.
- Catalog building and its aliases beyond the checksum inventory.
- Checksums.Generate: reading the files, the role document check and the atomic write.
- Findings.OrderAndAssignFindings: severity is a datatype, the other closed sets are predicates; construction by `NewFinding` is not modelled.
- The rest of the run-support path classifier, whose kinds are a table of literal names.
- Publication stores, services and adapters; the corruption diagnostic payload and its JSON.
- Filesystem, Git, process, provider and CLI wiring, the MCP transport, and `internal/ports/provider_execution.go`.
- Enumeration validity tables, getters, message maps and token validators.
