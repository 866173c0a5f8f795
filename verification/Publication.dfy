/** The durable publication classifier: which level of durable facts authorizes which recovery. */
module Publication {
  import opened Prelude

  datatype JournalState =
    | Collecting | ContentValidated | FinalStaged | FinalFileInstalled | ManifestCommitted | JournalCompleted

  datatype ObservationClass = P2Committed | P1Installed | P0Staged | P0None | AmbiguousOrMismatch

  datatype Status = NotPublished | Staged | Installed | Committed | Corrupt

  datatype Authority = NoAuthority | P0 | P1 | P2

  datatype RecoveryAction =
    | NoAction | ResumeCollection | RestageValidatedCandidate | InstallStagedFinal | CommitCompositeEpoch
    | ReconstructCompletedStatus | EmitCorruptionDiagnostic

  datatype ExitCode =
    | CommittedPass | CommittedCIRejected | Configuration | IncompleteCoverage | ArtifactFailure | SecurityViolation
    | Cancelled | InternalError
  {
    function Code(): nat {
      match this
      case CommittedPass => 0 case CommittedCIRejected => 1 case Configuration => 2 case IncompleteCoverage => 4
      case ArtifactFailure => 7 case SecurityViolation => 8 case Cancelled => 9 case InternalError => 10
    }

    function Priority(): nat {
      match this
      case InternalError => 8 case SecurityViolation => 7 case ArtifactFailure => 6 case Cancelled => 5
      case Configuration => 4 case IncompleteCoverage => 3 case CommittedCIRejected => 2 case CommittedPass => 1
    }
  }

  // ---------------------------------------------------------------- reason codes

  predicate ReasonCharacter(c: char) { 'a' <= c <= 'z' || '0' <= c <= '9' || c == '_' }

  predicate ValidReason(reason: string) {
    0 < |reason| <= 64 && 'a' <= reason[0] <= 'z' && forall i :: 1 <= i < |reason| ==> ReasonCharacter(reason[i])
  }

  predicate ValidReasons(reasons: seq<string>) {
    && reasons != []
    && (forall i :: 0 <= i < |reasons| ==> ValidReason(reasons[i]))
    && (forall i, j :: 0 <= i < j < |reasons| ==> reasons[i] != reasons[j])
  }

  method ValidateReasonCodes(reasons: seq<string>) returns (ok: bool)
    ensures ok <==> ValidReasons(reasons)
  {
    if |reasons| == 0 { return false; }
    var seen: set<string> := {};
    for n := 0 to |reasons|
      invariant forall i :: 0 <= i < n ==> ValidReason(reasons[i]) && reasons[i] in seen
      invariant forall reason :: reason in seen ==> exists i :: 0 <= i < n && reasons[i] == reason
      invariant forall i, j :: 0 <= i < j < n ==> reasons[i] != reasons[j]
    {
      var valid := ValidateReasonCode(reasons[n]);
      if !valid || reasons[n] in seen { return false; }
      seen := seen + {reasons[n]};
    }
    ok := true;
  }

  method ValidateReasonCode(reason: string) returns (ok: bool)
    ensures ok <==> ValidReason(reason)
  {
    if |reason| == 0 || |reason| > 64 { return false; }
    for index := 0 to |reason|
      invariant index > 0 ==> 'a' <= reason[0] <= 'z'
      invariant forall i :: 1 <= i < index ==> ReasonCharacter(reason[i])
    {
      if index == 0 {
        if reason[0] < 'a' || reason[0] > 'z' { return false; }
      } else if !ReasonCharacter(reason[index]) {
        return false;
      }
    }
    ok := true;
  }

  /** Reason codes are spelled with lower-case letters, digits and underscores, a letter first. */
  lemma ReasonsAreTokens(reason: string)
    ensures ValidReason(reason) <==>
              && 1 <= |reason| <= 64 && reason[0] in "abcdefghijklmnopqrstuvwxyz"
              && forall i :: 0 <= i < |reason| ==> reason[i] in "abcdefghijklmnopqrstuvwxyz0123456789_"
  {
    forall c: char
      ensures ReasonCharacter(c) <==> c in "abcdefghijklmnopqrstuvwxyz0123456789_"
      ensures 'a' <= c <= 'z' <==> c in "abcdefghijklmnopqrstuvwxyz"
    {
      ReasonAlphabet(c);
    }
    TokensOver(reason, "abcdefghijklmnopqrstuvwxyz", "abcdefghijklmnopqrstuvwxyz0123456789_");
  }

  lemma TokensOver(reason: string, letters: string, tokens: string)
    requires forall c: char :: (ReasonCharacter(c) <==> c in tokens) && ('a' <= c <= 'z' <==> c in letters)
    ensures ValidReason(reason) <==>
              1 <= |reason| <= 64 && reason[0] in letters && forall i :: 0 <= i < |reason| ==> reason[i] in tokens
  {
  }

  lemma ReasonAlphabet(c: char)
    ensures ReasonCharacter(c) <==> c in "abcdefghijklmnopqrstuvwxyz0123456789_"
    ensures 'a' <= c <= 'z' <==> c in "abcdefghijklmnopqrstuvwxyz"
  {
  }

  const MISSING_EFFECT := "missing_required_durable_effect"

  lemma MissingEffectIsValid()
    ensures ValidReasons([MISSING_EFFECT])
  {
  }

  // ---------------------------------------------------------------- the classifier

  predicate StoredNormalExit(code: ExitCode) { code in {CommittedPass, CommittedCIRejected, IncompleteCoverage} }

  datatype Input = Input(
    journal: JournalState, observation: ObservationClass, storedExit: Option<ExitCode>, ambiguity: seq<string>)
  {
    predicate Valid() {
      && (if observation.P2Committed? then storedExit.Some? && StoredNormalExit(storedExit.value) else storedExit.None?)
      && (if observation.AmbiguousOrMismatch? then ValidReasons(ambiguity) else ambiguity == [])
    }
  }

  predicate Compatible(status: Status, action: RecoveryAction) {
    match status
    case NotPublished => action == ResumeCollection || action == RestageValidatedCandidate
    case Staged => action == InstallStagedFinal
    case Installed => action == CommitCompositeEpoch
    case Committed => action == ReconstructCompletedStatus
    case Corrupt => action == EmitCorruptionDiagnostic
  }

  datatype Decision = Decision(
    status: Status, authority: Authority, action: RecoveryAction, exit: Option<ExitCode>, reasons: seq<string>)
  {
    predicate Valid() {
      && Compatible(status, action)
      && match status
         case Committed => authority == P2 && exit.Some? && StoredNormalExit(exit.value) && reasons == []
         case Installed => authority == P1 && exit.None? && reasons == []
         case Staged => authority == P0 && exit.None? && reasons == []
         case NotPublished => authority == NoAuthority && exit.None? && reasons == []
         case Corrupt => authority == NoAuthority && exit == Some(ArtifactFailure) && ValidReasons(reasons)
    }
  }

  function NewDecision(decision: Decision): Result<Decision> {
    if decision.Valid() then Ok(decision) else Err
  }

  /** ClassifyPublication: the durable class decides; the journal only hints at what to do when
      there are no durable facts. */
  function Classify(input: Input): Result<Decision> {
    if !input.Valid() then Err
    else
      match input.observation
      case AmbiguousOrMismatch =>
        NewDecision(Decision(Corrupt, NoAuthority, EmitCorruptionDiagnostic, Some(ArtifactFailure), input.ambiguity))
      case P2Committed => NewDecision(Decision(Committed, P2, ReconstructCompletedStatus, input.storedExit, []))
      case P1Installed => NewDecision(Decision(Installed, P1, CommitCompositeEpoch, None, []))
      case P0Staged => NewDecision(Decision(Staged, P0, InstallStagedFinal, None, []))
      case P0None =>
        match input.journal
        case Collecting => NewDecision(Decision(NotPublished, NoAuthority, ResumeCollection, None, []))
        case ContentValidated => NewDecision(Decision(NotPublished, NoAuthority, RestageValidatedCandidate, None, []))
        case FinalStaged => NewDecision(Decision(NotPublished, NoAuthority, RestageValidatedCandidate, None, []))
        case _ =>
          NewDecision(Decision(Corrupt, NoAuthority, EmitCorruptionDiagnostic, Some(ArtifactFailure), [MISSING_EFFECT]))
  }

  /** The classifier is total: it decides every valid input, and only with valid decisions. */
  lemma ClassifierIsTotal(input: Input)
    ensures Classify(input).Ok? <==> input.Valid()
    ensures Classify(input).Ok? ==> Classify(input).value.Valid()
  {
    MissingEffectIsValid();
  }

  /** What the caller learns from the decision: the stored exit of a committed publication and the
      reasons of an ambiguous one come through unchanged, a journal that runs ahead of the durable
      facts is one corruption with one reason, and nothing else ends the process. */
  lemma DecisionsCarryFacts(input: Input)
    requires input.Valid()
    ensures Classify(input).Ok?
    ensures var decision := Classify(input).value;
            var corrupt := input.observation.AmbiguousOrMismatch?
                           || (input.observation.P0None? && input.journal !in {Collecting, ContentValidated, FinalStaged});
            && (input.observation.P2Committed? ==> decision.exit == input.storedExit && decision.authority == P2)
            && (input.observation.P1Installed? <==> decision.authority == P1)
            && (input.observation.P0Staged? <==> decision.authority == P0)
            && (decision.status.Corrupt? <==> corrupt)
            && (corrupt ==> decision.exit.Some? && decision.exit.value.Code() == 7)
            && (decision.exit.Some? <==> corrupt || input.observation.P2Committed?)
            && decision.reasons == (if input.observation.AmbiguousOrMismatch? then input.ambiguity
                                    else if corrupt then ["missing_required_durable_effect"] else [])
  {
    MissingEffectIsValid();
  }

  /** An input that validates carries its facts exactly where its class needs them. */
  lemma ValidInputsCarryFacts(input: Input)
    ensures input.Valid() <==>
              && (input.storedExit.Some? <==> input.observation.P2Committed?)
              && (input.storedExit.Some? ==> input.storedExit.value.Code() in {0, 1, 4})
              && (input.ambiguity != [] <==> input.observation.AmbiguousOrMismatch?)
              && (input.ambiguity != [] ==> ValidReasons(input.ambiguity))
  {
  }

  /** Decision validation admits nothing the classifier cannot produce. */
  lemma EveryDecisionIsReachable(decision: Decision) returns (input: Input)
    requires decision.Valid()
    ensures input.Valid() && Classify(input) == Ok(decision)
  {
    match decision.status
    case Committed => input := Input(JournalCompleted, P2Committed, decision.exit, []);
    case Installed => input := Input(FinalFileInstalled, P1Installed, None, []);
    case Staged => input := Input(FinalStaged, P0Staged, None, []);
    case NotPublished =>
      input := Input(if decision.action == ResumeCollection then Collecting else ContentValidated, P0None, None, []);
    case Corrupt => input := Input(Collecting, AmbiguousOrMismatch, None, decision.reasons);
  }

  /** The journal is never authority: it changes no authority at all, and it changes the decision
      only when no durable fact was found. */
  lemma JournalIsOnlyAHint(a: Input, b: Input)
    requires a.Valid() && b.Valid() && b == a.(journal := b.journal)
    ensures Classify(a).Ok? && Classify(b).Ok? && Classify(a).value.authority == Classify(b).value.authority
    ensures !a.observation.P0None? ==> Classify(a) == Classify(b)
  {
    MissingEffectIsValid();
  }

  // ---------------------------------------------------------------- the exit reducer

  datatype ExitReason = ExitReason(code: ExitCode, reason: string)

  ghost predicate Observed(code: ExitCode, reasons: seq<ExitReason>) {
    exists i :: 0 <= i < |reasons| && reasons[i].code == code
  }

  ghost predicate Dominates(code: ExitCode, reasons: seq<ExitReason>) {
    && Observed(code, reasons)
    && (forall i :: 0 <= i < |reasons| ==> reasons[i].code.Priority() <= code.Priority())
  }

  ghost predicate ReducibleReasons(reasons: seq<ExitReason>) {
    reasons != [] && forall i :: 0 <= i < |reasons| ==> ValidReason(reasons[i].reason)
  }

  /** ReduceOperationalExit: the observed exit of highest precedence, 10 > 8 > 7 > 9 > 2 > 4 > 1 > 0. */
  method ReduceOperationalExit(reasons: seq<ExitReason>) returns (result: Result<ExitCode>)
    ensures result.Ok? <==> ReducibleReasons(reasons)
    ensures result.Ok? ==> Dominates(result.value, reasons)
  {
    if |reasons| == 0 { return Err; }
    for n := 0 to |reasons|
      invariant forall i :: 0 <= i < n ==> ValidReason(reasons[i].reason)
    {
      var valid := ValidateReasonCode(reasons[n].reason);
      if !valid { return Err; }
    }
    var selected := reasons[0].code;
    for n := 1 to |reasons|
      invariant exists i :: 0 <= i < n && reasons[i].code == selected
      invariant forall i :: 0 <= i < n ==> reasons[i].code.Priority() <= selected.Priority()
    {
      if reasons[n].code.Priority() > selected.Priority() { selected := reasons[n].code; }
    }
    result := Ok(selected);
  }

  /** The precedence of the exit codes as the process returns them. */
  lemma PrecedenceOfCodes(a: ExitCode, b: ExitCode)
    ensures var order := [10, 8, 7, 9, 2, 4, 1, 0];
            a.Priority() > b.Priority() <==>
              exists i, j :: 0 <= i < j < |order| && order[i] == a.Code() && order[j] == b.Code()
  {
    var order := [10, 8, 7, 9, 2, 4, 1, 0];
    assert order[8 - a.Priority()] == a.Code() && order[8 - b.Priority()] == b.Code();
    assert forall i, j :: 0 <= i < j < |order| ==> order[i] != order[j];
  }

  lemma PriorityInjective(a: ExitCode, b: ExitCode)
    requires a.Priority() == b.Priority()
    ensures a == b
  {
  }

  /** The dominating exit is unique and does not depend on the order or number of the reasons. */
  lemma DominatingExitIsUnique(a: seq<ExitReason>, b: seq<ExitReason>, x: ExitCode, y: ExitCode)
    requires forall code :: Observed(code, a) <==> Observed(code, b)
    requires Dominates(x, a) && Dominates(y, b)
    ensures x == y
  {
    assert Observed(x, b) && Observed(y, a);
    PriorityInjective(x, y);
  }
}
