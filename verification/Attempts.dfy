/** One provider attempt: an initial invocation and at most one retry, repair or extraction. */
module Attempts {
  import opened Prelude
  import opened Paths

  datatype Purpose = Initial | Retry | Repair | Extract {
    predicate CarriesRoleReport() { !Extract? }
  }

  datatype InvocationState = Queued | Running | Succeeded | Failed | TimedOut | Cancelled | Blocked {
    predicate CanTransition(next: InvocationState) {
      match this
      case Queued => next in {Running, Cancelled, Blocked}
      case Running => next in {Succeeded, Failed, TimedOut, Cancelled, Blocked}
      case _ => false
    }

    predicate Terminal() { this != Queued && this != Running }
  }

  datatype AttemptState =
    | AttemptQueued | AttemptRunning | AttemptValidating | AttemptRepairing
    | AttemptSucceeded | AttemptFailed | AttemptTimedOut | AttemptCancelled | AttemptBlocked
  {
    predicate CanTransition(next: AttemptState) {
      match this
      case AttemptQueued => next in {AttemptRunning, AttemptCancelled, AttemptBlocked}
      case AttemptRunning => next in {AttemptValidating, AttemptFailed, AttemptTimedOut, AttemptCancelled, AttemptBlocked}
      case AttemptValidating => next in {AttemptRepairing, AttemptSucceeded, AttemptFailed, AttemptCancelled, AttemptBlocked}
      case AttemptRepairing => next in {AttemptValidating, AttemptFailed, AttemptTimedOut, AttemptCancelled, AttemptBlocked}
      case _ => false
    }

    predicate Terminal() {
      this !in {AttemptQueued, AttemptRunning, AttemptValidating, AttemptRepairing}
    }
  }

  datatype Invocation = Invocation(sequence: nat, purpose: Purpose, state: InvocationState, artifactsExpected: bool) {
    /** The invocation stands at `sequence` with this purpose and state. */
    predicate Is(sequence: nat, purpose: Purpose, state: InvocationState) {
      this.sequence == sequence && this.purpose == purpose && this.state == state
    }
  }

  datatype Data = Data(state: AttemptState, invocations: seq<Invocation>) {
    function Latest(): Invocation
      requires invocations != []
    {
      invocations[|invocations| - 1]
    }
  }

  // ---------------------------------------------------------------- one operation

  datatype Op =
    | Transition(next: AttemptState)
    | AppendRetry(invocation: Invocation)
    | AppendExtract(invocation: Invocation)
    | AppendRepair(invocation: Invocation)
    | TransitionInvocation(sequence: nat, to: InvocationState)
    | MarkArtifactsExpected(sequence: nat)

  function LatestReport(invocations: seq<Invocation>): Option<Invocation> {
    if invocations == [] then None
    else if invocations[|invocations| - 1].purpose.CarriesRoleReport() then Some(invocations[|invocations| - 1])
    else LatestReport(invocations[..|invocations| - 1])
  }

  /** What entering a state demands of the invocations, beyond the transition relation. */
  predicate MayEnter(data: Data, next: AttemptState) {
    var invocations := data.invocations;
    match next
    case AttemptValidating =>
      if data.state == AttemptRunning then
        (|invocations| == 1 && invocations[0].Is(1, Initial, Succeeded))
        || (|invocations| == 2 && invocations[0].Is(1, Initial, Failed) && invocations[1].Is(2, Retry, Succeeded))
      else
        |invocations| == 2 && invocations[0].Is(1, Initial, Succeeded) && invocations[1].Is(2, Repair, Succeeded)
    case AttemptSucceeded =>
      var report := LatestReport(invocations);
      && report.Some? && report.value.state == Succeeded
      && (data.Latest().purpose == Extract ==> data.Latest().state.Terminal())
    case AttemptRepairing => |invocations| == 1 && invocations[0].Is(1, Initial, Succeeded)
    case _ => true
  }

  predicate MayAppend(data: Data, state: AttemptState, first: InvocationState, invocation: Invocation, purpose: Purpose) {
    && data.state == state && |data.invocations| == 1 && data.invocations[0].Is(1, Initial, first)
    && invocation.Is(2, purpose, Queued)
  }

  /** The phases in which the latest invocation is the current one. */
  predicate HasCurrent(data: Data) {
    var invocations := data.invocations;
    match data.state
    case AttemptRunning =>
      (|invocations| == 1 && invocations[0].sequence == 1 && invocations[0].purpose == Initial)
      || (|invocations| == 2 && invocations[0].state == Failed && invocations[1].sequence == 2
          && invocations[1].purpose == Retry)
    case AttemptRepairing =>
      |invocations| == 2 && invocations[0].Is(1, Initial, Succeeded) && invocations[1].sequence == 2
      && invocations[1].purpose == Repair
    case AttemptValidating =>
      |invocations| > 0 && data.Latest().purpose == Extract && data.Latest().sequence == |invocations|
    case _ => false
  }

  function WithLatest(data: Data, invocation: Invocation): Data
    requires data.invocations != []
  {
    data.(invocations := data.invocations[|data.invocations| - 1 := invocation])
  }

  function Appended(data: Data, invocation: Invocation): Data {
    data.(invocations := data.invocations + [invocation])
  }

  function Step(data: Data, op: Op): Result<Data> {
    match op
    case Transition(next) =>
      if data.state.CanTransition(next) && MayEnter(data, next) then Ok(data.(state := next)) else Err
    case AppendRetry(invocation) =>
      if MayAppend(data, AttemptRunning, Failed, invocation, Retry) then Ok(Appended(data, invocation)) else Err
    case AppendExtract(invocation) =>
      if MayAppend(data, AttemptValidating, Succeeded, invocation, Extract) then Ok(Appended(data, invocation)) else Err
    case AppendRepair(invocation) =>
      if MayAppend(data, AttemptRepairing, Succeeded, invocation, Repair) then Ok(Appended(data, invocation)) else Err
    case TransitionInvocation(sequence, to) =>
      if HasCurrent(data) && data.Latest().sequence == sequence && data.Latest().state.CanTransition(to)
      then Ok(WithLatest(data, data.Latest().(state := to))) else Err
    case MarkArtifactsExpected(sequence) =>
      if data.invocations != [] && data.Latest().sequence == sequence && data.Latest().state == Running
         && !data.Latest().artifactsExpected
      then Ok(WithLatest(data, data.Latest().(artifactsExpected := true))) else Err
  }

  // ---------------------------------------------------------------- the mutable aggregate

  class Attempt {
    const id: string
    const providerInstance: string
    var state: AttemptState
    var invocations: seq<Invocation>

    ghost function View(): Data
      reads this
    {
      Data(state, invocations)
    }

    /** A rejected operation leaves the attempt as it was. */
    twostate predicate Did(op: Op, ok: bool)
      reads this
    {
      && (ok <==> Step(old(View()), op).Ok?)
      && View() == if ok then Step(old(View()), op).value else old(View())
    }

    constructor (id: string, providerInstance: string, initial: Invocation)
      ensures View() == Data(AttemptQueued, [initial]) && this.id == id && this.providerInstance == providerInstance
    {
      this.id, this.providerInstance, state, invocations := id, providerInstance, AttemptQueued, [initial];
    }

    method ReportInvocation() returns (report: Option<Invocation>)
      ensures report == LatestReport(invocations)
    {
      var index := |invocations|;
      assert invocations[..index] == invocations;
      while index > 0
        invariant 0 <= index <= |invocations|
        invariant LatestReport(invocations) == LatestReport(invocations[..index])
      {
        assert invocations[..index][..index - 1] == invocations[..index - 1];
        if invocations[index - 1].purpose.CarriesRoleReport() { return Some(invocations[index - 1]); }
        index := index - 1;
      }
      report := None;
    }

    method MoveTo(next: AttemptState) returns (ok: bool)
      requires invocations != []
      modifies this
      ensures Did(Transition(next), ok)
    {
      if !state.CanTransition(next) { return false; }
      var latest := invocations[|invocations| - 1];
      if next == AttemptValidating {
        if state == AttemptRunning {
          if |invocations| == 1 {
            if !latest.Is(1, Initial, Succeeded) { return false; }
          } else if |invocations| == 2 {
            if !invocations[0].Is(1, Initial, Failed) || !latest.Is(2, Retry, Succeeded) { return false; }
          } else {
            return false;
          }
        } else {
          if |invocations| != 2 { return false; }
          if !invocations[0].Is(1, Initial, Succeeded) || !latest.Is(2, Repair, Succeeded) { return false; }
        }
      } else if next == AttemptSucceeded {
        var report := ReportInvocation();
        if report.None? || report.value.state != Succeeded { return false; }
        if latest.purpose == Extract && !latest.state.Terminal() { return false; }
      } else if next == AttemptRepairing {
        if |invocations| != 1 || !invocations[0].Is(1, Initial, Succeeded) { return false; }
      }
      state := next;
      ok := true;
    }

    method AppendRetryInvocation(invocation: Invocation) returns (ok: bool)
      modifies this
      ensures Did(AppendRetry(invocation), ok)
    {
      if state != AttemptRunning || |invocations| != 1 { return false; }
      if !invocations[0].Is(1, Initial, Failed) || !invocation.Is(2, Retry, Queued) { return false; }
      invocations := invocations + [invocation];
      ok := true;
    }

    method AppendExtractInvocation(invocation: Invocation) returns (ok: bool)
      modifies this
      ensures Did(AppendExtract(invocation), ok)
    {
      if state != AttemptValidating || |invocations| != 1 { return false; }
      if !invocations[0].Is(1, Initial, Succeeded) || !invocation.Is(2, Extract, Queued) { return false; }
      invocations := invocations + [invocation];
      ok := true;
    }

    method AppendRepairInvocation(invocation: Invocation) returns (ok: bool)
      modifies this
      ensures Did(AppendRepair(invocation), ok)
    {
      if |invocations| != 1 || state != AttemptRepairing { return false; }
      if !invocations[0].Is(1, Initial, Succeeded) || !invocation.Is(2, Repair, Queued) { return false; }
      invocations := invocations + [invocation];
      ok := true;
    }

    method MoveInvocation(sequence: nat, next: InvocationState) returns (ok: bool)
      modifies this
      ensures Did(TransitionInvocation(sequence, next), ok)
    {
      if |invocations| == 0 { return false; }
      var current := invocations[|invocations| - 1];
      match state {
        case AttemptRunning =>
          if |invocations| > 2 { return false; }
          if |invocations| == 1 && (current.sequence != 1 || current.purpose != Initial) { return false; }
          if |invocations| == 2 && (invocations[0].state != Failed || current.sequence != 2 || current.purpose != Retry) {
            return false;
          }
        case AttemptRepairing =>
          if |invocations| != 2 || !invocations[0].Is(1, Initial, Succeeded) { return false; }
          if current.sequence != 2 || current.purpose != Repair { return false; }
        case AttemptValidating =>
          if current.purpose != Extract || current.sequence != |invocations| { return false; }
        case _ => return false;
      }
      if current.sequence != sequence || !current.state.CanTransition(next) { return false; }
      invocations := invocations[|invocations| - 1 := current.(state := next)];
      ok := true;
    }

    method MarkInvocationRuntimeArtifactsExpected(sequence: nat) returns (ok: bool)
      modifies this
      ensures Did(MarkArtifactsExpected(sequence), ok)
    {
      if |invocations| == 0 { return false; }
      var current := invocations[|invocations| - 1];
      if current.sequence != sequence || current.state != Running || current.artifactsExpected { return false; }
      invocations := invocations[|invocations| - 1 := current.(artifactsExpected := true)];
      ok := true;
    }
  }

  /** NewAttempt.  White-space trimming is a parameter; the provider is kept trimmed. */
  method NewAttempt(trim: string -> string, id: string, provider: string, initial: Invocation)
    returns (attempt: Attempt?)
    ensures attempt != null <==> ValidPrefixedUUIDv7(id, "a_") && trim(provider) != "" && initial.Is(1, Initial, Queued)
    ensures attempt != null ==>
              fresh(attempt) && attempt.id == id && attempt.providerInstance == trim(provider)
              && attempt.View() == Data(AttemptQueued, [initial])
  {
    if !ValidPrefixedUUIDv7(id, "a_") { return null; }
    var providerInstance := trim(provider);
    if providerInstance == "" { return null; }
    if !initial.Is(1, Initial, Queued) { return null; }
    attempt := new Attempt(id, providerInstance, initial);
  }

  // ---------------------------------------------------------------- whole runs

  predicate Fresh(data: Data) {
    data.state == AttemptQueued && |data.invocations| == 1 && data.invocations[0].Is(1, Initial, Queued)
  }

  /** Rejected operations change nothing, so a run goes on after them. */
  function After(data: Data, op: Op): Data {
    if Step(data, op).Ok? then Step(data, op).value else data
  }

  function Run(data: Data, ops: seq<Op>): Data
    decreases |ops|
  {
    if ops == [] then data else Run(After(data, ops[0]), ops[1..])
  }

  function Accepted(data: Data, ops: seq<Op>): nat
    decreases |ops|
  {
    if ops == [] then 0 else (if Step(data, ops[0]).Ok? then 1 else 0) + Accepted(After(data, ops[0]), ops[1..])
  }

  /** The second invocation is a retry of a failure, or a repair or an extraction of a success. */
  predicate Shaped(invocations: seq<Invocation>) {
    && 1 <= |invocations| <= 2
    && (forall i :: 0 <= i < |invocations| ==> invocations[i].sequence == i + 1)
    && invocations[0].purpose == Initial
    && (|invocations| == 2 ==>
          (invocations[1].purpose == Retry && invocations[0].state == Failed)
          || (invocations[1].purpose == Repair && invocations[0].state == Succeeded)
          || (invocations[1].purpose == Extract && invocations[0].state == Succeeded))
  }

  /** The newest invocation that may deliver the role report has succeeded. */
  predicate Reported(invocations: seq<Invocation>) {
    LatestReport(invocations).Some? && LatestReport(invocations).value.state == Succeeded
  }

  predicate Inv(data: Data) {
    var invocations := data.invocations;
    && Shaped(invocations)
    && match data.state
       case AttemptQueued => |invocations| == 1 && invocations[0].state == Queued
       case AttemptRunning => |invocations| == 2 ==> invocations[1].purpose == Retry
       case AttemptValidating => Reported(invocations)
       case AttemptRepairing =>
         if |invocations| == 1 then invocations[0].state == Succeeded else invocations[1].purpose == Repair
       case AttemptSucceeded =>
         Reported(invocations) && (data.Latest().purpose == Extract ==> data.Latest().state.Terminal())
       case _ => true
  }

  lemma StepKeeps(data: Data, op: Op)
    requires Inv(data) && Step(data, op).Ok?
    ensures Inv(Step(data, op).value)
  {
    var invocations := data.invocations;
    if |invocations| == 2 { assert invocations[..1] == [invocations[0]]; }
    var next := Step(data, op).value.invocations;
    if |next| == 2 { assert next[..1] == [next[0]]; }
  }

  /** Once there is a second invocation, the first and the number of invocations are settled. */
  lemma FirstIsFrozen(data: Data, op: Op)
    requires Inv(data) && Step(data, op).Ok?
    ensures var next := Step(data, op).value;
            |data.invocations| <= |next.invocations|
            && (|data.invocations| == 2 ==> |next.invocations| == 2 && next.invocations[0] == data.invocations[0])
  {
  }

  lemma {:induction false} RunKeeps(data: Data, ops: seq<Op>)
    requires Inv(data)
    ensures Inv(Run(data, ops))
    ensures |data.invocations| == 2 ==>
              |Run(data, ops).invocations| == 2 && Run(data, ops).invocations[0] == data.invocations[0]
    decreases |ops|
  {
    if ops != [] {
      if Step(data, ops[0]).Ok? {
        StepKeeps(data, ops[0]);
        FirstIsFrozen(data, ops[0]);
      }
      RunKeeps(After(data, ops[0]), ops[1..]);
    }
  }

  /** A terminal attempt never changes state again. */
  lemma {:induction false} TerminalStays(data: Data, ops: seq<Op>)
    requires data.state.Terminal()
    ensures Run(data, ops).state == data.state
    decreases |ops|
  {
    if ops != [] { TerminalStays(After(data, ops[0]), ops[1..]); }
  }

  /** Every reachable attempt. */
  lemma ReachableIsShaped(initial: Data, ops: seq<Op>)
    requires Fresh(initial)
    ensures Inv(Run(initial, ops))
  {
    RunKeeps(initial, ops);
  }

  // ---------------------------------------------------------------- what is accepted, and when

  /** The states that a reachable attempt can be moved to, told by what its invocations did: it
      starts once; it validates when its newest report has succeeded, which after a repair was
      ordered is the repair; it orders a repair only of its first report; it succeeds when no
      extraction is still under way; and short of the end it can fail, time out, be cancelled or be
      blocked, except that nothing fails that has not started and validation does not time out. */
  predicate Reaches(data: Data, next: AttemptState)
    requires data.invocations != []
  {
    match next
    case AttemptQueued => false
    case AttemptRunning => data.state == AttemptQueued
    case AttemptValidating =>
      && data.Latest().state == Succeeded
      && (data.state == AttemptRunning || (data.state == AttemptRepairing && |data.invocations| == 2))
    case AttemptRepairing => data.state == AttemptValidating && |data.invocations| == 1
    case AttemptSucceeded =>
      data.state == AttemptValidating && (data.Latest().purpose == Extract ==> data.Latest().state !in {Queued, Running})
    case AttemptFailed => data.state in {AttemptRunning, AttemptValidating, AttemptRepairing}
    case AttemptTimedOut => data.state in {AttemptRunning, AttemptRepairing}
    case AttemptCancelled => data.state in {AttemptQueued, AttemptRunning, AttemptValidating, AttemptRepairing}
    case AttemptBlocked => data.state in {AttemptQueued, AttemptRunning, AttemptValidating, AttemptRepairing}
  }

  /** The invocation states that follow one another: a queued one starts, a running one ends in one
      of the five ways, and either is cancelled or blocked. */
  predicate InvocationReaches(state: InvocationState, next: InvocationState) {
    || (next == Running && state == Queued)
    || (next in {Succeeded, Failed, TimedOut} && state == Running)
    || (next in {Cancelled, Blocked} && state in {Queued, Running})
  }

  /** In a reachable attempt the newest invocation can move while the attempt runs, in a repair once
      the repair is appended, and in validation if it is an extraction. */
  predicate Moves(data: Data)
    requires data.invocations != []
  {
    || data.state == AttemptRunning
    || (data.state == AttemptRepairing && |data.invocations| == 2)
    || (data.state == AttemptValidating && data.Latest().purpose == Extract)
  }

  /** Exactly which operations an attempt accepts, wherever its run has taken it. */
  predicate Accepts(data: Data, op: Op)
    requires data.invocations != []
  {
    var only := |data.invocations| == 1;
    match op
    case Transition(next) => Reaches(data, next)
    case AppendRetry(next) =>
      data.state == AttemptRunning && only && data.Latest().state == Failed && next.Is(2, Retry, Queued)
    case AppendExtract(next) => data.state == AttemptValidating && only && next.Is(2, Extract, Queued)
    case AppendRepair(next) => data.state == AttemptRepairing && only && next.Is(2, Repair, Queued)
    case TransitionInvocation(sequence, next) =>
      Moves(data) && sequence == |data.invocations| && InvocationReaches(data.Latest().state, next)
    case MarkArtifactsExpected(sequence) =>
      sequence == |data.invocations| && data.Latest().state == Running && !data.Latest().artifactsExpected
  }

  /** What an accepted operation changes. */
  predicate Changes(data: Data, op: Op, next: Data)
    requires data.invocations != []
  {
    match op
    case Transition(state) => next == Data(state, data.invocations)
    case AppendRetry(invocation) => next == Data(data.state, data.invocations + [invocation])
    case AppendExtract(invocation) => next == Data(data.state, data.invocations + [invocation])
    case AppendRepair(invocation) => next == Data(data.state, data.invocations + [invocation])
    case TransitionInvocation(_, state) =>
      && next.state == data.state && |next.invocations| == |data.invocations|
      && next.invocations[..|data.invocations| - 1] == data.invocations[..|data.invocations| - 1]
      && next.Latest() == data.Latest().(state := state)
    case MarkArtifactsExpected(_) =>
      && next.state == data.state && |next.invocations| == |data.invocations|
      && next.invocations[..|data.invocations| - 1] == data.invocations[..|data.invocations| - 1]
      && next.Latest() == data.Latest().(artifactsExpected := true)
  }

  lemma MoveIsAccepted(data: Data, next: AttemptState)
    requires Inv(data)
    ensures Step(data, Transition(next)).Ok? <==> Reaches(data, next)
  {
    var invocations := data.invocations;
    if |invocations| == 2 { assert invocations[..1] == [invocations[0]]; }
  }

  lemma InvocationMoveIsAccepted(data: Data, sequence: nat, next: InvocationState)
    requires Inv(data)
    ensures Step(data, TransitionInvocation(sequence, next)).Ok? <==> Accepts(data, TransitionInvocation(sequence, next))
  {
    assert data.Latest().sequence == |data.invocations|;
  }

  /** The guards of the source, which spell out shapes of the invocation list, come to this on every
      attempt that a run can reach; and an accepted operation changes what it names and no more. */
  lemma ReachableAccepts(initial: Data, ops: seq<Op>, op: Op)
    requires Fresh(initial)
    ensures Run(initial, ops).invocations != []
    ensures Step(Run(initial, ops), op).Ok? <==> Accepts(Run(initial, ops), op)
    ensures Step(Run(initial, ops), op).Ok? ==> Changes(Run(initial, ops), op, Step(Run(initial, ops), op).value)
  {
    var data := Run(initial, ops);
    RunKeeps(initial, ops);
    match op
    case Transition(next) => MoveIsAccepted(data, next);
    case TransitionInvocation(sequence, next) => InvocationMoveIsAccepted(data, sequence, next);
    case _ => assert data.Latest().sequence == |data.invocations|;
  }

  /** An attempt that has not ended can be ended by its owner, and one that has started can fail;
      it has ended when nothing but the mark of a running invocation is accepted any more. */
  lemma EveryAttemptCanEnd(initial: Data, ops: seq<Op>)
    requires Fresh(initial)
    ensures var data := Run(initial, ops);
            var ended := data.state in {AttemptSucceeded, AttemptFailed, AttemptTimedOut, AttemptCancelled, AttemptBlocked};
            && (ended <==> data.state.Terminal())
            && (!ended <==> Step(data, Transition(AttemptCancelled)).Ok?)
            && (!ended <==> Step(data, Transition(AttemptBlocked)).Ok?)
            && (!ended && data.state != AttemptQueued <==> Step(data, Transition(AttemptFailed)).Ok?)
            && (ended ==> forall op :: Step(data, op).Ok? ==> op.MarkArtifactsExpected?)
  {
    RunKeeps(initial, ops);
  }

  // ---------------------------------------------------------------- every run is short

  /** What is left to do in a phase of the attempt. */
  function PhaseWork(data: Data): nat {
    var second := |data.invocations| >= 2;
    match data.state
    case AttemptQueued => 9
    case AttemptRunning => if second then 2 else 8
    case AttemptValidating => if second then 1 else 7
    case AttemptRepairing => if second then 2 else 6
    case _ => 0
  }

  /** What is left to do for an invocation: start, mark, finish. */
  function InvocationWork(invocation: Invocation): nat {
    match invocation.state
    case Queued => 3
    case Running => if invocation.artifactsExpected then 1 else 2
    case _ => 0
  }

  function Work(data: Data): nat
    requires data.invocations != []
  {
    PhaseWork(data) + InvocationWork(data.Latest())
  }

  lemma StepWorks(data: Data, op: Op)
    requires Inv(data) && Step(data, op).Ok?
    ensures Step(data, op).value.invocations != [] && Work(Step(data, op).value) < Work(data)
  {
  }

  lemma {:induction false} WorkBoundsRun(data: Data, ops: seq<Op>)
    requires Inv(data)
    ensures Accepted(data, ops) <= Work(data)
    decreases |ops|
  {
    if ops != [] {
      if Step(data, ops[0]).Ok? {
        StepKeeps(data, ops[0]);
        StepWorks(data, ops[0]);
      }
      WorkBoundsRun(After(data, ops[0]), ops[1..]);
    }
  }

  /** No run of an attempt has more than twelve accepted operations. */
  lemma AtMostTwelve(initial: Data, ops: seq<Op>)
    requires Fresh(initial)
    ensures Accepted(initial, ops) <= 12
  {
    WorkBoundsRun(initial, ops);
  }

  /** The path of a repaired report. */
  predicate RepairPath(ops: seq<Op>) {
    && |ops| == 12
    && ops[0] == Transition(AttemptRunning)
    && ops[1] == TransitionInvocation(1, Running) && ops[2] == MarkArtifactsExpected(1)
    && ops[3] == TransitionInvocation(1, Succeeded)
    && ops[4] == Transition(AttemptValidating) && ops[5] == Transition(AttemptRepairing)
    && ops[6] == AppendRepair(Invocation(2, Repair, Queued, false))
    && ops[7] == TransitionInvocation(2, Running) && ops[8] == MarkArtifactsExpected(2)
    && ops[9] == TransitionInvocation(2, Succeeded)
    && ops[10] == Transition(AttemptValidating) && ops[11] == Transition(AttemptSucceeded)
  }

  lemma Advance(data: Data, ops: seq<Op>, k: nat, next: Data)
    requires k < |ops| && Step(data, ops[k]) == Ok(next)
    ensures Accepted(data, ops[k..]) == 1 + Accepted(next, ops[k + 1..])
    ensures Run(data, ops[k..]) == Run(next, ops[k + 1..])
  {
    assert ops[k..][1..] == ops[k + 1..];
  }

  /** Starting, marking and finishing the current invocation. */
  lemma InvocationRuns(data: Data, ops: seq<Op>, k: nat, n: nat)
    requires HasCurrent(data) && data.invocations != [] && data.Latest().sequence == n
    requires data.Latest().state == Queued && !data.Latest().artifactsExpected
    requires k + 3 <= |ops| && ops[k] == TransitionInvocation(n, Running) && ops[k + 1] == MarkArtifactsExpected(n)
             && ops[k + 2] == TransitionInvocation(n, Succeeded)
    ensures var done := WithLatest(data, data.Latest().(state := Succeeded, artifactsExpected := true));
            Accepted(data, ops[k..]) == 3 + Accepted(done, ops[k + 3..]) && Run(data, ops[k..]) == Run(done, ops[k + 3..])
  {
    var running := WithLatest(data, data.Latest().(state := Running));
    var marked := WithLatest(running, running.Latest().(artifactsExpected := true));
    var done := WithLatest(data, data.Latest().(state := Succeeded, artifactsExpected := true));
    assert WithLatest(marked, marked.Latest().(state := Succeeded)) == done;
    Advance(data, ops, k, running);
    Advance(running, ops, k + 1, marked);
    Advance(marked, ops, k + 2, done);
  }

  lemma FirstReport(path: seq<Op>)
    requires RepairPath(path)
    ensures var initial, done := Data(AttemptQueued, [Invocation(1, Initial, Queued, false)]),
                                 Data(AttemptRepairing, [Invocation(1, Initial, Succeeded, true)]);
            Accepted(initial, path) == 6 + Accepted(done, path[6..]) && Run(initial, path) == Run(done, path[6..])
  {
    var queued, done := Invocation(1, Initial, Queued, false), Invocation(1, Initial, Succeeded, true);
    Advance(Data(AttemptQueued, [queued]), path, 0, Data(AttemptRunning, [queued]));
    InvocationRuns(Data(AttemptRunning, [queued]), path, 1, 1);
    assert [queued][0 := done] == [done];
    Advance(Data(AttemptRunning, [done]), path, 4, Data(AttemptValidating, [done]));
    Advance(Data(AttemptValidating, [done]), path, 5, Data(AttemptRepairing, [done]));
    assert path[0..] == path;
  }

  lemma RepairedReport(path: seq<Op>)
    requires RepairPath(path)
    ensures var done := Data(AttemptRepairing, [Invocation(1, Initial, Succeeded, true)]);
            Accepted(done, path[6..]) == 6 && Run(done, path[6..]).state == AttemptSucceeded
  {
    var done := Invocation(1, Initial, Succeeded, true);
    var repair, repaired := Invocation(2, Repair, Queued, false), Invocation(2, Repair, Succeeded, true);
    assert [done] + [repair] == [done, repair];
    Advance(Data(AttemptRepairing, [done]), path, 6, Data(AttemptRepairing, [done, repair]));
    InvocationRuns(Data(AttemptRepairing, [done, repair]), path, 7, 2);
    assert [done, repair][1 := repaired] == [done, repaired];
    Advance(Data(AttemptRepairing, [done, repaired]), path, 10, Data(AttemptValidating, [done, repaired]));
    assert LatestReport([done, repaired]) == Some(repaired);
    Advance(Data(AttemptValidating, [done, repaired]), path, 11, Data(AttemptSucceeded, [done, repaired]));
    assert path[12..] == [];
  }

  /** A repaired report takes all twelve operations. */
  lemma RepairTakesTwelve(path: seq<Op>)
    requires RepairPath(path)
    ensures var initial := Data(AttemptQueued, [Invocation(1, Initial, Queued, false)]);
            Fresh(initial) && Accepted(initial, path) == 12 && Run(initial, path).state == AttemptSucceeded
  {
    FirstReport(path);
    RepairedReport(path);
  }

  // ---------------------------------------------------------------- the other two ways to succeed

  /** A first invocation that fails, then a retry that succeeds. */
  predicate RetryPath(ops: seq<Op>) {
    && |ops| == 9
    && ops[0] == Transition(AttemptRunning)
    && ops[1] == TransitionInvocation(1, Running) && ops[2] == TransitionInvocation(1, Failed)
    && ops[3] == AppendRetry(Invocation(2, Retry, Queued, false))
    && ops[4] == TransitionInvocation(2, Running) && ops[5] == MarkArtifactsExpected(2)
    && ops[6] == TransitionInvocation(2, Succeeded)
    && ops[7] == Transition(AttemptValidating) && ops[8] == Transition(AttemptSucceeded)
  }

  lemma FirstFails(path: seq<Op>)
    requires RetryPath(path)
    ensures var initial := Data(AttemptQueued, [Invocation(1, Initial, Queued, false)]);
            var retrying := Data(AttemptRunning, [Invocation(1, Initial, Failed, false), Invocation(2, Retry, Queued, false)]);
            Accepted(initial, path) == 4 + Accepted(retrying, path[4..]) && Run(initial, path) == Run(retrying, path[4..])
  {
    var queued, running, failed := Invocation(1, Initial, Queued, false), Invocation(1, Initial, Running, false),
      Invocation(1, Initial, Failed, false);
    var retry := Invocation(2, Retry, Queued, false);
    Advance(Data(AttemptQueued, [queued]), path, 0, Data(AttemptRunning, [queued]));
    assert [queued][0 := running] == [running] && [running][0 := failed] == [failed];
    Advance(Data(AttemptRunning, [queued]), path, 1, Data(AttemptRunning, [running]));
    Advance(Data(AttemptRunning, [running]), path, 2, Data(AttemptRunning, [failed]));
    assert [failed] + [retry] == [failed, retry];
    Advance(Data(AttemptRunning, [failed]), path, 3, Data(AttemptRunning, [failed, retry]));
    assert path[0..] == path;
  }

  /** A failed first invocation is made good by exactly one retry. */
  lemma RetrySucceeds(path: seq<Op>)
    requires RetryPath(path)
    ensures var initial := Data(AttemptQueued, [Invocation(1, Initial, Queued, false)]);
            Accepted(initial, path) == 9 && Run(initial, path).state == AttemptSucceeded
  {
    var failed := Invocation(1, Initial, Failed, false);
    var retry, retried := Invocation(2, Retry, Queued, false), Invocation(2, Retry, Succeeded, true);
    FirstFails(path);
    InvocationRuns(Data(AttemptRunning, [failed, retry]), path, 4, 2);
    assert [failed, retry][1 := retried] == [failed, retried];
    Advance(Data(AttemptRunning, [failed, retried]), path, 7, Data(AttemptValidating, [failed, retried]));
    assert LatestReport([failed, retried]) == Some(retried);
    Advance(Data(AttemptValidating, [failed, retried]), path, 8, Data(AttemptSucceeded, [failed, retried]));
    assert path[9..] == [];
  }

  /** A succeeded report that is validating, and an extraction that ends in whatever way. */
  predicate ExtractPath(ops: seq<Op>, end: InvocationState) {
    && |ops| == 4 && Running.CanTransition(end)
    && ops[0] == AppendExtract(Invocation(2, Extract, Queued, false))
    && ops[1] == TransitionInvocation(2, Running) && ops[2] == TransitionInvocation(2, end)
    && ops[3] == Transition(AttemptSucceeded)
  }

  /** However the extraction trailer ends, the accepted report still succeeds. */
  lemma ExtractionNeverDecides(path: seq<Op>, end: InvocationState, done: Invocation)
    requires ExtractPath(path, end) && done.Is(1, Initial, Succeeded)
    ensures Accepted(Data(AttemptValidating, [done]), path) == 4
    ensures Run(Data(AttemptValidating, [done]), path).state == AttemptSucceeded
  {
    var queued, running, ended := Invocation(2, Extract, Queued, false), Invocation(2, Extract, Running, false),
      Invocation(2, Extract, end, false);
    assert [done] + [queued] == [done, queued];
    Advance(Data(AttemptValidating, [done]), path, 0, Data(AttemptValidating, [done, queued]));
    assert [done, queued][1 := running] == [done, running] && [done, running][1 := ended] == [done, ended];
    Advance(Data(AttemptValidating, [done, queued]), path, 1, Data(AttemptValidating, [done, running]));
    Advance(Data(AttemptValidating, [done, running]), path, 2, Data(AttemptValidating, [done, ended]));
    assert [done, ended][..1] == [done] && LatestReport([done]) == Some(done);
    Advance(Data(AttemptValidating, [done, ended]), path, 3, Data(AttemptSucceeded, [done, ended]));
    assert path[0..] == path && path[4..] == [];
  }
}
