/** The in-memory runtime diagnostic sink: a numbered event log with a clock that never runs
    backwards, raw streams by path, and a closing that is final. */
module DiagnosticSink {
  import opened Prelude
  import opened Paths
  import opened RunSupport
  import Decimal

  datatype EventCode = RunCompleted | RunStopped | RuntimeClosed | OtherCode(name: string)

  datatype RunState = Completed | Degraded | Failed | Cancelled

  /** `valid` is what the draft's own validation says. */
  datatype Draft = Draft(sessionID: string, runID: string, code: EventCode, state: string, cause: string, valid: bool)

  datatype Event = Event(draft: Draft, sequence: nat, instant: int, elapsedMillis: nat)

  /** A clock reading in nanoseconds; only a non-zero UTC time can stamp an event. */
  datatype Reading = Reading(instant: int, stampable: bool)

  const MAX_INT64 := 0x7FFF_FFFF_FFFF_FFFF

  /** Milliseconds since the start: time.Sub saturates, and a clock behind the start counts as no
      time at all. */
  function Millis(startedAt: int, reading: Reading): nat {
    var elapsed := reading.instant - startedAt;
    if elapsed < 0 then 0 else (if elapsed > MAX_INT64 then MAX_INT64 else elapsed) / 1_000_000
  }

  /** The run a sink was opened for; a no-op sink is not installed. */
  datatype Scope = Scope(sessionID: string, runID: string, startedAt: int, installed: bool) {
    predicate Valid() { ValidSessionID(sessionID) && ValidRunID(runID) }
  }

  // ---------------------------------------------------------------- raw streams

  datatype Origin = Qualification(phase: string) | Invocation(ordinal: nat, purpose: Purpose)

  datatype Stream = Stdout | Stderr {
    function File(): string { if Stdout? then "stdout.raw" else "stderr.raw" }
  }

  datatype RawName = RawName(attemptID: string, origin: Origin, stream: Stream) {
    predicate Valid() {
      && ValidPrefixedUUIDv7(attemptID, "a_")
      && match origin
         case Qualification(phase) => phase in ["request", "version", "capability"]
         case Invocation(ordinal, _) => ordinal > 0
    }
  }

  /** diagnosticRawPath, component by component. */
  function RawParts(scope: Scope, name: RawName): seq<string> {
    var run := ["diagnostics", scope.sessionID, scope.runID];
    match name.origin
    case Qualification(phase) => run + ["qualification", name.attemptID, phase, name.stream.File()]
    case Invocation(ordinal, purpose) =>
      run + ["attempts", name.attemptID, "invocations", InvocationDirectory(ordinal, purpose), name.stream.File()]
  }

  function RawPath(scope: Scope, name: RawName): string { Join(RawParts(scope, name), '/') }

  /** A reader that delivers its bytes and then ends, or breaks. */
  datatype Source = Source(bytes: Bytes, breaks: bool)

  /** io.ReadAll of an io.LimitReader: nothing is asked of the source beyond the limit. */
  function ReadLimited(source: Source, limit: int): Result<Bytes> {
    if limit <= 0 then Ok([])
    else if |source.bytes| >= limit then Ok(source.bytes[..limit])
    else if source.breaks then Err
    else Ok(source.bytes)
  }

  datatype RawRequest = RawRequest(name: RawName, source: Source, maxBytes: int, sourceIDs: seq<string>) {
    predicate Valid() { name.Valid() && 0 < maxBytes <= MAX_INT64 }

    /** One byte more than the cap, in 64 bits. */
    function Limit(): int { if maxBytes == MAX_INT64 then -MAX_INT64 - 1 else maxBytes + 1 }
  }

  datatype Drop = Drop(channel: Stream, detector: string, count: nat, sourceIDs: seq<string>)

  // ---------------------------------------------------------------- one operation

  datatype State = State(sequence: nat, lastElapsed: nat, events: seq<Event>, raw: map<string, Bytes>, finalized: bool)

  const EMPTY := State(0, 0, [], map[], false)

  predicate Owns(scope: Scope, sessionID: string, runID: string) {
    sessionID == scope.sessionID && runID == scope.runID
  }

  function Later(a: nat, b: nat): nat { if a < b then b else a }

  function NextEvent(scope: Scope, state: State, draft: Draft, reading: Reading): Event {
    Event(draft, state.sequence + 1, reading.instant, Later(Millis(scope.startedAt, reading), state.lastElapsed))
  }

  /** appendEventLocked */
  function Append(scope: Scope, state: State, draft: Draft, reading: Reading): Result<State> {
    if !Owns(scope, draft.sessionID, draft.runID) || !draft.valid || !reading.stampable then Err
    else
      var event := NextEvent(scope, state, draft, reading);
      Ok(state.(sequence := event.sequence, lastElapsed := event.elapsedMillis, events := state.events + [event]))
  }

  function TerminalDraft(scope: Scope, state: RunState, stateName: string, cause: string): Draft {
    Draft(scope.sessionID, scope.runID, if state == Failed || state == Cancelled then RunStopped else RunCompleted,
          stateName, cause, true)
  }

  function ClosedDraft(scope: Scope, stateName: string): Draft {
    Draft(scope.sessionID, scope.runID, RuntimeClosed, stateName, "", true)
  }

  datatype FinalRequest = FinalRequest(sessionID: string, runID: string, state: RunState, stateName: string, cause: string)

  datatype FinalResult = FinalResult(path: string, lastSequence: nat)

  /** `cancelled` is the state of the context that the call is given. */
  datatype Op =
    | Emit(cancelled: bool, draft: Draft, reading: Reading)
    | Persist(cancelled: bool, request: RawRequest)
    | ReplaceStatus(sessionID: string, runID: string)
    | Finalize(cancelled: bool, final: FinalRequest, first: Reading, second: Reading)

  datatype Outcome =
    | Refused
    | Aborted                                              // the stream broke; its abort callback was called
    | Dropped(drop: Drop)                                  // over the cap, likewise; an error with metadata
    | Emitted(event: Event)
    | Stored(stream: Stream, path: string, byteLength: nat)
    | Replaced
    | Closed(result: Option<FinalResult>)                  // no result from a sink that is not installed
  {
    predicate Succeeded() { Emitted? || Stored? || Replaced? || Closed? }
  }

  /** The state after an operation and what the caller gets.  A finalization whose second event
      cannot be stamped is refused with its first event kept. */
  function Step(scope: Scope, state: State, op: Op): (State, Outcome) {
    match op
    case Emit(cancelled, draft, reading) =>
      if cancelled || state.finalized then (state, Refused)
      else
        (match Append(scope, state, draft, reading)
         case Ok(next) => (next, Emitted(NextEvent(scope, state, draft, reading)))
         case Err => (state, Refused))
    case Persist(cancelled, request) => if cancelled then (state, Refused) else PersistStep(scope, state, request)
    case ReplaceStatus(sessionID, runID) =>
      (state, if !state.finalized && Owns(scope, sessionID, runID) then Replaced else Refused)
    case Finalize(cancelled, final, first, second) =>
      if cancelled || state.finalized || !Owns(scope, final.sessionID, final.runID) then (state, Refused)
      else
        match Append(scope, state, TerminalDraft(scope, final.state, final.stateName, final.cause), first)
        case Err => (state, Refused)
        case Ok(stopped) =>
          match Append(scope, stopped, ClosedDraft(scope, final.stateName), second)
          case Err => (stopped, Refused)
          case Ok(closed) => (closed.(finalized := true), Closed(ResultOf(scope, closed.sequence)))
  }

  function PersistStep(scope: Scope, state: State, request: RawRequest): (State, Outcome) {
    match ReadLimited(request.source, request.Limit())
    case Err => (state, Aborted)
    case Ok(bytes) =>
      if |bytes| > request.maxBytes then (state, Dropped(DropOf(request)))
      else if state.finalized then (state, Refused)
      else
        var path := RawPath(scope, request.name);
        (state.(raw := state.raw[path := bytes]), Stored(request.name.stream, path, |bytes|))
  }

  function DropOf(request: RawRequest): Drop {
    Drop(request.name.stream, "maximum_bytes_exceeded", 1, request.sourceIDs)
  }

  /** RuntimeDiagnosticOpenRequest.RunPath */
  function RunPath(scope: Scope): string { "diagnostics/" + scope.sessionID + "/" + scope.runID }

  function ResultOf(scope: Scope, lastSequence: nat): Option<FinalResult> {
    if scope.installed
    then Some(FinalResult(RunPath(scope), lastSequence))
    else None
  }

  class Sink {
    const scope: Scope
    var sequence: nat
    var lastElapsed: nat
    var events: seq<Event>
    var raw: map<string, Bytes>
    var finalized: bool

    ghost function View(): State
      reads this
    {
      State(sequence, lastElapsed, events, raw, finalized)
    }

    constructor (scope: Scope)
      ensures this.scope == scope && View() == EMPTY
    {
      this.scope := scope;
      sequence, lastElapsed, events, raw, finalized := 0, 0, [], map[], false;
    }

    method AppendEvent(draft: Draft, now: Reading) returns (result: Result<Event>)
      modifies this
      ensures result.Ok? <==> Append(scope, old(View()), draft, now).Ok?
      ensures result.Ok? ==> result.value == NextEvent(scope, old(View()), draft, now)
      ensures View() == if result.Ok? then Append(scope, old(View()), draft, now).value else old(View())
    {
      if draft.sessionID != scope.sessionID || draft.runID != scope.runID { return Err; }
      var elapsed := now.instant - scope.startedAt;
      if elapsed > MAX_INT64 { elapsed := MAX_INT64; }
      if elapsed < 0 { elapsed := 0; }
      var millis := elapsed / 1_000_000;
      if millis < lastElapsed { millis := lastElapsed; }
      sequence := sequence + 1;
      if !draft.valid || !now.stampable {
        sequence := sequence - 1;
        return Err;
      }
      lastElapsed := millis;
      events := events + [Event(draft, sequence, now.instant, millis)];
      result := Ok(Event(draft, sequence, now.instant, millis));
    }

    method EmitEvent(cancelled: bool, draft: Draft, now: Reading) returns (outcome: Outcome)
      modifies this
      ensures (View(), outcome) == Step(scope, old(View()), Emit(cancelled, draft, now))
    {
      if cancelled { return Refused; }
      if finalized { return Refused; }
      var appended := AppendEvent(draft, now);
      outcome := if appended.Ok? then Emitted(appended.value) else Refused;
    }

    method PersistRaw(cancelled: bool, request: RawRequest) returns (outcome: Outcome)
      requires scope.Valid() && request.Valid()
      modifies this
      ensures (View(), outcome) == Step(scope, old(View()), Persist(cancelled, request))
      ensures outcome.Stored? ==> ValidPath(outcome.path)
    {
      if cancelled { return Refused; }
      var read := ReadLimited(request.source, request.Limit());
      if read.Err? { return Aborted; }
      var bytes := read.value;
      if |bytes| > request.maxBytes { return Dropped(DropOf(request)); }
      var path := RawPath(scope, request.name);
      RawPathsBind(scope, request.name, request.name);
      if finalized { return Refused; }
      raw := raw[path := bytes];
      outcome := Stored(request.name.stream, path, |bytes|);
    }

    /** The three status replacements check the identity and keep nothing. */
    method Replace(sessionID: string, runID: string) returns (outcome: Outcome)
      ensures (View(), outcome) == Step(scope, View(), ReplaceStatus(sessionID, runID))
    {
      if finalized { return Refused; }
      if sessionID != scope.sessionID || runID != scope.runID { return Refused; }
      outcome := Replaced;
    }

    method Close(cancelled: bool, final: FinalRequest, first: Reading, second: Reading) returns (outcome: Outcome)
      modifies this
      ensures (View(), outcome) == Step(scope, old(View()), Finalize(cancelled, final, first, second))
    {
      if cancelled { return Refused; }
      if finalized { return Refused; }
      if final.sessionID != scope.sessionID || final.runID != scope.runID { return Refused; }
      var terminal := RunCompleted;
      if final.state == Failed || final.state == Cancelled { terminal := RunStopped; }
      var stopped := AppendEvent(Draft(scope.sessionID, scope.runID, terminal, final.stateName, final.cause, true), first);
      if stopped.Err? { return Refused; }
      var closed := AppendEvent(Draft(scope.sessionID, scope.runID, RuntimeClosed, final.stateName, "", true), second);
      if closed.Err? { return Refused; }
      finalized := true;
      outcome := Closed(ResultOf(scope, sequence));
    }
  }

  // ---------------------------------------------------------------- whole runs

  function Run(scope: Scope, state: State, ops: seq<Op>): State
    decreases |ops|
  {
    if ops == [] then state else Run(scope, Step(scope, state, ops[0]).0, ops[1..])
  }

  /** The log ends with the event that says how the run ended, then with the closing. */
  ghost predicate EndsClosed(events: seq<Event>) {
    && |events| >= 2
    && (events[|events| - 2].draft.code == RunCompleted || events[|events| - 2].draft.code == RunStopped)
    && events[|events| - 1].draft.code == RuntimeClosed
  }

  ghost predicate Inv(scope: Scope, state: State) {
    && state.sequence == |state.events|
    && (forall i :: 0 <= i < |state.events| ==>
          state.events[i].sequence == i + 1 && Owns(scope, state.events[i].draft.sessionID, state.events[i].draft.runID)
          && state.events[i].elapsedMillis <= state.lastElapsed)
    && (forall i, j :: 0 <= i < j < |state.events| ==> state.events[i].elapsedMillis <= state.events[j].elapsedMillis)
    && (state.events != [] ==> state.events[|state.events| - 1].elapsedMillis == state.lastElapsed)
    && (state.finalized ==> EndsClosed(state.events))
  }

  lemma AppendKeeps(scope: Scope, state: State, draft: Draft, reading: Reading)
    requires Inv(scope, state) && !state.finalized && Append(scope, state, draft, reading).Ok?
    ensures Inv(scope, Append(scope, state, draft, reading).value)
  {
  }

  lemma EmitKeeps(scope: Scope, state: State, cancelled: bool, draft: Draft, reading: Reading)
    requires Inv(scope, state)
    ensures Inv(scope, Step(scope, state, Emit(cancelled, draft, reading)).0)
  {
    if !cancelled && !state.finalized && Append(scope, state, draft, reading).Ok? { AppendKeeps(scope, state, draft, reading); }
  }

  lemma PersistKeeps(scope: Scope, state: State, cancelled: bool, request: RawRequest)
    ensures var next := Step(scope, state, Persist(cancelled, request)).0;
            next == state.(raw := next.raw) && (state.finalized ==> next == state)
  {
  }

  lemma StepKeeps(scope: Scope, state: State, op: Op)
    requires Inv(scope, state)
    ensures Inv(scope, Step(scope, state, op).0)
    ensures state.finalized ==> Step(scope, state, op).0 == state && !Step(scope, state, op).1.Succeeded()
  {
    match op
    case Emit(cancelled, draft, reading) => EmitKeeps(scope, state, cancelled, draft, reading);
    case Persist(cancelled, request) => PersistKeeps(scope, state, cancelled, request);
    case ReplaceStatus(_, _) =>
    case Finalize(cancelled, final, first, second) =>
      if !cancelled && !state.finalized && Owns(scope, final.sessionID, final.runID) && first.stampable {
        FinalizeKeeps(scope, state, final, first, second);
      }
  }

  lemma FinalizeKeeps(scope: Scope, state: State, final: FinalRequest, first: Reading, second: Reading)
    requires Inv(scope, state) && !state.finalized && Owns(scope, final.sessionID, final.runID) && first.stampable
    ensures Inv(scope, Step(scope, state, Finalize(false, final, first, second)).0)
  {
    var terminal := TerminalDraft(scope, final.state, final.stateName, final.cause);
    AppendKeeps(scope, state, terminal, first);
    var stopped := Append(scope, state, terminal, first).value;
    if second.stampable { AppendKeeps(scope, stopped, ClosedDraft(scope, final.stateName), second); }
  }

  lemma {:induction false} RunKeeps(scope: Scope, state: State, ops: seq<Op>)
    requires Inv(scope, state)
    ensures Inv(scope, Run(scope, state, ops))
    ensures state.finalized ==> Run(scope, state, ops) == state
    decreases |ops|
  {
    if ops != [] {
      StepKeeps(scope, state, ops[0]);
      RunKeeps(scope, Step(scope, state, ops[0]).0, ops[1..]);
    }
  }

  /** Whatever the clock reads, event i is numbered i + 1 and the elapsed times never decrease. */
  lemma LogIsNumberedAndMonotone(scope: Scope, ops: seq<Op>)
    ensures Inv(scope, Run(scope, EMPTY, ops))
  {
    RunKeeps(scope, EMPTY, ops);
  }

  /** The request of the call that closed the log. */
  ghost function ClosingRequest(scope: Scope, state: State, ops: seq<Op>): Option<FinalRequest>
    decreases |ops|
  {
    if ops == [] then None
    else
      var (next, outcome) := Step(scope, state, ops[0]);
      if outcome.Closed? && ops[0].Finalize? then Some(ops[0].final) else ClosingRequest(scope, next, ops[1..])
  }

  /** The last two events say how the run ended, as the request has it, and that it was closed. */
  ghost predicate EndsAs(events: seq<Event>, final: FinalRequest) {
    && |events| >= 2
    && var terminal, closed := events[|events| - 2].draft, events[|events| - 1].draft;
       && terminal.code == (match final.state
                            case Completed => RunCompleted case Degraded => RunCompleted
                            case Failed => RunStopped case Cancelled => RunStopped)
       && terminal.state == final.stateName && terminal.cause == final.cause
       && closed.code == RuntimeClosed && closed.state == final.stateName && closed.cause == ""
       && terminal.valid && closed.valid
  }

  lemma CloseEndsAs(scope: Scope, state: State, final: FinalRequest, first: Reading, second: Reading)
    requires Step(scope, state, Finalize(false, final, first, second)).1.Closed?
    ensures EndsAs(Step(scope, state, Finalize(false, final, first, second)).0.events, final)
  {
    var stopped := Append(scope, state, TerminalDraft(scope, final.state, final.stateName, final.cause), first).value;
    assert stopped.events[|state.events|].draft.state == final.stateName;
  }

  lemma {:induction false} RunEndsAs(scope: Scope, state: State, ops: seq<Op>)
    requires !state.finalized && Inv(scope, state)
    ensures Run(scope, state, ops).finalized <==> ClosingRequest(scope, state, ops).Some?
    ensures Run(scope, state, ops).finalized ==> EndsAs(Run(scope, state, ops).events, ClosingRequest(scope, state, ops).value)
    decreases |ops|
  {
    if ops != [] {
      var (next, outcome) := Step(scope, state, ops[0]);
      StepKeeps(scope, state, ops[0]);
      if outcome.Closed? {
        CloseEndsAs(scope, state, ops[0].final, ops[0].first, ops[0].second);
        RunKeeps(scope, next, ops[1..]);
      } else {
        RunEndsAs(scope, next, ops[1..]);
      }
    }
  }

  /** After a finalization that succeeded, the log ends with how the run ended, as that call had it,
      and the closing, and no later call changes an event or a raw byte, or succeeds. */
  lemma FinalizedIsFinal(scope: Scope, ops: seq<Op>, more: seq<Op>, late: Op)
    requires Run(scope, EMPTY, ops).finalized
    ensures ClosingRequest(scope, EMPTY, ops).Some?
    ensures EndsAs(Run(scope, EMPTY, ops).events, ClosingRequest(scope, EMPTY, ops).value)
    ensures Run(scope, Run(scope, EMPTY, ops), more) == Run(scope, EMPTY, ops)
    ensures !Step(scope, Run(scope, Run(scope, EMPTY, ops), more), late).1.Succeeded()
  {
    RunKeeps(scope, EMPTY, ops);
    RunEndsAs(scope, EMPTY, ops);
    RunKeeps(scope, Run(scope, EMPTY, ops), more);
    StepKeeps(scope, Run(scope, Run(scope, EMPTY, ops), more), late);
  }

  /** As long as the clock gives times that can stamp, which the clock that both constructors
      install always does, a run can be finalized after whatever it did: the call appends how the
      run ended and the closing, reports the last number, and fails only the second time. */
  lemma FinalizeSucceeds(scope: Scope, ops: seq<Op>, final: FinalRequest, first: Reading, second: Reading)
    requires Owns(scope, final.sessionID, final.runID) && first.stampable && second.stampable
    ensures var before := Run(scope, EMPTY, ops);
            var (after, outcome) := Step(scope, before, Finalize(false, final, first, second));
            && (outcome.Succeeded() <==> !before.finalized)
            && after.finalized && (before.finalized ==> after == before)
            && (!before.finalized ==>
                  && |after.events| == |before.events| + 2 && after.events[..|before.events|] == before.events
                  && EndsAs(after.events, final)
                  && outcome == Closed(if !scope.installed then None
                                       else Some(FinalResult("diagnostics/" + scope.sessionID + "/" + scope.runID, |after.events|))))
  {
    RunKeeps(scope, EMPTY, ops);
    StepKeeps(scope, Run(scope, EMPTY, ops), Finalize(false, final, first, second));
    if !Run(scope, EMPTY, ops).finalized { CloseEndsAs(scope, Run(scope, EMPTY, ops), final, first, second); }
  }

  /** Under any clock at all a finalization of an open sink by its own run succeeds exactly when
      both readings can stamp, leaves the sink untouched exactly when the first cannot, and
      otherwise is refused with the terminal event in an open log. */
  lemma FinalizeOutcome(scope: Scope, state: State, final: FinalRequest, first: Reading, second: Reading)
    requires !state.finalized && Owns(scope, final.sessionID, final.runID)
    ensures var (next, outcome) := Step(scope, state, Finalize(false, final, first, second));
            && (outcome.Succeeded() <==> first.stampable && second.stampable)
            && (outcome.Succeeded() <==> next.finalized)
            && (next == state <==> !first.stampable)
            && (first.stampable && !second.stampable ==>
                  |next.events| == |state.events| + 1 && next.events[|state.events|].draft.code in {RunCompleted, RunStopped})
  {
    var terminal := TerminalDraft(scope, final.state, final.stateName, final.cause);
    if first.stampable {
      var stopped := Append(scope, state, terminal, first).value;
      assert |stopped.events| == |state.events| + 1;
    }
  }

  // ---------------------------------------------------------------- elapsed times

  /** Whole milliseconds since the start, no time at all for a clock behind the start, and at most
      what a duration holds. */
  lemma MillisMeaning(startedAt: int, reading: Reading)
    ensures var elapsed, millis := reading.instant - startedAt, Millis(startedAt, reading);
            && (elapsed < 0 ==> millis == 0)
            && (0 <= elapsed <= MAX_INT64 ==> 1_000_000 * millis <= elapsed < 1_000_000 * (millis + 1))
            && (elapsed > MAX_INT64 ==> millis == 9_223_372_036_854)
  {
  }

  /** The latest time that any of the first n events was stamped with. */
  ghost function LatestMillis(startedAt: int, events: seq<Event>, n: nat): nat
    requires n <= |events|
  {
    if n == 0 then 0
    else
      var before, own := LatestMillis(startedAt, events, n - 1), Millis(startedAt, Reading(events[n - 1].instant, true));
      if own > before then own else before
  }

  /** Every event is stamped with the latest time seen so far, its own included. */
  ghost predicate StampedLatest(startedAt: int, state: State) {
    && state.lastElapsed == LatestMillis(startedAt, state.events, |state.events|)
    && forall i :: 0 <= i < |state.events| ==> state.events[i].elapsedMillis == LatestMillis(startedAt, state.events, i + 1)
  }

  lemma {:induction false} LatestOfPrefix(startedAt: int, events: seq<Event>, event: Event, n: nat)
    requires n <= |events|
    ensures LatestMillis(startedAt, events + [event], n) == LatestMillis(startedAt, events, n)
  {
    if n > 0 { LatestOfPrefix(startedAt, events, event, n - 1); }
  }

  lemma AppendStamps(scope: Scope, state: State, draft: Draft, reading: Reading)
    requires StampedLatest(scope.startedAt, state) && Append(scope, state, draft, reading).Ok?
    ensures StampedLatest(scope.startedAt, Append(scope, state, draft, reading).value)
  {
    var event := NextEvent(scope, state, draft, reading);
    forall n | 0 <= n <= |state.events|
      ensures LatestMillis(scope.startedAt, state.events + [event], n) == LatestMillis(scope.startedAt, state.events, n)
    {
      LatestOfPrefix(scope.startedAt, state.events, event, n);
    }
  }

  lemma StepStamps(scope: Scope, state: State, op: Op)
    requires StampedLatest(scope.startedAt, state)
    ensures StampedLatest(scope.startedAt, Step(scope, state, op).0)
  {
    match op
    case Emit(cancelled, draft, reading) =>
      if !cancelled && !state.finalized && Append(scope, state, draft, reading).Ok? { AppendStamps(scope, state, draft, reading); }
    case Persist(_, _) =>
    case ReplaceStatus(_, _) =>
    case Finalize(cancelled, final, first, second) =>
      var terminal := TerminalDraft(scope, final.state, final.stateName, final.cause);
      if !cancelled && !state.finalized && Append(scope, state, terminal, first).Ok? {
        AppendStamps(scope, state, terminal, first);
        var stopped := Append(scope, state, terminal, first).value;
        if second.stampable { AppendStamps(scope, stopped, ClosedDraft(scope, final.stateName), second); }
      }
  }

  lemma {:induction false} RunStamps(scope: Scope, state: State, ops: seq<Op>)
    requires StampedLatest(scope.startedAt, state)
    ensures StampedLatest(scope.startedAt, Run(scope, state, ops))
    decreases |ops|
  {
    if ops != [] {
      StepStamps(scope, state, ops[0]);
      RunStamps(scope, Step(scope, state, ops[0]).0, ops[1..]);
    }
  }

  /** Elapsed times follow the clock: each event carries the latest time that it or an event before
      it was stamped with, in milliseconds since the start. */
  lemma ElapsedFollowsClock(scope: Scope, ops: seq<Op>)
    ensures StampedLatest(scope.startedAt, Run(scope, EMPTY, ops))
  {
    RunStamps(scope, EMPTY, ops);
  }

  // ---------------------------------------------------------------- raw stream paths

  lemma FilesDiffer(a: Stream, b: Stream)
    ensures a.File() == b.File() <==> a == b
    ensures PlainComponent(a.File())
  {
    assert Stdout.File()[3] == 'o' && Stderr.File()[3] == 'e';
  }

  lemma DirectoryIsPlain(ordinal: nat, purpose: Purpose)
    ensures PlainComponent(InvocationDirectory(ordinal, purpose))
  {
    Decimal.PadDenotes(ordinal, 3);
    assert forall c :: c in purpose.Name() ==> 'a' <= c <= 'z';
    assert InvocationDirectory(ordinal, purpose)[0] == Decimal.Pad(ordinal, 3)[0];
  }

  lemma QualificationPartsArePlain(phase: string)
    requires phase in ["request", "version", "capability"]
    ensures PlainComponent("diagnostics") && PlainComponent("qualification") && PlainComponent(phase)
  {
    WordIsPlain("diagnostics");
    WordIsPlain("qualification");
    WordIsPlain(phase);
  }

  lemma WordIsPlain(word: string)
    requires word != "" && forall i :: 0 <= i < |word| ==> 'a' <= word[i] <= 'z'
    ensures PlainComponent(word)
  {
    assert word[0] != '.';
  }

  lemma InvocationPartsArePlain()
    ensures PlainComponent("diagnostics") && PlainComponent("attempts") && PlainComponent("invocations")
  {
    WordIsPlain("diagnostics");
    WordIsPlain("attempts");
    WordIsPlain("invocations");
  }

  lemma RawPartsArePlain(scope: Scope, name: RawName)
    requires scope.Valid() && name.Valid()
    ensures PlainComponents(RawParts(scope, name)) && RawParts(scope, name) != []
  {
    IdentifierIsPlainComponent(scope.sessionID, "s_");
    IdentifierIsPlainComponent(scope.runID, "r_");
    IdentifierIsPlainComponent(name.attemptID, "a_");
    FilesDiffer(name.stream, name.stream);
    match name.origin
    case Qualification(phase) => QualificationPartsArePlain(phase);
    case Invocation(ordinal, purpose) =>
      InvocationPartsArePlain();
      DirectoryIsPlain(ordinal, purpose);
  }

  lemma RawPartsBind(scope: Scope, a: RawName, b: RawName)
    requires a.Valid() && b.Valid()
    ensures RawParts(scope, a) == RawParts(scope, b) <==> a == b
  {
    var x, y := RawParts(scope, a), RawParts(scope, b);
    FilesDiffer(a.stream, b.stream);
    if a.origin.Invocation? && b.origin.Invocation? {
      DirectoryBinds(a.origin.ordinal, a.origin.purpose, b.origin.ordinal, b.origin.purpose);
      assert x[6] == InvocationDirectory(a.origin.ordinal, a.origin.purpose) && x[4] == a.attemptID && x[7] == a.stream.File();
      assert y[6] == InvocationDirectory(b.origin.ordinal, b.origin.purpose) && y[4] == b.attemptID && y[7] == b.stream.File();
    } else if a.origin.Qualification? && b.origin.Qualification? {
      assert x[5] == a.origin.phase && x[4] == a.attemptID && x[6] == a.stream.File();
      assert y[5] == b.origin.phase && y[4] == b.attemptID && y[6] == b.stream.File();
    } else {
      assert |x| != |y|;
    }
  }

  /** Every raw stream has a valid path of its own, in a directory of the invocation grammar: two
      names share a path only when they name the same stream of the same invocation. */
  lemma RawPathsBind(scope: Scope, a: RawName, b: RawName)
    requires scope.Valid() && a.Valid() && b.Valid()
    ensures ValidPath(RawPath(scope, a)) && Split(RawPath(scope, a), '/') == RawParts(scope, a)
    ensures RawPath(scope, a) == RawPath(scope, b) <==> a == b
    ensures a.origin.Invocation? ==>
              CanonicalInvocationDirectory(InvocationDirectory(a.origin.ordinal, a.origin.purpose))
  {
    RawPartsArePlain(scope, a);
    RawPartsArePlain(scope, b);
    JoinedIsPath(RawParts(scope, a));
    JoinedIsPath(RawParts(scope, b));
    RawPartsBind(scope, a, b);
    if a.origin.Invocation? {
      DirectoriesArePrinted(InvocationDirectory(a.origin.ordinal, a.origin.purpose));
    }
  }

  // ---------------------------------------------------------------- what is stored under a name

  function Lookup(raw: map<string, Bytes>, path: string): Option<Bytes> {
    if path in raw then Some(raw[path]) else None
  }

  /** What the calls store under a name, told by names alone: the bytes of the last call that
      stored something under it. */
  ghost function LastStored(scope: Scope, state: State, ops: seq<Op>, name: RawName, known: Option<Bytes>): Option<Bytes>
    decreases |ops|
  {
    if ops == [] then known
    else
      LastStored(scope, Step(scope, state, ops[0]).0, ops[1..], name,
                 if Stores(scope, state, ops[0], name) then Some(BytesOf(ops[0].request)) else known)
  }

  ghost predicate Stores(scope: Scope, state: State, op: Op, name: RawName) {
    op.Persist? && op.request.name == name && Step(scope, state, op).1.Stored?
  }

  function BytesOf(request: RawRequest): Bytes {
    match ReadLimited(request.source, request.Limit()) case Ok(bytes) => bytes case Err => []
  }

  lemma StepStores(scope: Scope, state: State, op: Op, name: RawName)
    requires scope.Valid() && name.Valid() && (op.Persist? ==> op.request.Valid())
    ensures Lookup(Step(scope, state, op).0.raw, RawPath(scope, name))
         == if Stores(scope, state, op, name) then Some(BytesOf(op.request)) else Lookup(state.raw, RawPath(scope, name))
  {
    if op.Persist? { RawPathsBind(scope, op.request.name, name); }
  }

  ghost predicate ValidOps(ops: seq<Op>) {
    forall i :: 0 <= i < |ops| && ops[i].Persist? ==> ops[i].request.Valid()
  }

  lemma {:induction false} RunStores(scope: Scope, state: State, ops: seq<Op>, name: RawName)
    requires scope.Valid() && name.Valid() && ValidOps(ops)
    ensures Lookup(Run(scope, state, ops).raw, RawPath(scope, name))
         == LastStored(scope, state, ops, name, Lookup(state.raw, RawPath(scope, name)))
    decreases |ops|
  {
    if ops != [] {
      StepStores(scope, state, ops[0], name);
      RunStores(scope, Step(scope, state, ops[0]).0, ops[1..], name);
    }
  }

  /** The streams share one map from paths, and yet none overwrites another: after any run, the
      path of a stream holds what was last stored for that very stream, or nothing. */
  lemma StreamsKeepApart(scope: Scope, ops: seq<Op>, name: RawName)
    requires scope.Valid() && name.Valid() && ValidOps(ops)
    ensures Lookup(Run(scope, EMPTY, ops).raw, RawPath(scope, name)) == LastStored(scope, EMPTY, ops, name, None)
  {
    RunStores(scope, EMPTY, ops, name);
  }

  /** A stream within its cap is stored whole, by an open sink, if and only if it is empty or the
      cap is not the largest 64-bit integer, to which no byte can be added.  Below that cap, a
      stream is never cut short: what is too long is dropped. */
  lemma StoredWhole(scope: Scope, state: State, request: RawRequest)
    requires request.Valid() && !state.finalized
    ensures var (next, outcome) := Step(scope, state, Persist(false, request));
            var path := RawPath(scope, request.name);
            && (|request.source.bytes| <= request.maxBytes && !request.source.breaks ==>
                  outcome == Stored(request.name.stream, path, |ReadLimited(request.source, request.Limit()).value|)
                  && (next.raw == state.raw[path := request.source.bytes] <==>
                        request.source.bytes == [] || request.maxBytes < MAX_INT64))
            && (request.maxBytes < MAX_INT64 ==>
                  && (outcome.Dropped? <==> |request.source.bytes| > request.maxBytes)
                  && (outcome.Dropped? ==>
                        outcome.drop == Drop(request.name.stream, "maximum_bytes_exceeded", 1, request.sourceIDs))
                  && (outcome.Aborted? <==> |request.source.bytes| <= request.maxBytes && request.source.breaks)
                  && (!outcome.Stored? ==> next == state))
  {
    var bytes, path := request.source.bytes, RawPath(scope, request.name);
    assert |bytes| <= request.maxBytes ==> bytes[..|bytes|] == bytes;
    if request.maxBytes == MAX_INT64 {
      assert state.raw[path := []][path] == [];
      assert state.raw[path := bytes][path] == bytes;
    }
  }

  /** The case that StoredWhole excludes: one byte within the largest cap is stored as nothing. */
  lemma LargestCapStoresNothing(scope: Scope, name: RawName)
    requires name.Valid()
    ensures var request := RawRequest(name, Source([65], false), MAX_INT64, []);
            && request.Valid() && |request.source.bytes| <= request.maxBytes
            && Step(scope, EMPTY, Persist(false, request)).0.raw == map[RawPath(scope, name) := []]
  {
  }

  // ---------------------------------------------------------------- the remaining outcomes

  /** Which raw requests can be made: of an attempt, for one of three qualification phases or a positive
      ordinal, under a positive cap of 63 bits. */
  lemma RequestsAsChecked(request: RawRequest)
    ensures request.Valid() <==>
              && ValidPrefixedUUIDv7(request.name.attemptID, "a_")
              && (request.name.origin.Qualification? ==> request.name.origin.phase in ["request", "version", "capability"])
              && (request.name.origin.Invocation? ==> request.name.origin.ordinal >= 1)
              && 1 <= request.maxBytes < 0x8000_0000_0000_0000
  {
  }

  /** When an event is recorded and what the caller gets, and when a status is accepted. */
  lemma CallOutcomes(scope: Scope, state: State, cancelled: bool, draft: Draft, reading: Reading)
    ensures var (next, outcome) := Step(scope, state, Emit(cancelled, draft, reading));
            var own := draft.sessionID == scope.sessionID && draft.runID == scope.runID;
            && (outcome.Succeeded() <==> !cancelled && !state.finalized && own && draft.valid && reading.stampable)
            && (outcome.Succeeded() ==> outcome.Emitted? && next.events == state.events + [outcome.event])
            && (!outcome.Succeeded() ==> outcome == Refused && next == state)
            && next.raw == state.raw && next.finalized == state.finalized
    ensures var (next, outcome) := Step(scope, state, ReplaceStatus(draft.sessionID, draft.runID));
            next == state
            && outcome == (if !state.finalized && draft.sessionID == scope.sessionID && draft.runID == scope.runID
                           then Replaced else Refused)
  {
  }

  /** Raw paths as they are spelled. */
  lemma QualificationPathText(scope: Scope, attemptID: string, phase: string)
    ensures RawPath(scope, RawName(attemptID, Qualification(phase), Stdout))
         == "diagnostics" + "/" + scope.sessionID + "/" + scope.runID + "/" + "qualification" + "/" + attemptID + "/" + phase
            + "/" + "stdout.raw"
  {
    var parts := RawParts(scope, RawName(attemptID, Qualification(phase), Stdout));
    assert parts == ["diagnostics", scope.sessionID, scope.runID, "qualification", attemptID, phase, "stdout.raw"];
    JoinOfSeven("diagnostics", scope.sessionID, scope.runID, "qualification", attemptID, phase, "stdout.raw");
  }

  lemma InvocationPathText(scope: Scope, attemptID: string, ordinal: nat, purpose: Purpose)
    ensures RawPath(scope, RawName(attemptID, Invocation(ordinal, purpose), Stderr))
         == "diagnostics" + "/"
            + (scope.sessionID + "/" + scope.runID + "/" + "attempts" + "/" + attemptID + "/" + "invocations" + "/"
               + InvocationDirectory(ordinal, purpose) + "/" + "stderr.raw")
  {
    var directory := InvocationDirectory(ordinal, purpose);
    var parts := RawParts(scope, RawName(attemptID, Invocation(ordinal, purpose), Stderr));
    var rest := [scope.sessionID, scope.runID, "attempts", attemptID, "invocations", directory, "stderr.raw"];
    assert parts == ["diagnostics"] + rest;
    JoinInTurn("diagnostics", rest);
    JoinOfSeven(scope.sessionID, scope.runID, "attempts", attemptID, "invocations", directory, "stderr.raw");
  }

  lemma JoinOfSeven(a: string, b: string, c: string, d: string, e: string, f: string, g: string)
    ensures Join([a, b, c, d, e, f, g], '/') == a + "/" + b + "/" + c + "/" + d + "/" + e + "/" + f + "/" + g
  {
    JoinInTurn(f, [g]);
    JoinInTurn(e, [f, g]);
    JoinInTurn(d, [e, f, g]);
    JoinInTurn(c, [d, e, f, g]);
    JoinInTurn(b, [c, d, e, f, g]);
    JoinInTurn(a, [b, c, d, e, f, g]);
  }
}
