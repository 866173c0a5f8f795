/** One-shot terminal bindings: the capability by which the holder of a workspace lease may clean
    the workspace up.  One acquirer, any number of binders and any number of callers of the bound
    operation share a state guarded by a mutex; each critical section is one atomic step. */
module TerminalBinding {
  import opened Prelude
  import opened TerminalReceipts

  // ---------------------------------------------------------------- the critical sections

  /** The state under the mutex.  `ended` is `released` or `drained`; `terminal` is the receipt a
      drained qualification workspace keeps. */
  datatype Shared = Shared(
    open: bool, bound: bool, acquired: bool, workspace: SnapshotIdentity, ended: bool, terminal: Option<Receipt>)

  const FRESH := Shared(true, false, false, NO_IDENTITY, false, None)

  predicate CanBind(shared: Shared, workspace: SnapshotIdentity, hasOperation: bool) {
    workspace.Valid() && hasOperation && shared.open && !shared.bound
  }

  function BindSection(shared: Shared, workspace: SnapshotIdentity, hasOperation: bool): Shared {
    if CanBind(shared, workspace, hasOperation) then shared.(bound := true, workspace := workspace) else shared
  }

  function CloseSection(shared: Shared): Shared {
    shared.(open := false)
  }

  function AcquireSection(shared: Shared): Shared {
    shared.(acquired := true)
  }

  /** What a call of the bound operation did: whether the cleanup ran, and the receipt if any. */
  datatype Ending = Ending(ran: bool, receipt: Option<Receipt>)

  /** The locked part of a release; `succeeds` is what releaseAndVerify will report. */
  function ReleaseSection(digest: string -> string, shared: Shared, completion: Completion, succeeds: bool): (Shared, Ending) {
    if !shared.acquired || !shared.bound || shared.ended then (shared, Ending(false, None))
    else if !succeeds then (shared, Ending(true, None))
    else (shared.(ended := true), Ending(true, Some(ReleaseReceiptOf(digest, completion))))
  }

  /** The locked part of a qualification drain; `succeeds` is what drainAndVerify will report. */
  function DrainSection(shared: Shared, succeeds: bool): (Shared, Ending) {
    if !shared.acquired || !shared.bound then (shared, Ending(false, None))
    else if shared.ended then (shared, Ending(false, shared.terminal))
    else if !succeeds then (shared, Ending(true, None))
    else
      var receipt := DrainReceipt(shared.workspace);
      (shared.(ended := true, terminal := Some(receipt)), Ending(true, Some(receipt)))
  }

  /** workspaceTerminalBindingState */
  class ReleaseBinding {
    const digest: string -> string
    var open: bool
    var bound: bool
    var acquired: bool
    var workspace: SnapshotIdentity
    var released: bool

    ghost function State(): Shared
      reads this
    {
      Shared(open, bound, acquired, workspace, released, None)
    }

    constructor (digest: string -> string)
      ensures State() == FRESH && this.digest == digest
    {
      this.digest := digest;
      open, bound, acquired, workspace, released := true, false, false, NO_IDENTITY, false;
    }

    method Bind(workspace: SnapshotIdentity, hasOperation: bool) returns (ok: bool)
      modifies this
      ensures ok <==> CanBind(old(State()), workspace, hasOperation)
      ensures State() == BindSection(old(State()), workspace, hasOperation)
    {
      if !workspace.Valid() || !hasOperation { return false; }
      if !open || bound { return false; }
      bound := true;
      this.workspace := workspace;
      ok := true;
    }

    method Close() returns (wasBound: bool, boundTo: SnapshotIdentity)
      modifies this
      ensures State() == CloseSection(old(State()))
      ensures wasBound == State().bound && boundTo == State().workspace
    {
      open := false;
      wasBound, boundTo := bound, workspace;
    }

    method Acquire()
      modifies this
      ensures State() == AcquireSection(old(State()))
    {
      acquired := true;
    }

    method Release(completion: Completion, succeeds: bool) returns (ending: Ending)
      modifies this
      ensures (State(), ending) == ReleaseSection(digest, old(State()), completion, succeeds)
    {
      if !acquired || !bound { return Ending(false, None); }
      if released { return Ending(false, None); }
      if !succeeds { return Ending(true, None); }
      released := true;
      ending := Ending(true, Some(ReleaseReceiptOf(digest, completion)));
    }
  }

  /** qualificationWorkspaceTerminalBindingState */
  class DrainBinding {
    var open: bool
    var bound: bool
    var acquired: bool
    var workspace: SnapshotIdentity
    var drained: bool
    var terminal: Option<Receipt>

    ghost function State(): Shared
      reads this
    {
      Shared(open, bound, acquired, workspace, drained, terminal)
    }

    constructor ()
      ensures State() == FRESH
    {
      open, bound, acquired, workspace, drained, terminal := true, false, false, NO_IDENTITY, false, None;
    }

    method Bind(workspace: SnapshotIdentity, hasOperation: bool) returns (ok: bool)
      modifies this
      ensures ok <==> CanBind(old(State()), workspace, hasOperation)
      ensures State() == BindSection(old(State()), workspace, hasOperation)
    {
      if !workspace.Valid() || !hasOperation { return false; }
      if !open || bound { return false; }
      bound := true;
      this.workspace := workspace;
      ok := true;
    }

    method Close() returns (wasBound: bool, boundTo: SnapshotIdentity)
      modifies this
      ensures State() == CloseSection(old(State()))
      ensures wasBound == State().bound && boundTo == State().workspace
    {
      open := false;
      wasBound, boundTo := bound, workspace;
    }

    method Acquire()
      modifies this
      ensures State() == AcquireSection(old(State()))
    {
      acquired := true;
    }

    method Drain(succeeds: bool) returns (ending: Ending)
      modifies this
      ensures (State(), ending) == DrainSection(old(State()), succeeds)
    {
      if !acquired || !bound { return Ending(false, None); }
      if drained { return Ending(false, terminal); }
      if !succeeds { return Ending(true, None); }
      terminal := Some(DrainReceipt(workspace));
      drained := true;
      ending := Ending(true, terminal);
    }
  }

  // ---------------------------------------------------------------- every interleaving

  /** What the acquisition callback returned. */
  datatype Returned = Failed | NoLease | Lease(workspace: SnapshotIdentity)

  /** Where the one acquirer stands, with the copies it took when it closed the binding. */
  datatype Acquirer = InCallback | Closed(returned: Returned, bound: bool, workspace: SnapshotIdentity) | Returning(lease: bool)

  datatype Event =
    | Bound(workspace: SnapshotIdentity)
    | Refused
    | CallbackClosed
    | LeaseReturned(workspace: SnapshotIdentity)
    | AcquisitionFailed
    | Checked(completion: Completion)
    | Ended(ending: Ending)

  /** Which of the two bindings the shared state belongs to. */
  datatype Kind = Releasing(digest: string -> string) | Draining

  /** `checked` holds the completions of calls that passed the check made before the lock. */
  datatype System = System(kind: Kind, shared: Shared, acquirer: Acquirer, checked: multiset<Completion>, log: seq<Event>)

  datatype Action =
    | DoBind(workspace: SnapshotIdentity, hasOperation: bool)
    | DoClose(returned: Returned)
    | DoDecide
    | DoCheck(completion: Completion)
    | DoEnd(completion: Completion, succeeds: bool)

  function Initial(kind: Kind): System {
    System(kind, FRESH, InCallback, multiset{}, [])
  }

  function Logged(system: System, event: Event): System {
    system.(log := system.log + [event])
  }

  predicate LeaseMatches(acquirer: Acquirer) {
    acquirer.Closed? && acquirer.bound && acquirer.returned.Lease? && acquirer.returned.workspace == acquirer.workspace
  }

  /** One atomic step.  An action that its thread cannot take changes nothing: closing happens
      once, deciding follows closing, and nobody holds the bound operation before it is bound. */
  function Step(system: System, action: Action): System {
    match action
    case DoBind(workspace, hasOperation) =>
      if CanBind(system.shared, workspace, hasOperation)
      then Logged(system.(shared := BindSection(system.shared, workspace, hasOperation)), Bound(workspace))
      else Logged(system, Refused)
    case DoClose(returned) =>
      if !system.acquirer.InCallback? then system
      else
        var shared := CloseSection(system.shared);
        Logged(system.(shared := shared, acquirer := Closed(returned, shared.bound, shared.workspace)), CallbackClosed)
    case DoDecide =>
      if !system.acquirer.Closed? then system
      else if LeaseMatches(system.acquirer)
      then Logged(system.(shared := AcquireSection(system.shared), acquirer := Returning(true)),
                  LeaseReturned(system.acquirer.workspace))
      else Logged(system.(acquirer := Returning(false)), AcquisitionFailed)
    case DoCheck(completion) =>
      if system.kind.Draining? || !system.shared.bound then system
      else if completion.Valid() && completion.workspace == system.shared.workspace
      then Logged(system.(checked := system.checked + multiset{completion}), Checked(completion))
      else Logged(system, Refused)
    case DoEnd(completion, succeeds) =>
      if system.kind.Draining? then
        if !system.shared.bound then system
        else
          var (shared, ending) := DrainSection(system.shared, succeeds);
          Logged(system.(shared := shared), Ended(ending))
      else if completion !in system.checked then system
      else
        var (shared, ending) := ReleaseSection(system.kind.digest, system.shared, completion, succeeds);
        Logged(system.(shared := shared, checked := system.checked - multiset{completion}), Ended(ending))
  }

  function Run(system: System, actions: seq<Action>): System
    decreases |actions|
  {
    if actions == [] then system else Step(Run(system, actions[..|actions| - 1]), actions[|actions| - 1])
  }

  // ---------------------------------------------------------------- what a log shows

  predicate Succeeded(event: Event) {
    event.Ended? && event.ending.ran && event.ending.receipt.Some?
  }

  /** A call of the bound operation that returned a receipt. */
  predicate HandsOut(event: Event) {
    event.Ended? && event.ending.receipt.Some?
  }

  /** A call of the bound operation that was not refused outright. */
  predicate TakesEffect(event: Event) {
    event.Ended? && (event.ending.ran || event.ending.receipt.Some?)
  }

  function Bindings(log: seq<Event>): seq<SnapshotIdentity> {
    if log == [] then []
    else
      var last := log[|log| - 1];
      Bindings(log[..|log| - 1]) + if last.Bound? then [last.workspace] else []
  }

  /** How often the cleanup ran and succeeded. */
  function Cleanups(log: seq<Event>): nat {
    if log == [] then 0
    else Cleanups(log[..|log| - 1]) + if Succeeded(log[|log| - 1]) then 1 else 0
  }

  ghost predicate BindingsPrecedeClosing(log: seq<Event>) {
    forall j, k :: 0 <= j < k < |log| && log[j].CallbackClosed? ==> !log[k].Bound?
  }

  ghost predicate LeasedBefore(log: seq<Event>, k: nat, workspace: SnapshotIdentity)
    requires k <= |log|
  {
    exists j :: 0 <= j < k && log[j] == LeaseReturned(workspace)
  }

  /** The cleanup ran, or a receipt was handed out, only after the lease had been returned; and
      whatever the receipt or the lease names is `workspace`. */
  ghost predicate EndingsFollowLease(log: seq<Event>, workspace: SnapshotIdentity) {
    forall k :: 0 <= k < |log| && TakesEffect(log[k]) ==>
      LeasedBefore(log, k, workspace)
      && (HandsOut(log[k]) ==> log[k].ending.receipt.value.workspace == workspace)
  }

  /** After one successful cleanup the cleanup never runs again. */
  ghost predicate NothingRunsAfterSuccess(log: seq<Event>) {
    forall j, k :: 0 <= j < k < |log| && Succeeded(log[j]) && log[k].Ended? ==> !log[k].ending.ran
  }

  ghost predicate SameReceipts(log: seq<Event>) {
    forall j, k :: 0 <= j < |log| && 0 <= k < |log| && HandsOut(log[j]) && HandsOut(log[k]) ==>
      log[j].ending.receipt == log[k].ending.receipt
  }

  // ---------------------------------------------------------------- the invariant

  ghost predicate AcquirerAgrees(system: System) {
    && (system.acquirer.InCallback? <==> system.shared.open)
    && (system.acquirer.Closed? ==>
          system.acquirer.bound == system.shared.bound && system.acquirer.workspace == system.shared.workspace)
    && (system.shared.acquired <==> system.acquirer == Returning(true))
    && (system.shared.acquired ==> system.shared.bound && LeasedBefore(system.log, |system.log|, system.shared.workspace))
    && (CallbackClosed in system.log <==> !system.shared.open)
  }

  ghost predicate LeasesNameBound(system: System) {
    && (forall k :: 0 <= k < |system.log| && system.log[k].LeaseReturned? ==>
          system.shared.acquired && system.log[k].workspace == system.shared.workspace)
    && (AcquisitionFailed in system.log ==> system.acquirer == Returning(false))
  }

  ghost predicate EndingAgrees(system: System) {
    && (system.shared.ended ==> system.shared.acquired)
    && Cleanups(system.log) == (if system.shared.ended then 1 else 0)
    && (!system.shared.ended ==> forall k :: 0 <= k < |system.log| ==> !Succeeded(system.log[k]))
    && (system.kind.Draining? ==>
          system.shared.terminal == (if system.shared.ended then Some(DrainReceipt(system.shared.workspace)) else None)
          && forall k :: 0 <= k < |system.log| && HandsOut(system.log[k]) ==>
               system.log[k].ending.receipt == Some(DrainReceipt(system.shared.workspace)))
  }

  ghost predicate Inv(system: System) {
    && AcquirerAgrees(system)
    && LeasesNameBound(system)
    && Bindings(system.log) == (if system.shared.bound then [system.shared.workspace] else [])
    && BindingsPrecedeClosing(system.log)
    && (forall completion :: completion in system.checked ==> completion.workspace == system.shared.workspace && system.shared.bound)
    && EndingsFollowLease(system.log, system.shared.workspace)
    && NothingRunsAfterSuccess(system.log)
    && EndingAgrees(system)
  }

  lemma LogGrows(log: seq<Event>, event: Event)
    ensures Bindings(log + [event]) == Bindings(log) + (if event.Bound? then [event.workspace] else [])
    ensures Cleanups(log + [event]) == Cleanups(log) + (if Succeeded(event) then 1 else 0)
    ensures forall k, w :: 0 <= k <= |log| && LeasedBefore(log, k, w) ==> LeasedBefore(log + [event], k, w)
    ensures forall w :: LeasedBefore(log, |log|, w) ==> LeasedBefore(log + [event], |log| + 1, w)
  {
    var grown := log + [event];
    assert grown[..|log|] == log;
    forall k, w | 0 <= k <= |log| && LeasedBefore(log, k, w) ensures LeasedBefore(grown, k, w) {
      var j :| 0 <= j < k && log[j] == LeaseReturned(w);
      assert grown[j] == LeaseReturned(w);
    }
    forall w | LeasedBefore(log, |log|, w) ensures LeasedBefore(grown, |log| + 1, w) {
      var j :| 0 <= j < |log| && log[j] == LeaseReturned(w);
      assert grown[j] == LeaseReturned(w);
    }
  }

  lemma EndingsGrow(log: seq<Event>, event: Event, workspace: SnapshotIdentity)
    requires EndingsFollowLease(log, workspace)
    requires TakesEffect(event) ==> LeasedBefore(log, |log|, workspace)
    requires HandsOut(event) ==> event.ending.receipt.value.workspace == workspace
    ensures EndingsFollowLease(log + [event], workspace)
  {
    LogGrows(log, event);
  }

  lemma ClosingGrows(log: seq<Event>, event: Event)
    requires BindingsPrecedeClosing(log) && (event.Bound? ==> CallbackClosed !in log)
    ensures BindingsPrecedeClosing(log + [event])
  {
  }

  lemma SuccessGrows(log: seq<Event>, event: Event)
    requires NothingRunsAfterSuccess(log)
    requires event.Ended? && event.ending.ran ==> forall k :: 0 <= k < |log| ==> !Succeeded(log[k])
    ensures NothingRunsAfterSuccess(log + [event])
  {
  }

  /** Nothing takes effect before the lease has been returned. */
  lemma NoEffectBeforeAcquisition(system: System)
    requires LeasesNameBound(system) && EndingsFollowLease(system.log, system.shared.workspace)
    requires !system.shared.acquired
    ensures forall k :: 0 <= k < |system.log| ==> !TakesEffect(system.log[k])
  {
  }

  /** Before the lease is returned the log is right whatever workspace is bound. */
  lemma AnyWorkspaceBefore(system: System, workspace: SnapshotIdentity)
    requires LeasesNameBound(system) && EndingsFollowLease(system.log, system.shared.workspace)
    requires !system.shared.acquired
    ensures EndingsFollowLease(system.log, workspace)
  {
    NoEffectBeforeAcquisition(system);
  }

  /** Events that change nothing but the log. */
  predicate Quiet(event: Event) {
    event.Refused? || event.Checked? || (event.Ended? && !TakesEffect(event))
  }

  lemma QuietAgrees(system: System, event: Event)
    requires AcquirerAgrees(system) && LeasesNameBound(system) && EndingAgrees(system) && Quiet(event)
    ensures AcquirerAgrees(Logged(system, event)) && LeasesNameBound(Logged(system, event))
            && EndingAgrees(Logged(system, event))
  {
    LogGrows(system.log, event);
  }

  lemma QuietKeeps(system: System, event: Event)
    requires Inv(system) && Quiet(event)
    ensures Inv(Logged(system, event))
  {
    LogGrows(system.log, event);
    EndingsGrow(system.log, event, system.shared.workspace);
    ClosingGrows(system.log, event);
    SuccessGrows(system.log, event);
    QuietAgrees(system, event);
  }

  function AfterBinding(system: System, workspace: SnapshotIdentity): System {
    Logged(system.(shared := system.shared.(bound := true, workspace := workspace)), Bound(workspace))
  }

  lemma BoundAcquirerAgrees(system: System, workspace: SnapshotIdentity)
    requires AcquirerAgrees(system) && system.shared.open
    ensures AcquirerAgrees(AfterBinding(system, workspace))
  {
    LogGrows(system.log, Bound(workspace));
    assert AfterBinding(system, workspace).log[|system.log|] == Bound(workspace);
  }

  lemma BoundLeasesAgree(system: System, workspace: SnapshotIdentity)
    requires AcquirerAgrees(system) && LeasesNameBound(system) && system.shared.open
    ensures LeasesNameBound(AfterBinding(system, workspace))
  {
    var grown := system.log + [Bound(workspace)];
    forall k | 0 <= k < |grown| ensures !grown[k].LeaseReturned? {
      if k < |system.log| { assert grown[k] == system.log[k]; }
    }
  }

  lemma BoundEndingAgrees(system: System, workspace: SnapshotIdentity)
    requires AcquirerAgrees(system) && LeasesNameBound(system) && EndingAgrees(system)
    requires system.shared.open && !system.shared.bound
    requires EndingsFollowLease(system.log, system.shared.workspace)
    ensures EndingAgrees(AfterBinding(system, workspace))
  {
    var grown := system.log + [Bound(workspace)];
    NoEffectBeforeAcquisition(system);
    LogGrows(system.log, Bound(workspace));
    forall k | 0 <= k < |grown| && HandsOut(grown[k]) ensures k < |system.log| && grown[k] == system.log[k] {
      assert !HandsOut(Bound(workspace));
    }
  }

  lemma BoundAgrees(system: System, workspace: SnapshotIdentity)
    requires AcquirerAgrees(system) && LeasesNameBound(system) && EndingAgrees(system)
    requires system.shared.open && !system.shared.bound
    requires EndingsFollowLease(system.log, system.shared.workspace)
    ensures var next := AfterBinding(system, workspace);
            AcquirerAgrees(next) && LeasesNameBound(next) && EndingAgrees(next)
  {
    BoundAcquirerAgrees(system, workspace);
    BoundLeasesAgree(system, workspace);
    BoundEndingAgrees(system, workspace);
  }

  lemma BindKeeps(system: System, workspace: SnapshotIdentity, hasOperation: bool)
    requires Inv(system)
    ensures Inv(Step(system, DoBind(workspace, hasOperation)))
  {
    if CanBind(system.shared, workspace, hasOperation) {
      var event := Bound(workspace);
      LogGrows(system.log, event);
      AnyWorkspaceBefore(system, workspace);
      EndingsGrow(system.log, event, workspace);
      ClosingGrows(system.log, event);
      SuccessGrows(system.log, event);
      BoundAgrees(system, workspace);
    } else {
      QuietKeeps(system, Refused);
    }
  }

  lemma CloseAcquirerAgrees(system: System, returned: Returned)
    requires AcquirerAgrees(system) && system.acquirer.InCallback?
    ensures AcquirerAgrees(Step(system, DoClose(returned)))
  {
    LogGrows(system.log, CallbackClosed);
    assert Step(system, DoClose(returned)).log[|system.log|] == CallbackClosed;
  }

  lemma CloseLeasesAgree(system: System, returned: Returned)
    requires AcquirerAgrees(system) && LeasesNameBound(system) && system.acquirer.InCallback?
    ensures LeasesNameBound(Step(system, DoClose(returned)))
  {
    var log := system.log + [CallbackClosed];
    forall k | 0 <= k < |log| ensures !log[k].LeaseReturned? {
      if k < |system.log| { assert log[k] == system.log[k]; }
    }
  }

  lemma CloseEndingAgrees(system: System, returned: Returned)
    requires EndingAgrees(system) && system.acquirer.InCallback?
    ensures EndingAgrees(Step(system, DoClose(returned)))
  {
    var grown := system.log + [CallbackClosed];
    LogGrows(system.log, CallbackClosed);
    forall k | 0 <= k < |grown| && HandsOut(grown[k]) ensures k < |system.log| && grown[k] == system.log[k] {
      assert !HandsOut(CallbackClosed);
    }
  }

  lemma CloseAgrees(system: System, returned: Returned)
    requires AcquirerAgrees(system) && LeasesNameBound(system) && EndingAgrees(system)
    requires system.acquirer.InCallback?
    ensures var next := Step(system, DoClose(returned));
            AcquirerAgrees(next) && LeasesNameBound(next) && EndingAgrees(next)
  {
    CloseAcquirerAgrees(system, returned);
    CloseLeasesAgree(system, returned);
    CloseEndingAgrees(system, returned);
  }

  lemma CloseKeeps(system: System, returned: Returned)
    requires Inv(system)
    ensures Inv(Step(system, DoClose(returned)))
  {
    if system.acquirer.InCallback? {
      var event := CallbackClosed;
      LogGrows(system.log, event);
      EndingsGrow(system.log, event, system.shared.workspace);
      ClosingGrows(system.log, event);
      SuccessGrows(system.log, event);
      CloseAgrees(system, returned);
    }
  }

  lemma DecideAgrees(system: System)
    requires AcquirerAgrees(system) && LeasesNameBound(system) && EndingAgrees(system)
    requires EndingsFollowLease(system.log, system.shared.workspace)
    requires system.acquirer.Closed?
    ensures var next := Step(system, DoDecide);
            AcquirerAgrees(next) && LeasesNameBound(next) && EndingAgrees(next)
  {
    var event := if LeaseMatches(system.acquirer) then LeaseReturned(system.acquirer.workspace) else AcquisitionFailed;
    LogGrows(system.log, event);
    NoEffectBeforeAcquisition(system);
    assert Step(system, DoDecide).log[|system.log|] == event;
  }

  lemma DecideKeeps(system: System)
    requires Inv(system)
    ensures Inv(Step(system, DoDecide))
  {
    if system.acquirer.Closed? {
      var event := if LeaseMatches(system.acquirer) then LeaseReturned(system.acquirer.workspace) else AcquisitionFailed;
      LogGrows(system.log, event);
      EndingsGrow(system.log, event, system.shared.workspace);
      ClosingGrows(system.log, event);
      SuccessGrows(system.log, event);
      DecideAgrees(system);
    }
  }

  lemma CheckedKeeps(system: System, checked: multiset<Completion>)
    requires Inv(system) && system.shared.bound
    requires forall completion :: completion in checked ==> completion.workspace == system.shared.workspace
    ensures Inv(system.(checked := checked))
  {
  }

  lemma CheckKeeps(system: System, completion: Completion)
    requires Inv(system)
    ensures Inv(Step(system, DoCheck(completion)))
  {
    if system.shared.bound {
      QuietKeeps(system, Refused);
      CheckedKeeps(system, system.checked);
      if completion.workspace == system.shared.workspace {
        var checked := system.checked + multiset{completion};
        CheckedKeeps(system, checked);
        QuietKeeps(system.(checked := checked), Checked(completion));
      }
    }
  }

  /** A call that ran the cleanup or handed out the kept receipt. */
  lemma EffectAgrees(system: System, shared: Shared, ending: Ending)
    requires AcquirerAgrees(system) && LeasesNameBound(system) && EndingAgrees(system) && system.shared.acquired
    requires shared == system.shared.(ended := shared.ended, terminal := shared.terminal)
    requires ending.ran ==> !system.shared.ended && (shared.ended <==> ending.receipt.Some?)
    requires !ending.ran ==> shared == system.shared
    requires system.kind.Draining? ==>
               (ending.receipt.Some? ==> ending.receipt == Some(DrainReceipt(system.shared.workspace)))
               && shared.terminal == (if shared.ended then Some(DrainReceipt(system.shared.workspace)) else None)
    ensures var next := Logged(system.(shared := shared), Ended(ending));
            AcquirerAgrees(next) && LeasesNameBound(next) && EndingAgrees(next)
  {
    LogGrows(system.log, Ended(ending));
  }

  lemma EffectKeeps(system: System, shared: Shared, ending: Ending)
    requires Inv(system) && system.shared.acquired
    requires shared == system.shared.(ended := shared.ended, terminal := shared.terminal)
    requires ending.ran ==> !system.shared.ended && (shared.ended <==> ending.receipt.Some?)
    requires !ending.ran ==> shared == system.shared
    requires ending.receipt.Some? ==> ending.receipt.value.workspace == system.shared.workspace
    requires system.kind.Draining? ==>
               (ending.receipt.Some? ==> ending.receipt == Some(DrainReceipt(system.shared.workspace)))
               && shared.terminal == (if shared.ended then Some(DrainReceipt(system.shared.workspace)) else None)
    ensures Inv(Logged(system.(shared := shared), Ended(ending)))
  {
    var event := Ended(ending);
    LogGrows(system.log, event);
    EndingsGrow(system.log, event, system.shared.workspace);
    ClosingGrows(system.log, event);
    SuccessGrows(system.log, event);
    EffectAgrees(system, shared, ending);
  }

  lemma DrainKeeps(system: System, succeeds: bool)
    requires Inv(system) && system.kind.Draining?
    ensures var (shared, ending) := DrainSection(system.shared, succeeds);
            Inv(Logged(system.(shared := shared), Ended(ending)))
  {
    var (shared, ending) := DrainSection(system.shared, succeeds);
    if system.shared.acquired {
      EffectKeeps(system, shared, ending);
    } else {
      QuietKeeps(system, Ended(ending));
    }
  }

  lemma ReleaseKeeps(system: System, completion: Completion, succeeds: bool)
    requires Inv(system) && system.kind.Releasing? && completion.workspace == system.shared.workspace
    ensures var (shared, ending) := ReleaseSection(system.kind.digest, system.shared, completion, succeeds);
            Inv(Logged(system.(shared := shared), Ended(ending)))
  {
    var (shared, ending) := ReleaseSection(system.kind.digest, system.shared, completion, succeeds);
    if system.shared.acquired {
      EffectKeeps(system, shared, ending);
    } else {
      QuietKeeps(system, Ended(ending));
    }
  }

  lemma EndKeeps(system: System, completion: Completion, succeeds: bool)
    requires Inv(system)
    ensures Inv(Step(system, DoEnd(completion, succeeds)))
  {
    if system.kind.Draining? {
      DrainKeeps(system, succeeds);
    } else if completion in system.checked {
      CheckedKeeps(system, system.checked - multiset{completion});
      ReleaseKeeps(system.(checked := system.checked - multiset{completion}), completion, succeeds);
    }
  }

  lemma StepKeeps(system: System, action: Action)
    requires Inv(system)
    ensures Inv(Step(system, action))
  {
    match action
    case DoBind(workspace, hasOperation) => BindKeeps(system, workspace, hasOperation);
    case DoClose(returned) => CloseKeeps(system, returned);
    case DoDecide => DecideKeeps(system);
    case DoCheck(completion) => CheckKeeps(system, completion);
    case DoEnd(completion, succeeds) => EndKeeps(system, completion, succeeds);
  }

  lemma {:induction false} RunKeeps(kind: Kind, actions: seq<Action>)
    ensures Inv(Run(Initial(kind), actions))
    decreases |actions|
  {
    if actions != [] {
      RunKeeps(kind, actions[..|actions| - 1]);
      StepKeeps(Run(Initial(kind), actions[..|actions| - 1]), actions[|actions| - 1]);
    }
  }

  // ---------------------------------------------------------------- over every interleaving

  /** Bind succeeds at most once, and only while the acquisition callback runs. */
  lemma BindsOnceWhileOpen(kind: Kind, actions: seq<Action>)
    ensures var system := Run(Initial(kind), actions);
            |Bindings(system.log)| <= 1 && BindingsPrecedeClosing(system.log)
  {
    RunKeeps(kind, actions);
  }

  lemma ClosedStays(system: System, action: Action)
    requires !system.shared.open
    ensures var shared := Step(system, action).shared;
            !shared.open && shared.bound == system.shared.bound && shared.workspace == system.shared.workspace
  {
  }

  /** What the acquirer read in its first critical section is still so in every later one. */
  lemma {:induction false} ClosingReadsAreFinal(system: System, more: seq<Action>)
    requires !system.shared.open
    ensures var shared := Run(system, more).shared;
            !shared.open && shared.bound == system.shared.bound && shared.workspace == system.shared.workspace
    decreases |more|
  {
    if more != [] {
      ClosingReadsAreFinal(system, more[..|more| - 1]);
      ClosedStays(Run(system, more[..|more| - 1]), more[|more| - 1]);
    }
  }

  /** No cleanup runs and no receipt is handed out before the lease has been returned; the lease
      and every receipt name the one bound workspace. */
  lemma EffectsFollowAcquisition(kind: Kind, actions: seq<Action>, k: nat)
    requires k < |Run(Initial(kind), actions).log| && TakesEffect(Run(Initial(kind), actions).log[k])
    ensures var log := Run(Initial(kind), actions).log;
            |Bindings(log)| == 1 && LeasedBefore(log, k, Bindings(log)[0])
            && (HandsOut(log[k]) ==> log[k].ending.receipt.value.workspace == Bindings(log)[0])
  {
    RunKeeps(kind, actions);
  }

  /** An acquisition that failed leaves a capability that never does anything. */
  lemma FailedAcquisitionHasNoEffect(kind: Kind, actions: seq<Action>)
    requires AcquisitionFailed in Run(Initial(kind), actions).log
    ensures var log := Run(Initial(kind), actions).log;
            forall k :: 0 <= k < |log| ==> !TakesEffect(log[k]) && !log[k].LeaseReturned?
  {
    RunKeeps(kind, actions);
    NoEffectBeforeAcquisition(Run(Initial(kind), actions));
  }

  /** The cleanup succeeds at most once, and never runs again after that. */
  lemma CleansUpOnce(kind: Kind, actions: seq<Action>)
    ensures var log := Run(Initial(kind), actions).log;
            Cleanups(log) <= 1 && NothingRunsAfterSuccess(log)
  {
    RunKeeps(kind, actions);
  }

  /** Every drain that succeeds returns the same receipt. */
  lemma DrainsAgree(actions: seq<Action>)
    ensures SameReceipts(Run(Initial(Draining), actions).log)
  {
    RunKeeps(Draining, actions);
    KindStays(Draining, actions);
  }

  lemma {:induction false} KindStays(kind: Kind, actions: seq<Action>)
    ensures Run(Initial(kind), actions).kind == kind
    decreases |actions|
  {
    if actions != [] { KindStays(kind, actions[..|actions| - 1]); }
  }

  // ---------------------------------------------------------------- what the actions decide

  /** What the callback returned: the first closing counts. */
  function ClosedBy(actions: seq<Action>): Option<Returned>
    decreases |actions|
  {
    if actions == [] then None
    else
      var front, last := actions[..|actions| - 1], actions[|actions| - 1];
      if ClosedBy(front).Some? then ClosedBy(front) else if last.DoClose? then Some(last.returned) else None
  }

  /** The first valid workspace that is offered with an operation before the closing. */
  function Offered(actions: seq<Action>): Option<SnapshotIdentity>
    decreases |actions|
  {
    if actions == [] then None
    else
      var front, last := actions[..|actions| - 1], actions[|actions| - 1];
      if Offered(front).Some? then Offered(front)
      else if last.DoBind? && last.workspace.Valid() && last.hasOperation && ClosedBy(front).None? then Some(last.workspace)
      else None
  }

  /** The acquirer decided: it can do so once it has closed the binding. */
  predicate Decided(actions: seq<Action>)
    decreases |actions|
  {
    actions != []
    && var front, last := actions[..|actions| - 1], actions[|actions| - 1];
       Decided(front) || (last.DoDecide? && ClosedBy(front).Some?)
  }

  /** The callback returned a lease on the very workspace it had bound. */
  predicate Matches(offered: Option<SnapshotIdentity>, closed: Option<Returned>) {
    offered.Some? && closed == Some(Lease(offered.value))
  }

  ghost predicate StateReflects(actions: seq<Action>, system: System) {
    var offered, closed := Offered(actions), ClosedBy(actions);
    && (system.shared.open <==> closed.None?) && (system.shared.bound <==> offered.Some?)
    && (offered.Some? ==> system.shared.workspace == offered.value)
    && (closed.None? ==> system.acquirer == InCallback)
    && (closed.Some? && !Decided(actions) ==>
          system.acquirer == Closed(closed.value, system.shared.bound, system.shared.workspace))
    && (Decided(actions) ==> closed.Some? && system.acquirer == Returning(Matches(offered, closed)))
  }

  ghost predicate LogReflects(actions: seq<Action>, log: seq<Event>) {
    var offered, closed := Offered(actions), ClosedBy(actions);
    && Bindings(log) == (if offered.Some? then [offered.value] else [])
    && (CallbackClosed in log <==> closed.Some?)
    && (forall w :: LeaseReturned(w) in log <==> Decided(actions) && Matches(offered, closed) && offered == Some(w))
    && (AcquisitionFailed in log <==> Decided(actions) && !Matches(offered, closed))
  }

  lemma SameReflection(a: seq<Action>, b: seq<Action>, log: seq<Event>)
    requires Offered(a) == Offered(b) && ClosedBy(a) == ClosedBy(b) && Decided(a) == Decided(b)
    ensures LogReflects(a, log) <==> LogReflects(b, log)
  {
  }

  lemma CallLogReflects(actions: seq<Action>, log: seq<Event>, event: Event)
    requires LogReflects(actions, log) && (event.Refused? || event.Checked? || event.Ended?)
    ensures LogReflects(actions, log + [event])
  {
    LogGrows(log, event);
  }

  lemma BindReflects(actions: seq<Action>, system: System, action: Action)
    requires StateReflects(actions, system) && LogReflects(actions, system.log) && action.DoBind?
    ensures StateReflects(actions + [action], Step(system, action)) && LogReflects(actions + [action], Step(system, action).log)
  {
    assert (actions + [action])[..|actions|] == actions;
    if CanBind(system.shared, action.workspace, action.hasOperation) {
      LogGrows(system.log, Bound(action.workspace));
    } else {
      CallLogReflects(actions, system.log, Refused);
      SameReflection(actions, actions + [action], system.log + [Refused]);
    }
  }

  lemma CloseReflects(actions: seq<Action>, system: System, action: Action)
    requires StateReflects(actions, system) && LogReflects(actions, system.log) && action.DoClose?
    ensures StateReflects(actions + [action], Step(system, action)) && LogReflects(actions + [action], Step(system, action).log)
  {
    assert (actions + [action])[..|actions|] == actions;
    LogGrows(system.log, CallbackClosed);
  }

  lemma DecidingDecides(actions: seq<Action>)
    ensures Offered(actions + [DoDecide]) == Offered(actions) && ClosedBy(actions + [DoDecide]) == ClosedBy(actions)
    ensures Decided(actions + [DoDecide]) <==> Decided(actions) || ClosedBy(actions).Some?
  {
    assert (actions + [DoDecide])[..|actions|] == actions;
  }

  function Verdict(actions: seq<Action>): Event
  {
    if Matches(Offered(actions), ClosedBy(actions)) then LeaseReturned(Offered(actions).value) else AcquisitionFailed
  }

  lemma VerdictLogReflects(actions: seq<Action>, log: seq<Event>)
    requires LogReflects(actions, log) && !Decided(actions) && ClosedBy(actions).Some?
    ensures LogReflects(actions + [DoDecide], log + [Verdict(actions)])
  {
    DecidingDecides(actions);
    LogGrows(log, Verdict(actions));
  }

  lemma VerdictIsReached(actions: seq<Action>, system: System)
    requires StateReflects(actions, system)
    ensures var next := Step(system, DoDecide);
            if ClosedBy(actions).Some? && !Decided(actions)
            then next.log == system.log + [Verdict(actions)]
                 && next.acquirer == Returning(Matches(Offered(actions), ClosedBy(actions)))
                 && next.shared == system.shared.(acquired := next.shared.acquired)
            else next == system
  {
  }

  lemma DecideReflects(actions: seq<Action>, system: System)
    requires StateReflects(actions, system) && LogReflects(actions, system.log)
    ensures StateReflects(actions + [DoDecide], Step(system, DoDecide))
    ensures LogReflects(actions + [DoDecide], Step(system, DoDecide).log)
  {
    DecidingDecides(actions);
    VerdictIsReached(actions, system);
    if ClosedBy(actions).Some? && !Decided(actions) {
      VerdictLogReflects(actions, system.log);
    } else {
      SameReflection(actions, actions + [DoDecide], system.log);
    }
  }

  lemma CallsDecideNothing(actions: seq<Action>, action: Action)
    requires action.DoCheck? || action.DoEnd?
    ensures Offered(actions + [action]) == Offered(actions) && ClosedBy(actions + [action]) == ClosedBy(actions)
    ensures Decided(actions + [action]) == Decided(actions)
  {
    assert (actions + [action])[..|actions|] == actions;
  }

  lemma CallLogs(system: System, action: Action)
    requires action.DoCheck? || action.DoEnd?
    ensures var next := Step(system, action);
            && next.acquirer == system.acquirer && next.shared.open == system.shared.open
            && next.shared.bound == system.shared.bound && next.shared.workspace == system.shared.workspace
            && (next.log == system.log
                || (|next.log| > |system.log|
                    && var event := next.log[|system.log|];
                       next.log == system.log + [event] && (event.Refused? || event.Checked? || event.Ended?)))
  {
  }

  lemma CallReflects(actions: seq<Action>, system: System, action: Action)
    requires StateReflects(actions, system) && LogReflects(actions, system.log) && (action.DoCheck? || action.DoEnd?)
    ensures StateReflects(actions + [action], Step(system, action)) && LogReflects(actions + [action], Step(system, action).log)
  {
    CallsDecideNothing(actions, action);
    CallLogs(system, action);
    var log := Step(system, action).log;
    if log != system.log { CallLogReflects(actions, system.log, log[|system.log|]); }
    SameReflection(actions, actions + [action], log);
  }

  lemma StepReflects(actions: seq<Action>, system: System, action: Action)
    requires StateReflects(actions, system) && LogReflects(actions, system.log)
    ensures StateReflects(actions + [action], Step(system, action)) && LogReflects(actions + [action], Step(system, action).log)
  {
    match action
    case DoBind(_, _) => BindReflects(actions, system, action);
    case DoClose(_) => CloseReflects(actions, system, action);
    case DoDecide => DecideReflects(actions, system);
    case _ => CallReflects(actions, system, action);
  }

  lemma {:induction false} RunReflects(kind: Kind, actions: seq<Action>)
    ensures StateReflects(actions, Run(Initial(kind), actions)) && LogReflects(actions, Run(Initial(kind), actions).log)
    decreases |actions|
  {
    if actions != [] {
      var front, last := actions[..|actions| - 1], actions[|actions| - 1];
      RunReflects(kind, front);
      assert actions == front + [last];
      StepReflects(front, Run(Initial(kind), front), last);
    }
  }

  /** What happens is settled by what the threads do: the first valid offer before the closing is
      bound and nothing else; the lease is returned exactly when the callback returned a lease on
      that workspace, and after every other closing the acquisition fails. */
  lemma ActionsDecide(kind: Kind, actions: seq<Action>)
    ensures LogReflects(actions, Run(Initial(kind), actions).log)
  {
    RunReflects(kind, actions);
  }

  /** A callback that fails, returns no lease or one on another workspace, or binds nothing leaves a
      capability that never does anything. */
  lemma OnlyMatchingLeaseHasEffect(kind: Kind, actions: seq<Action>, k: nat)
    requires k < |Run(Initial(kind), actions).log| && TakesEffect(Run(Initial(kind), actions).log[k])
    ensures Decided(actions) && Matches(Offered(actions), ClosedBy(actions))
  {
    var log := Run(Initial(kind), actions).log;
    EffectsFollowAcquisition(kind, actions, k);
    RunReflects(kind, actions);
    var j :| 0 <= j < k && log[j] == LeaseReturned(Bindings(log)[0]);
    assert LeaseReturned(Bindings(log)[0]) in log;
  }

  ghost predicate HasSucceeded(log: seq<Event>) {
    exists k :: 0 <= k < |log| && Succeeded(log[k])
  }

  lemma {:induction false} CleanupsCountSuccesses(log: seq<Event>)
    ensures Cleanups(log) > 0 <==> HasSucceeded(log)
  {
    if log != [] {
      var front := log[..|log| - 1];
      CleanupsCountSuccesses(front);
      if HasSucceeded(front) {
        var k :| 0 <= k < |front| && Succeeded(front[k]);
        assert Succeeded(log[k]);
      }
      if HasSucceeded(log) && !Succeeded(log[|log| - 1]) {
        var k :| 0 <= k < |log| && Succeeded(log[k]);
        assert Succeeded(front[k]);
      }
    }
  }

  /** What a call of the bound operation does, told by the actions and the log alone.  The cleanup
      runs exactly when the lease is out and no cleanup has succeeded; a release hands out a receipt
      exactly when its cleanup ran and worked, and a drain also whenever an earlier one did. */
  lemma CallDecides(kind: Kind, actions: seq<Action>, completion: Completion, succeeds: bool)
    requires var system := Run(Initial(kind), actions);
             if kind.Draining? then Offered(actions).Some? else completion in system.checked
    ensures var system := Run(Initial(kind), actions);
            var leased := Decided(actions) && Matches(Offered(actions), ClosedBy(actions));
            var done := HasSucceeded(system.log);
            var log := Step(system, DoEnd(completion, succeeds)).log;
            && |log| == |system.log| + 1 && log[..|system.log|] == system.log && log[|system.log|].Ended?
            && var ending := log[|system.log|].ending;
               && (ending.ran <==> leased && !done)
               && (ending.receipt.Some? <==> leased && if done then kind.Draining? else succeeds)
  {
    var system := Run(Initial(kind), actions);
    RunKeeps(kind, actions);
    KindStays(kind, actions);
    RunReflects(kind, actions);
    CleanupsCountSuccesses(system.log);
  }

  /** Which calls of a release get past the check made before the lock. */
  lemma CheckDecides(digest: string -> string, actions: seq<Action>, completion: Completion)
    requires Offered(actions).Some?
    ensures var system := Run(Initial(Releasing(digest)), actions);
            var next := Step(system, DoCheck(completion));
            var admitted := completion.Valid() && Offered(actions) == Some(completion.workspace);
            && next.checked == (if admitted then system.checked + multiset{completion} else system.checked)
            && next.log == system.log + [if admitted then Checked(completion) else Refused]
            && next.shared == system.shared
  {
    KindStays(Releasing(digest), actions);
    RunReflects(Releasing(digest), actions);
  }

  // ---------------------------------------------------------------- what release receipts show

  /** The receipt validates and is of a completion that had been checked before. */
  ghost predicate Attested(digest: string -> string, log: seq<Event>, k: nat)
    requires k < |log| && HandsOut(log[k])
  {
    var receipt := log[k].ending.receipt.value;
    && receipt.ReleaseReceipt? && receipt.Valid(digest)
    && Checked(Completion(receipt.workspace, receipt.runID, receipt.terminal)) in log[..k]
  }

  ghost predicate ReceiptsAttested(digest: string -> string, system: System) {
    && (forall completion :: completion in system.checked ==> completion.Valid() && Checked(completion) in system.log)
    && forall k :: 0 <= k < |system.log| && HandsOut(system.log[k]) ==> Attested(digest, system.log, k)
  }

  lemma AttestedGrows(digest: string -> string, log: seq<Event>, event: Event)
    requires forall k :: 0 <= k < |log| && HandsOut(log[k]) ==> Attested(digest, log, k)
    requires HandsOut(event) ==>
               var receipt := event.ending.receipt.value;
               && receipt.ReleaseReceipt? && receipt.Valid(digest)
               && Checked(Completion(receipt.workspace, receipt.runID, receipt.terminal)) in log
    ensures forall k :: 0 <= k < |log + [event]| && HandsOut((log + [event])[k]) ==> Attested(digest, log + [event], k)
  {
    forall k | 0 <= k < |log + [event]| && HandsOut((log + [event])[k]) ensures Attested(digest, log + [event], k) {
      assert (log + [event])[..k] == log[..k];
      if k < |log| { assert Attested(digest, log, k); } else { assert log[..k] == log; }
    }
  }

  lemma LoggedAttests(digest: string -> string, system: System, next: System, event: Event)
    requires ReceiptsAttested(digest, system) && next.log == system.log + [event]
    requires forall completion :: completion in next.checked ==>
               completion in system.checked || (completion.Valid() && event == Checked(completion))
    requires HandsOut(event) ==>
               var receipt := event.ending.receipt.value;
               && receipt.ReleaseReceipt? && receipt.Valid(digest)
               && Checked(Completion(receipt.workspace, receipt.runID, receipt.terminal)) in system.log
    ensures ReceiptsAttested(digest, next)
  {
    AttestedGrows(digest, system.log, event);
  }

  lemma EndAttests(digest: string -> string, system: System, completion: Completion, succeeds: bool)
    requires system.kind == Releasing(digest) && ReceiptsAttested(digest, system)
    ensures ReceiptsAttested(digest, Step(system, DoEnd(completion, succeeds)))
  {
    if completion in system.checked {
      var (_, ending) := ReleaseSection(digest, system.shared, completion, succeeds);
      LoggedAttests(digest, system, Step(system, DoEnd(completion, succeeds)), Ended(ending));
    }
  }

  lemma CheckAttests(digest: string -> string, system: System, completion: Completion)
    requires ReceiptsAttested(digest, system)
    ensures ReceiptsAttested(digest, Step(system, DoCheck(completion)))
  {
    var next := Step(system, DoCheck(completion));
    if next.log != system.log {
      LoggedAttests(digest, system, next, next.log[|system.log|]);
    }
  }

  lemma StepAttests(digest: string -> string, system: System, action: Action)
    requires system.kind == Releasing(digest) && ReceiptsAttested(digest, system)
    ensures ReceiptsAttested(digest, Step(system, action))
  {
    match action
    case DoEnd(completion, succeeds) => EndAttests(digest, system, completion, succeeds);
    case DoCheck(completion) => CheckAttests(digest, system, completion);
    case DoBind(workspace, hasOperation) =>
      var event := if CanBind(system.shared, workspace, hasOperation) then Bound(workspace) else Refused;
      LoggedAttests(digest, system, Step(system, action), event);
    case DoClose(_) =>
      if system.acquirer.InCallback? { LoggedAttests(digest, system, Step(system, action), CallbackClosed); }
    case DoDecide =>
      if system.acquirer.Closed? {
        var event := if LeaseMatches(system.acquirer) then LeaseReturned(system.acquirer.workspace) else AcquisitionFailed;
        LoggedAttests(digest, system, Step(system, action), event);
      }
  }

  lemma {:induction false} RunAttests(digest: string -> string, actions: seq<Action>)
    ensures ReceiptsAttested(digest, Run(Initial(Releasing(digest)), actions))
    decreases |actions|
  {
    if actions != [] {
      RunAttests(digest, actions[..|actions| - 1]);
      KindStays(Releasing(digest), actions[..|actions| - 1]);
      StepAttests(digest, Run(Initial(Releasing(digest)), actions[..|actions| - 1]), actions[|actions| - 1]);
    }
  }

  /** In every interleaving the receipt of a release validates, so that its identifier is the one
      of its own contents, and shows a completion that was checked before it was handed out. */
  lemma ReceiptsAreAttested(digest: string -> string, actions: seq<Action>, k: nat)
    requires var log := Run(Initial(Releasing(digest)), actions).log; k < |log| && HandsOut(log[k])
    ensures Attested(digest, Run(Initial(Releasing(digest)), actions).log, k)
  {
    RunAttests(digest, actions);
  }

  /** The capability is live: once the lease is out and nothing has succeeded yet, a checked call
      whose cleanup works gets the receipt, and one whose cleanup fails may be repeated. */
  lemma CleanupIsAvailable(digest: string -> string, actions: seq<Action>, completion: Completion)
    requires var system := Run(Initial(Releasing(digest)), actions);
             system.shared.acquired && !system.shared.ended && completion in system.checked
    ensures var system := Run(Initial(Releasing(digest)), actions);
            && Step(system, DoEnd(completion, true)).log == system.log + [Ended(Ending(true, Some(ReleaseReceiptOf(digest, completion))))]
            && Step(system, DoEnd(completion, false)).shared == system.shared
  {
    RunKeeps(Releasing(digest), actions);
    KindStays(Releasing(digest), actions);
  }

  /** Binding, returning the matching lease and draining: the run that the protocol is for. */
  lemma DrainSucceeds(workspace: SnapshotIdentity, completion: Completion)
    requires workspace.Valid()
    ensures var system := Run(Initial(Draining), [DoBind(workspace, true), DoClose(Lease(workspace)), DoDecide,
                                                  DoEnd(completion, true), DoEnd(completion, true)]);
            system.log == [Bound(workspace), CallbackClosed, LeaseReturned(workspace),
                           Ended(Ending(true, Some(DrainReceipt(workspace)))),
                           Ended(Ending(false, Some(DrainReceipt(workspace))))]
  {
    var a := [DoBind(workspace, true), DoClose(Lease(workspace)), DoDecide, DoEnd(completion, true), DoEnd(completion, true)];
    assert a[..4] == a[..5][..4] && a[..3] == a[..4][..3] && a[..2] == a[..3][..2] && a[..1] == a[..2][..1];
    assert Run(Initial(Draining), a[..1][..0]) == Initial(Draining);
    assert Run(Initial(Draining), a[..1]).log == [Bound(workspace)];
    assert Run(Initial(Draining), a[..2]).log == [Bound(workspace), CallbackClosed];
    assert Run(Initial(Draining), a[..3]).log == [Bound(workspace), CallbackClosed, LeaseReturned(workspace)];
    assert a[..5] == a;
  }
}
