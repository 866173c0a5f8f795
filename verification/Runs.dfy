/** A review run and its role tasks. */
module Runs {
  import opened Prelude
  import opened Sorting
  import opened Paths

  datatype Role = Logic | Security | Maintainability | Product | Documentation | Testing | Artist {
    predicate RequiredFloor() { Logic? }

    /** The position in the fixed role order. */
    function Position(): nat {
      match this
      case Logic => 0 case Security => 1 case Maintainability => 2 case Product => 3
      case Documentation => 4 case Testing => 5 case Artist => 6
    }
  }

  const FIXED_ORDER := [Logic, Security, Maintainability, Product, Documentation, Testing, Artist]

  datatype TaskState = Pending | PrimaryQueued | PrimaryRunning | TaskSucceeded | TaskFailed | TaskCancelled | TaskBlocked {
    predicate CanTransition(next: TaskState) {
      match this
      case Pending => next in {PrimaryQueued, TaskCancelled, TaskBlocked}
      case PrimaryQueued => next in {PrimaryRunning, TaskCancelled, TaskBlocked}
      case PrimaryRunning => next in {TaskSucceeded, TaskFailed, TaskCancelled}
      case _ => false
    }

    predicate Terminal() { this in {TaskSucceeded, TaskFailed, TaskCancelled, TaskBlocked} }
  }

  datatype RunState = RunPending | Running | Completed | Degraded | Failed | Cancelled {
    predicate CanTransition(next: RunState) {
      match this
      case RunPending => next in {Running, Cancelled}
      case Running => next in {Completed, Degraded, Failed, Cancelled}
      case _ => false
    }

    predicate Terminal() { this != RunPending && this != Running }
  }

  datatype RoleTask = RoleTask(role: Role, required: bool, state: TaskState, provider: string)

  /** NewRoleTask: the required floor is required whatever the caller asks for, and the provider is
      kept trimmed.  White-space trimming is a parameter. */
  function NewRoleTask(trim: string -> string, role: Role, required: bool, provider: string): Result<RoleTask> {
    if trim(provider) == "" then Err else Ok(RoleTask(role, required || role.RequiredFloor(), Pending, trim(provider)))
  }

  /** What a new task is: pending, with the trimmed provider, which must not be empty, and required if
      it was asked to be or is of the floor. */
  lemma NewTaskMeans(trim: string -> string, role: Role, required: bool, provider: string)
    ensures NewRoleTask(trim, role, required, provider).Ok? <==> trim(provider) != ""
    ensures NewRoleTask(trim, role, required, provider).Ok? ==>
              var task := NewRoleTask(trim, role, required, provider).value;
              && task.role == role && task.provider == trim(provider) && task.state == Pending
              && (task.required <==> required || role == Logic)
  {
  }

  /** The task came out of NewRoleTask, the only constructor there is. */
  ghost predicate Built(trim: string -> string, task: RoleTask) {
    exists role, required, provider :: NewRoleTask(trim, role, required, provider) == Ok(task)
  }

  // ---------------------------------------------------------------- the roles of a new run

  ghost predicate Ordered(tasks: seq<RoleTask>) {
    forall i, j :: 0 <= i < j < |tasks| ==> tasks[i].role.Position() < tasks[j].role.Position()
  }

  ghost predicate FloorIsRequired(tasks: seq<RoleTask>) {
    forall i :: 0 <= i < |tasks| ==> tasks[i].role.RequiredFloor() ==> tasks[i].required
  }

  ghost predicate AllPending(tasks: seq<RoleTask>) {
    forall i :: 0 <= i < |tasks| ==> tasks[i].state == Pending
  }

  ghost predicate DistinctRoles(tasks: seq<RoleTask>) {
    forall i, j :: 0 <= i < j < |tasks| ==> tasks[i].role != tasks[j].role
  }

  ghost predicate Acceptable(tasks: seq<RoleTask>) {
    tasks != [] && FloorIsRequired(tasks) && AllPending(tasks) && DistinctRoles(tasks)
  }

  /** The tasks seen so far, by role. */
  ghost predicate Sees(seen: map<Role, RoleTask>, tasks: seq<RoleTask>) {
    && (forall i :: 0 <= i < |tasks| ==> tasks[i].role in seen && seen[tasks[i].role] == tasks[i])
    && (forall role :: role in seen ==> seen[role] in tasks && seen[role].role == role)
  }

  /** Accepts exactly non-empty lists of distinct pending roles whose floor is required, and puts
      them in the fixed order. */
  method ValidateRoleTasks(tasks: seq<RoleTask>) returns (result: Result<seq<RoleTask>>)
    ensures result.Ok? <==> Acceptable(tasks)
    ensures result.Ok? ==> multiset(result.value) == multiset(tasks) && Ordered(result.value)
  {
    if |tasks| == 0 { return Err; }
    var seen: map<Role, RoleTask> := map[];
    for i := 0 to |tasks|
      invariant Sees(seen, tasks[..i])
      invariant FloorIsRequired(tasks[..i]) && AllPending(tasks[..i]) && DistinctRoles(tasks[..i])
    {
      var task := tasks[i];
      assert tasks[..i + 1] == tasks[..i] + [task];
      if task.role.RequiredFloor() && !task.required { return Err; }
      if task.state != Pending { return Err; }
      if task.role in seen {
        SeenTwice(seen, tasks, i);
        return Err;
      }
      seen := seen[task.role := task];
    }
    assert tasks[..|tasks|] == tasks;
    var canonical := InFixedOrder(seen);
    CanonicalPermutes(seen, tasks, canonical);
    result := Ok(canonical);
  }

  /** For tasks that were built, only their number and their roles are left to check. */
  lemma BuiltTasksAreAcceptable(trim: string -> string, tasks: seq<RoleTask>)
    requires forall i :: 0 <= i < |tasks| ==> Built(trim, tasks[i])
    ensures Acceptable(tasks) <==> tasks != [] && DistinctRoles(tasks)
    ensures |tasks| == 1 ==> Fresh(Data(RunPending, tasks))
  {
    forall i | 0 <= i < |tasks| ensures tasks[i].state == Pending && (tasks[i].role.RequiredFloor() ==> tasks[i].required) {
      assert Built(trim, tasks[i]);
    }
  }

  lemma SeenTwice(seen: map<Role, RoleTask>, tasks: seq<RoleTask>, i: nat)
    requires i < |tasks| && Sees(seen, tasks[..i]) && tasks[i].role in seen
    ensures !DistinctRoles(tasks)
  {
    var j :| 0 <= j < |tasks[..i]| && tasks[..i][j] == seen[tasks[i].role];
    assert tasks[j].role == tasks[i].role;
  }

  method InFixedOrder(seen: map<Role, RoleTask>) returns (canonical: seq<RoleTask>)
    requires forall role :: role in seen ==> seen[role].role == role
    ensures Ordered(canonical) && forall task :: task in canonical <==> task.role in seen && seen[task.role] == task
  {
    canonical := [];
    for i := 0 to |FIXED_ORDER|
      invariant Ordered(canonical)
      invariant forall task :: task in canonical ==> task.role.Position() < i && task.role in seen && seen[task.role] == task
      invariant forall role :: role in seen && role.Position() < i ==> seen[role] in canonical
    {
      assert FIXED_ORDER[i].Position() == i;
      assert forall role: Role :: role.Position() == i ==> role == FIXED_ORDER[i];
      if FIXED_ORDER[i] in seen {
        assert forall k :: 0 <= k < |canonical| ==> canonical[k] in canonical;
        canonical := canonical + [seen[FIXED_ORDER[i]]];
      }
    }
  }

  lemma CanonicalPermutes(seen: map<Role, RoleTask>, tasks: seq<RoleTask>, canonical: seq<RoleTask>)
    requires Sees(seen, tasks) && DistinctRoles(tasks) && Ordered(canonical)
    requires forall task :: task in canonical <==> task.role in seen && seen[task.role] == task
    ensures multiset(canonical) == multiset(tasks)
  {
    SameMembersPermute(canonical, tasks);
  }

  // ---------------------------------------------------------------- one operation

  datatype Data = Data(state: RunState, roles: seq<RoleTask>)

  datatype Op = TransitionTo(next: RunState) | TransitionRole(role: Role, to: TaskState)

  predicate MayComplete(roles: seq<RoleTask>) {
    forall i :: 0 <= i < |roles| ==> roles[i].state == TaskSucceeded
  }

  predicate MayDegrade(roles: seq<RoleTask>) {
    && (forall i :: 0 <= i < |roles| ==> roles[i].state.Terminal() && (roles[i].required ==> roles[i].state == TaskSucceeded))
    && (exists i :: 0 <= i < |roles| && !roles[i].required && roles[i].state != TaskSucceeded)
  }

  predicate MayEnter(data: Data, next: RunState) {
    data.state.CanTransition(next)
    && (next == Completed ==> MayComplete(data.roles))
    && (next == Degraded ==> MayDegrade(data.roles))
  }

  /** The first task of the role. */
  function IndexOf(roles: seq<RoleTask>, role: Role): (index: nat)
    ensures index <= |roles| && (index < |roles| ==> roles[index].role == role)
    ensures forall i :: 0 <= i < index ==> roles[i].role != role
  {
    if roles == [] || roles[0].role == role then 0 else 1 + IndexOf(roles[1..], role)
  }

  function Step(data: Data, op: Op): Result<Data> {
    match op
    case TransitionTo(next) => if MayEnter(data, next) then Ok(data.(state := next)) else Err
    case TransitionRole(role, to) =>
      var index := IndexOf(data.roles, role);
      if data.state == Running && index < |data.roles| && data.roles[index].state.CanTransition(to)
      then Ok(data.(roles := data.roles[index := data.roles[index].(state := to)])) else Err
  }

  class Run {
    const id: string
    var state: RunState
    var roles: seq<RoleTask>

    ghost function View(): Data
      reads this
    {
      Data(state, roles)
    }

    twostate predicate Did(op: Op, ok: bool)
      reads this
    {
      && (ok <==> Step(old(View()), op).Ok?)
      && View() == if ok then Step(old(View()), op).value else old(View())
    }

    constructor (id: string, roles: seq<RoleTask>)
      ensures View() == Data(RunPending, roles) && this.id == id
    {
      this.id, state, this.roles := id, RunPending, roles;
    }

    method MoveTo(next: RunState) returns (ok: bool)
      modifies this
      ensures Did(TransitionTo(next), ok)
    {
      if !state.CanTransition(next) { return false; }
      if next == Completed {
        for i := 0 to |roles|
          invariant forall k :: 0 <= k < i ==> roles[k].state == TaskSucceeded
          invariant View() == old(View())
        {
          if roles[i].state != TaskSucceeded { return false; }
        }
      } else if next == Degraded {
        var optionalNonSuccess := false;
        for i := 0 to |roles|
          invariant forall k :: 0 <= k < i ==>
                      roles[k].state.Terminal() && (roles[k].required ==> roles[k].state == TaskSucceeded)
          invariant optionalNonSuccess <==> exists k :: 0 <= k < i && !roles[k].required && roles[k].state != TaskSucceeded
          invariant View() == old(View())
        {
          if !roles[i].state.Terminal() { return false; }
          if roles[i].required && roles[i].state != TaskSucceeded { return false; }
          if !roles[i].required && roles[i].state != TaskSucceeded { optionalNonSuccess := true; }
        }
        if !optionalNonSuccess { return false; }
      }
      state := next;
      ok := true;
    }

    method MoveRole(role: Role, next: TaskState) returns (ok: bool)
      modifies this
      ensures Did(TransitionRole(role, next), ok)
    {
      if state != Running { return false; }
      for index := 0 to |roles|
        invariant forall k :: 0 <= k < index ==> roles[k].role != role
        invariant View() == old(View())
      {
        if roles[index].role == role {
          assert index == IndexOf(roles, role);
          if !roles[index].state.CanTransition(next) { return false; }
          roles := roles[index := roles[index].(state := next)];
          return true;
        }
      }
      ok := false;
    }
  }

  lemma PermutedIsFresh(tasks: seq<RoleTask>, canonical: seq<RoleTask>)
    requires Acceptable(tasks) && multiset(canonical) == multiset(tasks) && Ordered(canonical)
    ensures Fresh(Data(RunPending, canonical))
  {
    SameMembers(canonical, tasks);
    forall i | 0 <= i < |canonical|
      ensures canonical[i].state == Pending && (canonical[i].role.RequiredFloor() ==> canonical[i].required)
    {
      assert canonical[i] in canonical;
      var k :| 0 <= k < |tasks| && tasks[k] == canonical[i];
    }
  }

  /** newRun: a run comes into being pending, with the given tasks in the fixed order, exactly for
      valid identifiers, a target and acceptable tasks. */
  method NewRun(id: string, sessionID: string, targetKind: string, tasks: seq<RoleTask>) returns (run: Run?)
    ensures run != null <==> ValidRunID(id) && ValidSessionID(sessionID) && targetKind != "" && Acceptable(tasks)
    ensures run != null ==>
              fresh(run) && run.id == id && Fresh(run.View()) && multiset(run.roles) == multiset(tasks)
  {
    if !ValidRunID(id) { return null; }
    if !ValidSessionID(sessionID) { return null; }
    if targetKind == "" { return null; }
    var canonical := ValidateRoleTasks(tasks);
    if canonical.Err? { return null; }
    PermutedIsFresh(tasks, canonical.value);
    run := new Run(id, canonical.value);
  }

  // ---------------------------------------------------------------- whole runs

  ghost predicate Fresh(data: Data) {
    data.state == RunPending && data.roles != [] && Ordered(data.roles) && FloorIsRequired(data.roles) && AllPending(data.roles)
  }

  function After(data: Data, op: Op): Data {
    if Step(data, op).Ok? then Step(data, op).value else data
  }

  function Ran(data: Data, ops: seq<Op>): Data
    decreases |ops|
  {
    if ops == [] then data else Ran(After(data, ops[0]), ops[1..])
  }

  function Accepted(data: Data, ops: seq<Op>): nat
    decreases |ops|
  {
    if ops == [] then 0 else (if Step(data, ops[0]).Ok? then 1 else 0) + Accepted(After(data, ops[0]), ops[1..])
  }

  ghost predicate Inv(data: Data) {
    && data.roles != [] && Ordered(data.roles) && FloorIsRequired(data.roles)
    && (data.state == RunPending ==> AllPending(data.roles))
    && (data.state == Completed ==> MayComplete(data.roles))
    && (data.state == Degraded ==> MayDegrade(data.roles))
  }

  /** The same roles with the same providers and the same demands, in the same order. */
  ghost predicate SameSelection(a: seq<RoleTask>, b: seq<RoleTask>) {
    |a| == |b| && forall i :: 0 <= i < |a| ==> a[i] == b[i].(state := a[i].state)
  }

  lemma StepKeeps(data: Data, op: Op)
    requires Inv(data)
    ensures Inv(After(data, op)) && SameSelection(After(data, op).roles, data.roles)
    ensures data.state.Terminal() ==> After(data, op) == data
  {
  }

  lemma {:induction false} RunKeeps(data: Data, ops: seq<Op>)
    requires Inv(data)
    ensures Inv(Ran(data, ops)) && SameSelection(Ran(data, ops).roles, data.roles)
    ensures data.state.Terminal() ==> Ran(data, ops) == data
    decreases |ops|
  {
    if ops != [] {
      StepKeeps(data, ops[0]);
      RunKeeps(After(data, ops[0]), ops[1..]);
    }
  }

  /** Every reachable run keeps its selection, in fixed order and with the floor required, and
      its state says what its roles did. */
  lemma ReachableRun(initial: Data, ops: seq<Op>)
    requires Fresh(initial)
    ensures Inv(Ran(initial, ops)) && SameSelection(Ran(initial, ops).roles, initial.roles)
  {
    RunKeeps(initial, ops);
  }

  /** A run that has ended no longer changes at all, its roles included. */
  lemma EndedIsFinal(initial: Data, ops: seq<Op>, more: seq<Op>)
    requires Fresh(initial) && Ran(initial, ops).state.Terminal()
    ensures Ran(Ran(initial, ops), more) == Ran(initial, ops)
  {
    RunKeeps(initial, ops);
    RunKeeps(Ran(initial, ops), more);
  }

  /** No role vector lets a run both complete and degrade; and one that may do neither but whose
      roles are all terminal has a required role that did not succeed. */
  lemma OutcomesAreExclusive(roles: seq<RoleTask>)
    ensures !(MayComplete(roles) && MayDegrade(roles))
    ensures (forall i :: 0 <= i < |roles| ==> roles[i].state.Terminal()) ==>
              ((!MayComplete(roles) && !MayDegrade(roles)) <==>
               exists i :: 0 <= i < |roles| && roles[i].required && roles[i].state != TaskSucceeded)
  {
  }

  // ---------------------------------------------------------------- what is accepted, and when

  /** The states that a task can be moved to: it queues, starts and ends in order, is cancelled at any
      time before it has ended, and is blocked only before it has started. */
  predicate TaskReaches(state: TaskState, next: TaskState) {
    match next
    case Pending => false
    case PrimaryQueued => state == Pending
    case PrimaryRunning => state == PrimaryQueued
    case TaskSucceeded => state == PrimaryRunning
    case TaskFailed => state == PrimaryRunning
    case TaskCancelled => state in {Pending, PrimaryQueued, PrimaryRunning}
    case TaskBlocked => state in {Pending, PrimaryQueued}
  }

  ghost predicate EveryRole(roles: seq<RoleTask>, states: set<TaskState>) {
    forall i :: 0 <= i < |roles| ==> roles[i].state in states
  }

  /** The states that a run can be moved to: it completes when every role succeeded, and degrades
      when every role has ended, the required ones in success, and some optional one did not. */
  ghost predicate Reaches(data: Data, next: RunState) {
    match next
    case RunPending => false
    case Running => data.state == RunPending
    case Completed => data.state == Running && EveryRole(data.roles, {TaskSucceeded})
    case Degraded =>
      && data.state == Running && EveryRole(data.roles, {TaskSucceeded, TaskFailed, TaskCancelled, TaskBlocked})
      && !EveryRole(data.roles, {TaskSucceeded})
      && forall i :: 0 <= i < |data.roles| && data.roles[i].state != TaskSucceeded ==> !data.roles[i].required
    case Failed => data.state == Running
    case Cancelled => data.state in {RunPending, Running}
  }

  ghost predicate TaskMoved(data: Data, role: Role, next: TaskState, after: Data) {
    && after.state == data.state && |after.roles| == |data.roles|
    && forall i :: 0 <= i < |data.roles| ==>
         after.roles[i] == if data.roles[i].role == role then data.roles[i].(state := next) else data.roles[i]
  }

  lemma RoleStepAccepts(data: Data, role: Role, next: TaskState)
    requires DistinctRoles(data.roles)
    ensures Step(data, TransitionRole(role, next)).Ok? <==>
              data.state == Running
              && exists i :: 0 <= i < |data.roles| && data.roles[i].role == role && TaskReaches(data.roles[i].state, next)
    ensures Step(data, TransitionRole(role, next)).Ok? ==> TaskMoved(data, role, next, Step(data, TransitionRole(role, next)).value)
  {
    var index := IndexOf(data.roles, role);
    forall i | 0 <= i < |data.roles| && data.roles[i].role == role ensures i == index { }
  }

  /** Exactly which operations a run accepts, and what an accepted one changes: the state it names,
      or the state of the one role it names. */
  lemma ReachableAccepts(initial: Data, ops: seq<Op>, op: Op)
    requires Fresh(initial)
    ensures var data := Ran(initial, ops);
            match op
            case TransitionTo(next) =>
              && (Step(data, op).Ok? <==> Reaches(data, next))
              && (Step(data, op).Ok? ==> Step(data, op).value == Data(next, data.roles))
            case TransitionRole(role, next) =>
              && (Step(data, op).Ok? <==>
                    data.state == Running
                    && exists i :: 0 <= i < |data.roles| && data.roles[i].role == role && TaskReaches(data.roles[i].state, next))
              && (Step(data, op).Ok? ==> TaskMoved(data, role, next, Step(data, op).value))
  {
    var data := Ran(initial, ops);
    RunKeeps(initial, ops);
    match op
    case TransitionTo(next) =>
    case TransitionRole(role, next) =>
      RoleStepAccepts(data, role, next);
  }

  /** No run gets stuck: a running one can always be failed or cancelled, and once all its roles have
      ended it can complete or degrade unless a required one did not succeed. */
  lemma EveryRunCanEnd(initial: Data, ops: seq<Op>)
    requires Fresh(initial)
    ensures var data := Ran(initial, ops);
            var ended := data.state in {Completed, Degraded, Failed, Cancelled};
            && (!ended <==> Step(data, TransitionTo(Cancelled)).Ok?)
            && (data.state == Running <==> Step(data, TransitionTo(Failed)).Ok?)
            && (ended ==> forall op :: Step(data, op).Err?)
            && (data.state == Running && EveryRole(data.roles, {TaskSucceeded, TaskFailed, TaskCancelled, TaskBlocked}) ==>
                  (Step(data, TransitionTo(Completed)).Ok? || Step(data, TransitionTo(Degraded)).Ok?
                   <==> forall i :: 0 <= i < |data.roles| && data.roles[i].required ==> data.roles[i].state == TaskSucceeded))
  {
    RunKeeps(initial, ops);
  }

  // ---------------------------------------------------------------- every run is short

  function TaskWork(task: RoleTask): nat {
    match task.state
    case Pending => 3
    case PrimaryQueued => 2
    case PrimaryRunning => 1
    case _ => 0
  }

  function RolesWork(roles: seq<RoleTask>): nat {
    if roles == [] then 0 else TaskWork(roles[0]) + RolesWork(roles[1..])
  }

  function Work(data: Data): nat {
    (match data.state case RunPending => 2 case Running => 1 case _ => 0) + RolesWork(data.roles)
  }

  lemma {:induction false} RoleUpdateWork(roles: seq<RoleTask>, index: nat, task: RoleTask)
    requires index < |roles|
    ensures RolesWork(roles[index := task]) == RolesWork(roles) - TaskWork(roles[index]) + TaskWork(task)
  {
    if index == 0 {
      assert roles[0 := task][1..] == roles[1..];
    } else {
      RoleUpdateWork(roles[1..], index - 1, task);
      assert roles[index := task][1..] == roles[1..][index - 1 := task];
    }
  }

  lemma StepWorks(data: Data, op: Op)
    requires Step(data, op).Ok?
    ensures Work(Step(data, op).value) < Work(data)
  {
    if op.TransitionRole? {
      var index := IndexOf(data.roles, op.role);
      RoleUpdateWork(data.roles, index, data.roles[index].(state := op.to));
    }
  }

  lemma {:induction false} WorkBoundsRun(data: Data, ops: seq<Op>)
    ensures Accepted(data, ops) <= Work(data)
    decreases |ops|
  {
    if ops != [] {
      if Step(data, ops[0]).Ok? { StepWorks(data, ops[0]); }
      WorkBoundsRun(After(data, ops[0]), ops[1..]);
    }
  }

  lemma {:induction false} PendingWork(roles: seq<RoleTask>)
    requires AllPending(roles)
    ensures RolesWork(roles) == 3 * |roles|
  {
    if roles != [] { PendingWork(roles[1..]); }
  }

  /** A run of n roles accepts at most two operations of its own and three per role. */
  lemma AtMostThreePerRole(initial: Data, ops: seq<Op>)
    requires Fresh(initial)
    ensures Accepted(initial, ops) <= 2 + 3 * |initial.roles|
  {
    PendingWork(initial.roles);
    WorkBoundsRun(initial, ops);
  }

  // ---------------------------------------------------------------- the bound is reached

  /** Queueing, starting and finishing each role in turn, then completing the run. */
  function CompletionPath(roles: seq<Role>): seq<Op> {
    if roles == [] then [TransitionTo(Completed)]
    else
      [TransitionRole(roles[0], PrimaryQueued), TransitionRole(roles[0], PrimaryRunning), TransitionRole(roles[0], TaskSucceeded)]
      + CompletionPath(roles[1..])
  }

  function RolesOf(tasks: seq<RoleTask>): (roles: seq<Role>)
    ensures |roles| == |tasks|
  {
    seq(|tasks|, i requires 0 <= i < |tasks| => tasks[i].role)
  }

  lemma Advance(data: Data, op: Op, rest: seq<Op>)
    requires Step(data, op).Ok?
    ensures Accepted(data, [op] + rest) == 1 + Accepted(Step(data, op).value, rest)
    ensures Ran(data, [op] + rest) == Ran(Step(data, op).value, rest)
  {
    assert ([op] + rest)[1..] == rest;
  }

  lemma RoleStep(data: Data, k: nat, to: TaskState)
    requires data.state == Running && Ordered(data.roles) && k < |data.roles| && data.roles[k].state.CanTransition(to)
    ensures Step(data, TransitionRole(data.roles[k].role, to))
         == Ok(data.(roles := data.roles[k := data.roles[k].(state := to)]))
  {
    assert IndexOf(data.roles, data.roles[k].role) == k;
  }

  lemma RoleSucceeds(data: Data, k: nat, rest: seq<Op>)
    requires data.state == Running && Ordered(data.roles) && k < |data.roles| && data.roles[k].state == Pending
    ensures var role := data.roles[k].role;
            var ops := [TransitionRole(role, PrimaryQueued), TransitionRole(role, PrimaryRunning), TransitionRole(role, TaskSucceeded)];
            var done := data.(roles := data.roles[k := data.roles[k].(state := TaskSucceeded)]);
            Accepted(data, ops + rest) == 3 + Accepted(done, rest) && Ran(data, ops + rest) == Ran(done, rest)
  {
    var role := data.roles[k].role;
    var queued := data.(roles := data.roles[k := data.roles[k].(state := PrimaryQueued)]);
    var running := data.(roles := data.roles[k := data.roles[k].(state := PrimaryRunning)]);
    var a, b, c := TransitionRole(role, PrimaryQueued), TransitionRole(role, PrimaryRunning), TransitionRole(role, TaskSucceeded);
    RoleStep(data, k, PrimaryQueued);
    RoleStep(queued, k, PrimaryRunning);
    assert queued.roles[k := running.roles[k]] == running.roles;
    RoleStep(running, k, TaskSucceeded);
    Advance(data, a, [b] + ([c] + rest));
    Advance(queued, b, [c] + rest);
    Advance(running, c, rest);
    assert [a] + ([b] + ([c] + rest)) == [a, b, c] + rest;
    assert running.roles[k := data.roles[k].(state := TaskSucceeded)] == data.roles[k := data.roles[k].(state := TaskSucceeded)];
  }

  lemma {:induction false} RestCompletes(data: Data, k: nat)
    requires data.state == Running && Ordered(data.roles) && k <= |data.roles|
    requires forall i :: 0 <= i < |data.roles| ==> data.roles[i].state == if i < k then TaskSucceeded else Pending
    ensures var path := CompletionPath(RolesOf(data.roles)[k..]);
            Accepted(data, path) == 3 * (|data.roles| - k) + 1 && Ran(data, path).state == Completed
    decreases |data.roles| - k
  {
    if k < |data.roles| {
      var done := data.(roles := data.roles[k := data.roles[k].(state := TaskSucceeded)]);
      assert RolesOf(data.roles)[k..][1..] == RolesOf(done.roles)[k + 1..];
      RoleSucceeds(data, k, CompletionPath(RolesOf(done.roles)[k + 1..]));
      RestCompletes(done, k + 1);
    } else {
      Advance(data, TransitionTo(Completed), []);
      assert [TransitionTo(Completed)] + [] == [TransitionTo(Completed)];
    }
  }

  /** Every fresh run can complete, and doing so takes all the operations the bound allows. */
  lemma EverySelectionCompletes(initial: Data)
    requires Fresh(initial)
    ensures var path := [TransitionTo(Running)] + CompletionPath(RolesOf(initial.roles));
            Accepted(initial, path) == 2 + 3 * |initial.roles| && Ran(initial, path).state == Completed
  {
    Advance(initial, TransitionTo(Running), CompletionPath(RolesOf(initial.roles)));
    RestCompletes(initial.(state := Running), 0);
    assert RolesOf(initial.roles)[0..] == RolesOf(initial.roles);
  }
}
