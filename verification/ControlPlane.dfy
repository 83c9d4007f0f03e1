// The control plane's tables and the atomic steps its store methods take on them:
// the task, approval, component and audit tables of the SQLite store.
//
// Each step is a function on the whole database. Where SQLite may choose (rows that
// tie under ORDER BY) the choice is a parameter, and `Permitted` says which are allowed.
module ControlPlane {
  import opened Basics
  import opened OutputCap

  type Time = int // microseconds on the UTC clock

  // ----- Rows -----

  datatype NodeStatus = NodePending | Managed | Revoked

  // The facts of a node's latest heartbeat that decide whether tasks may be sent to it. The
  // two texts are as the code compares them: stripped and in lower case.
  datatype HeartbeatFacts = HeartbeatFacts(
    workerMode: string, taskPolicy: string, canPollTasks: Option<bool>, execEnabled: Option<bool>)

  datatype Node = Node(status: NodeStatus, facts: Option<HeartbeatFacts>)

  datatype TaskStatus = Pending | Running | Succeeded | Failed

  datatype FailureReason = NoFailure | WorkerLeaseExpired | ExitCodeNonzero

  datatype Task = Task(
    nodeId: string, command: string, risk: string, status: TaskStatus, createdBy: string,
    createdAt: Time, executor: string, startedAt: Option<Time>, completedAt: Option<Time>,
    exitCode: Option<int>, stdout: string, stderr: string, claimedAt: Option<Time>,
    leaseExpiresAt: Option<Time>, attemptCount: nat, failureReason: FailureReason)

  datatype SubjectType = TaskSubject | ComponentRunSubject | OtherSubject(name: string)

  // "task.run", "component.<action>", or anything else.
  datatype ActionName = TaskRun | ComponentAction(action: string) | OtherAction(name: string)

  datatype SubjectId = RunId(id: nat) | OtherId(text: string)

  datatype ApprovalStatus = Requested | Approved | Rejected

  // The keys of an approval's details that dispatch reads or writes, and those that
  // overwrite a column of the request in its log entry.
  datatype Details = Details(
    nodeId: Option<string>, command: Option<string>, createdBy: Option<string>, executor: Option<string>,
    dispatchedTaskId: Option<nat>, runId: Option<nat>, componentId: Option<string>, action: Option<string>,
    config: Option<map<string, string>>, version: Option<string>, driver: Option<string>,
    risk: Option<string>, subjectId: Option<SubjectId>)

  datatype Approval = Approval(
    subjectType: SubjectType, subjectId: SubjectId, action: ActionName, risk: string,
    status: ApprovalStatus, requestedBy: string, details: Details, createdAt: Time,
    decidedBy: string, decidedAt: Option<Time>)

  datatype RunStatus = PendingApproval | StateRecorded | OtherRunStatus(name: string)

  datatype ComponentRun = ComponentRun(
    componentId: string, nodeId: string, action: string, risk: string, status: RunStatus,
    createdAt: Time, completedAt: Option<Time>, approvalId: Option<nat>, approvedBy: string)

  datatype DesiredState = Enabled | Absent

  datatype NodeComponent = NodeComponent(
    desiredState: DesiredState, currentState: string, config: map<string, string>,
    installedVersion: string, driver: string, lastRunId: nat)

  // ----- The audit log -----

  datatype TaskAction =
    | Create(nodeId: string, command: string, risk: string, executor: string)
    | Dispatch(nodeId: string, executor: string, leaseSeconds: int)
    | TaskResult(outcome: TaskStatus, nodeId: string, exitCode: int)
    | WatchdogExpire(nodeId: string, leaseExpiresAt: Option<Time>)

  datatype DispatchFailure =
    | MissingDetails
    | NotManaged
    | Blocked(reason: BlockReason)
    | DetailsMismatch
    | RunNotPendingApproval
    | NotDispatchable

  // The one dict that a request logs.
  datatype Told = Told(subjectId: SubjectId, action: string, risk: string, others: Details)

  datatype ApprovalAction =
    | Request(subjectType: SubjectType, told: Told)
    | DecidedAs(status: ApprovalStatus, subjectId: SubjectId, risk: string, decidedBy: string)
    | DispatchOk(taskId: nat, nodeId: string, command: string, taskRisk: string, executor: string, createdBy: string)
    | DispatchFailed(reason: DispatchFailure)

  // One constructor for each event_type; the action and outcome columns are in the payload.
  datatype AuditEvent =
    | TaskEvent(taskId: nat, action: TaskAction, at: Time)
    | ApprovalEvent(approvalId: nat, approvalAction: ApprovalAction, at: Time)
    | ComponentEvent(
        componentId: string, componentAction: string, outcome: RunStatus, nodeId: string, runId: nat,
        risk: string, releasedBy: Option<nat>, at: Time)

  datatype Db = Db(
    nodes: map<string, Node>,
    tasks: map<nat, Task>,
    approvals: map<nat, Approval>,
    runs: map<nat, ComponentRun>,
    components: map<(string, string), NodeComponent>,
    audit: seq<AuditEvent>,
    nextId: nat)

  const EMPTY := Db(map[], map[], map[], map[], map[], [], 0)

  function Log(s: Db, e: AuditEvent): Db {
    s.(audit := s.audit + [e])
  }

  // ----- Node readiness -----

  datatype BlockReason =
    NodeNotFound | NodeNotManaged | BeaconOnly | HeartbeatOnly | CannotPollTasks | ExecutionDisabled

  predicate IsManaged(s: Db, nodeId: string) {
    nodeId in s.nodes && s.nodes[nodeId].status.Managed?
  }

  /** Why tasks may not be sent to a node; None when they may. */
  function TaskDispatchBlockReason(s: Db, nodeId: string): Option<BlockReason> {
    if nodeId !in s.nodes then Some(NodeNotFound)
    else if !s.nodes[nodeId].status.Managed? then Some(NodeNotManaged)
    else
      match s.nodes[nodeId].facts
      case None => None
      case Some(facts) =>
        if facts.workerMode == "beacon" then Some(BeaconOnly)
        else if facts.taskPolicy == "heartbeat-only" then Some(HeartbeatOnly)
        else if facts.canPollTasks == Some(false) then Some(CannotPollTasks)
        else if facts.execEnabled == Some(false) then Some(ExecutionDisabled)
        else None
  }

  // ----- Tasks -----

  function NewTask(nodeId: string, command: string, risk: string, createdBy: string, executor: string, now: Time): Task {
    Task(nodeId, command, risk, Pending, createdBy, now, executor, None, None, None, "", "", None, None, 0, NoFailure)
  }

  /** Inserts a task row under the next id and audits its creation. */
  function InsertTask(s: Db, task: Task, now: Time): Db {
    Log(s.(tasks := s.tasks[s.nextId := task], nextId := s.nextId + 1),
        TaskEvent(s.nextId, Create(task.nodeId, task.command, task.risk, task.executor), now))
  }

  predicate Claimable(t: Task, nodeId: string, executor: string) {
    t.nodeId == nodeId && t.executor == executor && t.status.Pending?
  }

  /** `id` may be the row of SELECT ... status = 'pending' ORDER BY created_at LIMIT 1. */
  ghost predicate FirstClaimable(s: Db, nodeId: string, executor: string, id: nat) {
    && id in s.tasks
    && Claimable(s.tasks[id], nodeId, executor)
    && forall other | other in s.tasks && Claimable(s.tasks[other], nodeId, executor) ::
         s.tasks[id].createdAt <= s.tasks[other].createdAt
  }

  /** What claim_next_task may pick: nothing unless the node is managed, else the oldest
      pending task, and nothing only when there is none. */
  ghost predicate ClaimChoice(s: Db, nodeId: string, executor: string, chosen: Option<nat>) {
    match chosen
    case Some(id) => IsManaged(s, nodeId) && FirstClaimable(s, nodeId, executor, id)
    case None =>
      IsManaged(s, nodeId) ==> forall id | id in s.tasks :: !Claimable(s.tasks[id], nodeId, executor)
  }

  function Claimed(t: Task, leaseSeconds: int, now: Time): Task {
    t.(status := Running,
       startedAt := if t.startedAt.None? then Some(now) else t.startedAt,
       claimedAt := Some(now),
       leaseExpiresAt := Some(now + leaseSeconds * 1_000_000),
       attemptCount := t.attemptCount + 1)
  }

  function Claim(s: Db, nodeId: string, executor: string, leaseSeconds: int, now: Time, chosen: Option<nat>): Db
    requires chosen.Some? ==> chosen.value in s.tasks
  {
    match chosen
    case None => s
    case Some(id) =>
      Log(s.(tasks := s.tasks[id := Claimed(s.tasks[id], leaseSeconds, now)]),
          TaskEvent(id, Dispatch(nodeId, executor, leaseSeconds), now))
  }

  predicate LeaseOver(t: Task, cutoff: Time) {
    && t.status.Running?
    && t.executor == "worker"
    && t.leaseExpiresAt.Some?
    && t.leaseExpiresAt.value <= cutoff
  }

  function Stuck(s: Db, cutoff: Time): set<nat> {
    set id | id in s.tasks && LeaseOver(s.tasks[id], cutoff)
  }

  function ExpiryCutoff(now: Time, olderThanSeconds: Option<int>): Time {
    match olderThanSeconds
    case None => now
    case Some(seconds) => now - seconds * 1_000_000
  }

  /** ORDER BY lease_expires_at, created_at. */
  predicate ExpiryOrder(s: Db, a: nat, b: nat) {
    if a !in s.tasks || b !in s.tasks then a in s.tasks || b !in s.tasks
    else
      var x, y := s.tasks[a], s.tasks[b];
      x.leaseExpiresAt.GetOr(0) < y.leaseExpiresAt.GetOr(0) ||
      (x.leaseExpiresAt.GetOr(0) == y.leaseExpiresAt.GetOr(0) && x.createdAt <= y.createdAt)
  }

  function ExpiryOrdering(s: Db): (nat, nat) -> bool {
    (a: nat, b: nat) => ExpiryOrder(s, a, b)
  }

  function ExpireOne(s: Db, id: nat, now: Time): Db
    requires id in s.tasks
  {
    var t := s.tasks[id];
    var t' := if t.status.Running? then t.(status := Failed, completedAt := Some(now), failureReason := WorkerLeaseExpired) else t;
    Log(s.(tasks := s.tasks[id := t']), TaskEvent(id, WatchdogExpire(t.nodeId, t.leaseExpiresAt), now))
  }

  function ExpireAll(s: Db, ids: seq<nat>, now: Time): (s': Db)
    requires forall id | id in ids :: id in s.tasks
    ensures s'.tasks.Keys == s.tasks.Keys
  {
    if ids == [] then s
    else
      var last := |ids| - 1;
      assert ids[last] in ids;
      ExpireOne(ExpireAll(s, ids[..last], now), ids[last], now)
  }

  function ResultStatus(exitCode: int): TaskStatus {
    if exitCode == 0 then Succeeded else Failed
  }

  function RecordResult(s: Db, id: nat, exitCode: int, stdout: string, stderr: string, now: Time): Db
    requires id in s.tasks
  {
    var t := s.tasks[id].(
      status := ResultStatus(exitCode), completedAt := Some(now), exitCode := Some(exitCode), stdout := stdout,
      stderr := stderr, failureReason := if exitCode == 0 then NoFailure else ExitCodeNonzero);
    Log(s.(tasks := s.tasks[id := t]), TaskEvent(id, TaskResult(ResultStatus(exitCode), t.nodeId, exitCode), now))
  }

  /** `stdout` and `stderr` are the texts to store. */
  function CompleteTask(s: Db, id: nat, exitCode: int, stdout: string, stderr: string, now: Time): Db {
    if id !in s.tasks || !s.tasks[id].status.Running? then s
    else RecordResult(s, id, exitCode, stdout, stderr, now)
  }

  // ----- Approvals -----

  function ActionText(action: ActionName): string {
    match action
    case TaskRun => "task.run"
    case ComponentAction(name) => "component." + name
    case OtherAction(name) => name
  }

  /** {"subject_id": ..., "action": ..., "risk": ..., **details}: the details overwrite. */
  function ToldBy(a: Approval): Told {
    var d := a.details;
    Told(d.subjectId.GetOr(a.subjectId), d.action.GetOr(ActionText(a.action)), d.risk.GetOr(a.risk),
         d.(subjectId := None, action := None, risk := None))
  }

  function InsertApproval(s: Db, a: Approval, now: Time): Db {
    Log(s.(approvals := s.approvals[s.nextId := a], nextId := s.nextId + 1),
        ApprovalEvent(s.nextId, Request(a.subjectType, ToldBy(a)), now))
  }

  function NewApproval(subjectType: SubjectType, subjectId: SubjectId, action: ActionName, risk: string,
                       requestedBy: string, details: Details, now: Time): Approval {
    Approval(subjectType, subjectId, action, risk, Requested, requestedBy, details, now, "", None)
  }

  /** Python's truth of an optional string. */
  predicate Truthy(text: Option<string>) {
    text.Some? && text.value != ""
  }

  function OrElse(text: Option<string>, default: string): string {
    if Truthy(text) then text.value else default
  }

  predicate IsTaskApproval(a: Approval) {
    a.subjectType.TaskSubject? && a.action.TaskRun?
  }

  predicate IsComponentApproval(a: Approval) {
    a.subjectType.ComponentRunSubject? && a.action.ComponentAction?
  }

  function TaskFor(a: Approval, now: Time): Task {
    NewTask(OrElse(a.details.nodeId, ""), OrElse(a.details.command, ""), a.risk,
            OrElse(a.details.createdBy, a.requestedBy), OrElse(a.details.executor, "worker"), now)
  }

  function FailDispatch(s: Db, id: nat, reason: DispatchFailure, now: Time): Db {
    Log(s, ApprovalEvent(id, DispatchFailed(reason), now))
  }

  // What a dispatch finds: nothing to do, a refusal to audit, or an action to carry out.
  datatype Verdict = Ignore | Refuse(reason: DispatchFailure) | Proceed

  function TaskVerdict(s: Db, id: nat): Verdict {
    if id !in s.approvals then Ignore
    else
      var a := s.approvals[id];
      if !a.status.Approved? || !IsTaskApproval(a) || a.details.dispatchedTaskId.Some? then Ignore
      else if !Truthy(a.details.nodeId) || !Truthy(a.details.command) then Refuse(MissingDetails)
      else if !IsManaged(s, a.details.nodeId.value) then Refuse(NotManaged)
      else
        match TaskDispatchBlockReason(s, a.details.nodeId.value)
        case Some(reason) => Refuse(Blocked(reason))
        case None => Proceed
  }

  /** The approval now points at its task, and the log says so. */
  function LinkTask(s: Db, id: nat, taskId: nat, task: Task, now: Time): Db
    requires id in s.approvals
  {
    var a := s.approvals[id];
    Log(s.(approvals := s.approvals[id := a.(details := a.details.(dispatchedTaskId := Some(taskId)))]),
        ApprovalEvent(id, DispatchedAs(taskId, task), now))
  }

  /** The log entry of a dispatch tells what was dispatched. */
  function DispatchedAs(taskId: nat, task: Task): ApprovalAction {
    DispatchOk(taskId, task.nodeId, task.command, task.risk, task.executor, task.createdBy)
  }

  function DispatchTask(s: Db, id: nat, now: Time): Db {
    match TaskVerdict(s, id)
    case Ignore => s
    case Refuse(reason) => FailDispatch(s, id, reason, now)
    case Proceed =>
      var task := TaskFor(s.approvals[id], now);
      LinkTask(InsertTask(s, task, now), id, s.nextId, task, now)
  }

  function RequestedAction(a: Approval, run: ComponentRun): string {
    var named := match a.action case ComponentAction(action) => action case _ => "";
    OrElse(a.details.action, if named != "" then named else run.action)
  }

  /** The approval names the run it was requested for, in every column dispatch compares. */
  predicate DetailsMatch(a: Approval, runId: nat, run: ComponentRun)
    requires a.subjectId.RunId?
  {
    && a.action == ComponentAction(run.action)
    && a.details.runId.GetOr(a.subjectId.id) == runId
    && OrElse(a.details.componentId, "") == run.componentId
    && OrElse(a.details.nodeId, "") == run.nodeId
    && RequestedAction(a, run) == run.action
    && a.risk == run.risk
  }

  /** The row an approved action writes. An uninstall keeps what was installed. */
  function DispatchedComponent(s: Db, a: Approval, runId: nat, run: ComponentRun): NodeComponent {
    var key := (run.nodeId, run.componentId);
    if RequestedAction(a, run) == "uninstall" then
      if key in s.components then s.components[key].(desiredState := Absent, currentState := "planned", lastRunId := runId)
      else NodeComponent(Absent, "planned", a.details.config.GetOr(map[]), OrElse(a.details.version, ""),
                         OrElse(a.details.driver, ""), runId)
    else NodeComponent(Enabled, "planned", a.details.config.GetOr(map[]), OrElse(a.details.version, ""),
                       OrElse(a.details.driver, ""), runId)
  }

  function ComponentVerdict(s: Db, id: nat): Verdict {
    if id !in s.approvals then Ignore
    else
      var a := s.approvals[id];
      if !a.status.Approved? || !IsComponentApproval(a) then Ignore
      else if !a.subjectId.RunId? || a.subjectId.id !in s.runs then Ignore
      else
        var run := s.runs[a.subjectId.id];
        if run.status.StateRecorded? then Ignore
        else if !DetailsMatch(a, a.subjectId.id, run) then Refuse(DetailsMismatch)
        else if !run.status.PendingApproval? then Refuse(RunNotPendingApproval)
        else if run.action != "apply" && run.action != "uninstall" then Refuse(NotDispatchable)
        else Proceed
  }

  /** Writes the component row and closes the run, with its audit event. */
  function RecordComponent(s: Db, a: Approval, id: nat, runId: nat, now: Time): Db
    requires runId in s.runs
  {
    var run := s.runs[runId];
    Log(s.(components := s.components[(run.nodeId, run.componentId) := DispatchedComponent(s, a, runId, run)],
           runs := s.runs[runId := run.(status := StateRecorded, completedAt := Some(now),
                                        approvalId := Some(id), approvedBy := a.decidedBy)]),
        ComponentEvent(run.componentId, RequestedAction(a, run), StateRecorded, run.nodeId, runId, run.risk, Some(id), now))
  }

  function DispatchComponent(s: Db, id: nat, now: Time): Db {
    match ComponentVerdict(s, id)
    case Ignore => s
    case Refuse(reason) => FailDispatch(s, id, reason, now)
    case Proceed => RecordComponent(s, s.approvals[id], id, s.approvals[id].subjectId.id, now)
  }

  /** The first decision on a request, with its audit event; later ones find it decided.
      The dispatch that follows an approval is a transaction, and so a step, of its own. */
  function Decide(s: Db, id: nat, decision: ApprovalStatus, decidedBy: string, now: Time): Db {
    if id !in s.approvals || !s.approvals[id].status.Requested? then s
    else
      var a := s.approvals[id].(status := decision, decidedBy := decidedBy, decidedAt := Some(now));
      Log(s.(approvals := s.approvals[id := a]), ApprovalEvent(id, DecidedAs(decision, a.subjectId, a.risk, decidedBy), now))
  }

  /** `resolve_approval_request`: an approval that is granted is dispatched at once. */
  function Resolve(s: Db, id: nat, decision: ApprovalStatus, decidedBy: string, now: Time): Db {
    if id !in s.approvals || !s.approvals[id].status.Requested? then s
    else
      var decided := Decide(s, id, decision, decidedBy, now);
      if decision.Approved? && IsTaskApproval(s.approvals[id]) then DispatchTask(decided, id, now)
      else if decision.Approved? && IsComponentApproval(s.approvals[id]) then DispatchComponent(decided, id, now)
      else decided
  }

  // ----- Components -----

  function RecordRun(s: Db, componentId: string, nodeId: string, action: string, risk: string,
                     status: RunStatus, now: Time): Db {
    Log(s.(runs := s.runs[s.nextId := ComponentRun(componentId, nodeId, action, risk, status, now, None, None, "")],
           nextId := s.nextId + 1),
        ComponentEvent(componentId, action, status, nodeId, s.nextId, risk, None, now))
  }

  /** `hmn component apply` of a component that needs no approval. */
  function ApplyComponent(s: Db, componentId: string, nodeId: string, risk: string, currentState: string,
                          config: map<string, string>, version: string, driver: string, now: Time): Db {
    RecordRun(s, componentId, nodeId, "apply", risk, StateRecorded, now).(
      components := s.components[(nodeId, componentId) := NodeComponent(Enabled, currentState, config, version, driver, s.nextId)])
  }

  /** `hmn component uninstall` of a component that needs no approval. */
  function UninstallComponent(s: Db, componentId: string, nodeId: string, risk: string,
                              version: string, driver: string, now: Time): Db {
    var key := (nodeId, componentId);
    var row :=
      if key in s.components then s.components[key].(desiredState := Absent, currentState := "planned", lastRunId := s.nextId)
      else NodeComponent(Absent, "planned", map[], version, driver, s.nextId);
    RecordRun(s, componentId, nodeId, "uninstall", risk, StateRecorded, now).(components := s.components[key := row])
  }

  // ----- Steps and runs -----

  datatype Op =
    | SetNode(nodeId: string, node: Node)
    | CreateTaskOp(nodeId: string, command: string, risk: string, createdBy: string, executor: string, now: Time)
    | CreateApprovalOp(subjectType: SubjectType, subjectId: SubjectId, approvalAction: ActionName, risk: string,
                       requestedBy: string, details: Details, now: Time)
    | DecideOp(approvalId: nat, decision: ApprovalStatus, decidedBy: string, now: Time)
    | DispatchTaskOp(approvalId: nat, now: Time)
    | DispatchComponentOp(approvalId: nat, now: Time)
    | ClaimOp(nodeId: string, executor: string, leaseSeconds: int, now: Time, chosen: Option<nat>)
    | ExpireOp(olderThanSeconds: Option<int>, now: Time, expired: seq<nat>)
    | CompleteOp(taskId: nat, exitCode: int, stdout: string, stderr: string, now: Time)
    | RecordRunOp(componentId: string, nodeId: string, action: string, risk: string, status: RunStatus, now: Time)
    | ApplyOp(componentId: string, nodeId: string, risk: string, currentState: string,
              config: map<string, string>, version: string, driver: string, now: Time)
    | UninstallOp(componentId: string, nodeId: string, risk: string, version: string, driver: string, now: Time)

  /** The step can happen in `s`: the caller's arguments are legal and SQLite's choices are allowed. */
  ghost predicate Permitted(s: Db, op: Op) {
    match op
    case DecideOp(_, decision, _, _) => !decision.Requested?
    case ClaimOp(nodeId, executor, _, _, chosen) => ClaimChoice(s, nodeId, executor, chosen)
    case ExpireOp(older, now, expired) =>
      OrderedListing(expired, Stuck(s, ExpiryCutoff(now, older)), ExpiryOrdering(s))
    case RecordRunOp(_, _, _, _, status, _) => !status.StateRecorded?
    case _ => true
  }

  ghost function Step(s: Db, op: Op): Db
    requires Permitted(s, op)
  {
    match op
    case SetNode(nodeId, node) => s.(nodes := s.nodes[nodeId := node])
    case CreateTaskOp(nodeId, command, risk, actor, executor, now) =>
      InsertTask(s, NewTask(nodeId, command, risk, actor, executor, now), now)
    case CreateApprovalOp(subjectType, subjectId, action, risk, actor, details, now) =>
      InsertApproval(s, NewApproval(subjectType, subjectId, action, risk, actor, details, now), now)
    case DecideOp(id, decision, actor, now) => Decide(s, id, decision, actor, now)
    case DispatchTaskOp(id, now) => DispatchTask(s, id, now)
    case DispatchComponentOp(id, now) => DispatchComponent(s, id, now)
    case ClaimOp(nodeId, executor, lease, now, chosen) => Claim(s, nodeId, executor, lease, now, chosen)
    case ExpireOp(_, now, expired) => ExpireAll(s, expired, now)
    case CompleteOp(id, exitCode, stdout, stderr, now) =>
      CompleteTask(s, id, exitCode, CapTaskOutput(stdout), CapTaskOutput(stderr), now)
    case RecordRunOp(component, nodeId, action, risk, status, now) =>
      RecordRun(s, component, nodeId, action, risk, status, now)
    case ApplyOp(component, nodeId, risk, current, config, version, driver, now) =>
      ApplyComponent(s, component, nodeId, risk, current, config, version, driver, now)
    case UninstallOp(component, nodeId, risk, version, driver, now) =>
      UninstallComponent(s, component, nodeId, risk, version, driver, now)
  }

  /** `ops` is a run from the empty database: any interleaving of the steps. */
  ghost predicate ValidRun(ops: seq<Op>)
    decreases |ops|, 0
  {
    ops == [] ||
    (ValidRun(ops[..|ops| - 1]) && Permitted(Exec(ops[..|ops| - 1]), ops[|ops| - 1]))
  }

  ghost function Exec(ops: seq<Op>): Db
    requires ValidRun(ops)
    decreases |ops|, 1
  {
    if ops == [] then EMPTY else Step(Exec(ops[..|ops| - 1]), ops[|ops| - 1])
  }
}
