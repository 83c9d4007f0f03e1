// The audit log is complete: replaying it rebuilds what it tells of the task, approval,
// run and component tables. Replay is strict, and an event out of its place makes it fail, so a log that
// replays at all is a log of legal histories.
module AuditReplay {
  import opened Basics
  import opened ControlPlane
  import opened OutputCap

  datatype Replayed<+V> = Nothing | Row(row: V) | Corrupt

  // ----- What the log tells about each kind of row -----

  datatype TaskView = TaskView(
    nodeId: string, command: string, risk: string, executor: string, status: TaskStatus,
    startedAt: Option<Time>, claimedAt: Option<Time>, leaseExpiresAt: Option<Time>, attemptCount: nat,
    completedAt: Option<Time>, exitCode: Option<int>, failureReason: FailureReason)

  // What the decision says about a request's subject and risk.
  datatype Ruling = Ruling(subjectId: SubjectId, risk: string)

  datatype ApprovalView = ApprovalView(
    subjectType: SubjectType, told: Told, status: ApprovalStatus, decidedBy: string, ruling: Option<Ruling>)

  datatype RunView = RunView(
    componentId: string, nodeId: string, action: string, risk: string, status: RunStatus, approvalId: Option<nat>)

  datatype ComponentView = ComponentView(desiredState: DesiredState, lastRunId: nat)

  function ViewTask(t: Task): TaskView {
    TaskView(t.nodeId, t.command, t.risk, t.executor, t.status, t.startedAt, t.claimedAt, t.leaseExpiresAt,
             t.attemptCount, t.completedAt, t.exitCode, t.failureReason)
  }

  function ViewApproval(a: Approval): ApprovalView {
    ApprovalView(a.subjectType, ToldBy(a), a.status, a.decidedBy,
                 if a.status.Requested? then None else Some(Ruling(a.subjectId, a.risk)))
  }

  function ViewRun(r: ComponentRun): RunView {
    RunView(r.componentId, r.nodeId, r.action, r.risk, r.status, r.approvalId)
  }

  // ----- Replay -----

  function ReplayTaskAction(r: Replayed<TaskView>, action: TaskAction, at: Time): Replayed<TaskView> {
    match (r, action)
    case (Nothing, Create(nodeId, command, risk, executor)) =>
      Row(TaskView(nodeId, command, risk, executor, Pending, None, None, None, 0, None, None, NoFailure))
    case (Row(v), Dispatch(nodeId, executor, lease)) =>
      if v.status.Pending? && v.nodeId == nodeId && v.executor == executor then
        Row(v.(status := Running, startedAt := Some(at), claimedAt := Some(at),
               leaseExpiresAt := Some(at + lease * 1_000_000), attemptCount := v.attemptCount + 1))
      else Corrupt
    case (Row(v), TaskResult(outcome, nodeId, exitCode)) =>
      if v.status.Running? && v.nodeId == nodeId && outcome == (if exitCode == 0 then Succeeded else Failed) then
        Row(v.(status := outcome, completedAt := Some(at), exitCode := Some(exitCode),
               failureReason := if exitCode == 0 then NoFailure else ExitCodeNonzero))
      else Corrupt
    case (Row(v), WatchdogExpire(nodeId, lease)) =>
      if v.status.Running? && v.executor == "worker" && v.nodeId == nodeId && v.leaseExpiresAt == lease then
        Row(v.(status := Failed, completedAt := Some(at), failureReason := WorkerLeaseExpired))
      else Corrupt
    case _ => Corrupt
  }

  function ReplayTask(log: seq<AuditEvent>, id: nat): Replayed<TaskView> {
    if log == [] then Nothing
    else
      var before := ReplayTask(log[..|log| - 1], id);
      match log[|log| - 1]
      case TaskEvent(taskId, action, at) => if taskId == id then ReplayTaskAction(before, action, at) else before
      case _ => before
  }

  function ReplayApprovalAction(r: Replayed<ApprovalView>, action: ApprovalAction): Replayed<ApprovalView> {
    match (r, action)
    case (Nothing, Request(subjectType, told)) => Row(ApprovalView(subjectType, told, Requested, "", None))
    case (Row(v), DecidedAs(decision, subjectId, risk, decidedBy)) =>
      if v.status.Requested? && !decision.Requested? then
        Row(v.(status := decision, decidedBy := decidedBy, ruling := Some(Ruling(subjectId, risk))))
      else Corrupt
    case (Row(v), DispatchOk(taskId, _, _, risk, _, _)) =>
      if v.status.Approved? && v.ruling.Some? && risk == v.ruling.value.risk && v.told.others.dispatchedTaskId.None? then
        Row(v.(told := v.told.(others := v.told.others.(dispatchedTaskId := Some(taskId)))))
      else Corrupt
    case (Row(v), DispatchFailed(_)) => if v.status.Approved? then r else Corrupt
    case _ => Corrupt
  }

  function ReplayApproval(log: seq<AuditEvent>, id: nat): Replayed<ApprovalView> {
    if log == [] then Nothing
    else
      var before := ReplayApproval(log[..|log| - 1], id);
      match log[|log| - 1]
      case ApprovalEvent(approvalId, action, _) => if approvalId == id then ReplayApprovalAction(before, action) else before
      case _ => before
  }

  function ReplayRunEvent(r: Replayed<RunView>, seen: RunView): Replayed<RunView> {
    match r
    case Nothing => Row(seen)
    case Row(v) => 
      if v.status.PendingApproval? && seen == v.(status := StateRecorded, approvalId := seen.approvalId) then Row(seen) else Corrupt
    case Corrupt => Corrupt
  }

  function ReplayRun(log: seq<AuditEvent>, id: nat): Replayed<RunView> {
    if log == [] then Nothing
    else
      var before := ReplayRun(log[..|log| - 1], id);
      match log[|log| - 1]
      case ComponentEvent(component, action, outcome, nodeId, runId, risk, releasedBy, _) =>
        if runId == id then ReplayRunEvent(before, RunView(component, nodeId, action, risk, outcome, releasedBy)) else before
      case _ => before
  }

  /** The last recorded action on a component of a node decides its state. */
  function ReplayComponent(log: seq<AuditEvent>, key: (string, string)): Option<ComponentView> {
    if log == [] then None
    else
      var before := ReplayComponent(log[..|log| - 1], key);
      match log[|log| - 1]
      case ComponentEvent(component, action, outcome, nodeId, runId, _, _, _) =>
        if (nodeId, component) == key && outcome.StateRecorded? then
          Some(ComponentView(if action == "uninstall" then Absent else Enabled, runId))
        else before
      case _ => before
  }

  lemma ReplayAppended(log: seq<AuditEvent>, e: AuditEvent)
    ensures forall id: nat :: ReplayTask(log + [e], id) ==
              if e.TaskEvent? && e.taskId == id then ReplayTaskAction(ReplayTask(log, id), e.action, e.at)
              else ReplayTask(log, id)
    ensures forall id: nat :: ReplayApproval(log + [e], id) ==
              if e.ApprovalEvent? && e.approvalId == id then ReplayApprovalAction(ReplayApproval(log, id), e.approvalAction)
              else ReplayApproval(log, id)
    ensures forall id: nat :: ReplayRun(log + [e], id) ==
              if e.ComponentEvent? && e.runId == id then
                ReplayRunEvent(ReplayRun(log, id), RunView(e.componentId, e.nodeId, e.componentAction, e.risk, e.outcome, e.releasedBy))
              else ReplayRun(log, id)
    ensures forall key :: ReplayComponent(log + [e], key) ==
              if e.ComponentEvent? && (e.nodeId, e.componentId) == key && e.outcome.StateRecorded? then
                Some(ComponentView(if e.componentAction == "uninstall" then Absent else Enabled, e.runId))
              else ReplayComponent(log, key)
  {
    assert (log + [e])[..|log + [e]| - 1] == log;
  }

  // ----- The refinement -----

  function CurrentTask(s: Db, id: nat): Replayed<TaskView> {
    if id in s.tasks then Row(ViewTask(s.tasks[id])) else Nothing
  }

  function CurrentApproval(s: Db, id: nat): Replayed<ApprovalView> {
    if id in s.approvals then Row(ViewApproval(s.approvals[id])) else Nothing
  }

  function CurrentRun(s: Db, id: nat): Replayed<RunView> {
    if id in s.runs then Row(ViewRun(s.runs[id])) else Nothing
  }

  function CurrentComponent(s: Db, key: (string, string)): Option<ComponentView> {
    if key in s.components then Some(ComponentView(s.components[key].desiredState, s.components[key].lastRunId)) else None
  }

  ghost predicate FreshIds(s: Db) {
    forall id | id in s.tasks || id in s.approvals || id in s.runs :: id < s.nextId
  }

  /** The log alone determines what the tables say. */
  ghost predicate AuditComplete(s: Db) {
    && FreshIds(s)
    && (forall id: nat :: ReplayTask(s.audit, id) == CurrentTask(s, id))
    && (forall id: nat :: ReplayApproval(s.audit, id) == CurrentApproval(s, id))
    && (forall id: nat :: ReplayRun(s.audit, id) == CurrentRun(s, id))
    && (forall key :: ReplayComponent(s.audit, key) == CurrentComponent(s, key))
  }

  /** `s'` is `s` with the one event `e` logged and its row, and no other, changed as replay would. */
  ghost predicate OneEvent(s: Db, e: AuditEvent, s': Db) {
    && s'.audit == s.audit + [e]
    && FreshIds(s')
    && (forall id: nat :: CurrentTask(s', id) ==
          if e.TaskEvent? && e.taskId == id then ReplayTaskAction(CurrentTask(s, id), e.action, e.at) else CurrentTask(s, id))
    && (forall id: nat :: CurrentApproval(s', id) ==
          if e.ApprovalEvent? && e.approvalId == id then ReplayApprovalAction(CurrentApproval(s, id), e.approvalAction)
          else CurrentApproval(s, id))
    && (forall id: nat :: CurrentRun(s', id) ==
          if e.ComponentEvent? && e.runId == id then
            ReplayRunEvent(CurrentRun(s, id), RunView(e.componentId, e.nodeId, e.componentAction, e.risk, e.outcome, e.releasedBy))
          else CurrentRun(s, id))
    && (forall key :: CurrentComponent(s', key) ==
          if e.ComponentEvent? && (e.nodeId, e.componentId) == key && e.outcome.StateRecorded? then
            Some(ComponentView(if e.componentAction == "uninstall" then Absent else Enabled, e.runId))
          else CurrentComponent(s, key))
  }

  lemma OneEventKeeps(s: Db, e: AuditEvent, s': Db)
    requires AuditComplete(s) && OneEvent(s, e, s')
    ensures AuditComplete(s')
  {
    ReplayAppended(s.audit, e);
  }

  /** A task not yet claimed shows no trace of a claim. */
  ghost predicate PendingUnstarted(s: Db) {
    forall id | id in s.tasks && s.tasks[id].status.Pending? :: s.tasks[id].startedAt.None? && s.tasks[id].attemptCount == 0
  }

  lemma CompleteImpliesUnstarted(s: Db)
    requires AuditComplete(s)
    ensures PendingUnstarted(s)
  {
    forall id | id in s.tasks && s.tasks[id].status.Pending?
      ensures s.tasks[id].startedAt.None? && s.tasks[id].attemptCount == 0
    {
      assert ReplayTask(s.audit, id) == CurrentTask(s, id);
      PendingIsUnstarted(s.audit, id);
    }
  }

  lemma InsertTaskIsOneEvent(s: Db, a: Approval, now: Time)
    requires FreshIds(s)
    ensures var s' := InsertTask(s, TaskFor(a, now), now); OneEvent(s, s'.audit[|s.audit|], s')
  {
  }

  lemma LinkTaskIsOneEvent(s: Db, id: nat, taskId: nat, task: Task, now: Time)
    requires FreshIds(s) && id in s.approvals && task.risk == s.approvals[id].risk
    requires s.approvals[id].status.Approved? && s.approvals[id].details.dispatchedTaskId.None?
    ensures OneEvent(s, ApprovalEvent(id, DispatchedAs(taskId, task), now), LinkTask(s, id, taskId, task, now))
  {
  }

  lemma FailDispatchIsOneEvent(s: Db, id: nat, reason: DispatchFailure, now: Time)
    requires FreshIds(s) && id in s.approvals && s.approvals[id].status.Approved?
    ensures OneEvent(s, ApprovalEvent(id, DispatchFailed(reason), now), FailDispatch(s, id, reason, now))
  {
  }

  lemma DecideIsOneEvent(s: Db, id: nat, decision: ApprovalStatus, decidedBy: string, now: Time)
    requires FreshIds(s) && id in s.approvals && s.approvals[id].status.Requested? && !decision.Requested?
    ensures OneEvent(s, ApprovalEvent(id, DecidedAs(decision, s.approvals[id].subjectId, s.approvals[id].risk, decidedBy), now),
                     Decide(s, id, decision, decidedBy, now))
  {
  }

  lemma DispatchTaskKeeps(s: Db, id: nat, now: Time)
    requires AuditComplete(s)
    ensures AuditComplete(DispatchTask(s, id, now))
  {
    match TaskVerdict(s, id)
    case Ignore =>
    case Refuse(reason) =>
      FailDispatchIsOneEvent(s, id, reason, now);
      OneEventKeeps(s, ApprovalEvent(id, DispatchFailed(reason), now), FailDispatch(s, id, reason, now));
    case Proceed =>
      var task := TaskFor(s.approvals[id], now);
      var inserted := InsertTask(s, task, now);
      InsertTaskIsOneEvent(s, s.approvals[id], now);
      OneEventKeeps(s, inserted.audit[|s.audit|], inserted);
      LinkTaskIsOneEvent(inserted, id, s.nextId, task, now);
      OneEventKeeps(inserted, ApprovalEvent(id, DispatchedAs(s.nextId, task), now), LinkTask(inserted, id, s.nextId, task, now));
  }

  lemma RecordComponentIsOneEvent(s: Db, id: nat, now: Time)
    requires FreshIds(s) && ComponentVerdict(s, id).Proceed?
    ensures var s' := RecordComponent(s, s.approvals[id], id, s.approvals[id].subjectId.id, now);
            OneEvent(s, s'.audit[|s.audit|], s')
  {
    assert RequestedAction(s.approvals[id], s.runs[s.approvals[id].subjectId.id]) == s.runs[s.approvals[id].subjectId.id].action;
  }

  lemma DispatchComponentIsOneEvent(s: Db, id: nat, now: Time)
    requires FreshIds(s)
    ensures var s' := DispatchComponent(s, id, now);
            s' == s || (|s'.audit| == |s.audit| + 1 && OneEvent(s, s'.audit[|s.audit|], s'))
  {
    match ComponentVerdict(s, id)
    case Ignore =>
    case Refuse(reason) => FailDispatchIsOneEvent(s, id, reason, now);
    case Proceed => RecordComponentIsOneEvent(s, id, now);
  }

  lemma RunRecordedIsOneEvent(s: Db, op: Op)
    requires FreshIds(s) && Permitted(s, op) && (op.RecordRunOp? || op.ApplyOp? || op.UninstallOp?)
    ensures var s' := Step(s, op); OneEvent(s, s'.audit[|s.audit|], s')
  {
  }

  lemma ClaimIsOneEvent(s: Db, nodeId: string, executor: string, leaseSeconds: int, now: Time, id: nat)
    requires FreshIds(s) && PendingUnstarted(s) && id in s.tasks && Claimable(s.tasks[id], nodeId, executor)
    ensures OneEvent(s, TaskEvent(id, Dispatch(nodeId, executor, leaseSeconds), now),
                     Claim(s, nodeId, executor, leaseSeconds, now, Some(id)))
  {
  }

  lemma CompleteIsOneEvent(s: Db, id: nat, exitCode: int, stdout: string, stderr: string, now: Time)
    requires FreshIds(s) && id in s.tasks && s.tasks[id].status.Running?
    ensures OneEvent(s, TaskEvent(id, TaskResult(ResultStatus(exitCode), s.tasks[id].nodeId, exitCode), now),
                     CompleteTask(s, id, exitCode, stdout, stderr, now))
  {
  }

  ghost predicate LogsAtMostOnce(op: Op) {
    !op.DispatchTaskOp? && !op.ExpireOp?
  }

  lemma SingleEventStep(s: Db, op: Op)
    requires FreshIds(s) && PendingUnstarted(s) && Permitted(s, op) && LogsAtMostOnce(op)
    ensures var s' := Step(s, op);
            s'.(nodes := s.nodes) == s || (|s'.audit| == |s.audit| + 1 && OneEvent(s, s'.audit[|s.audit|], s'))
  {
    match op
    case SetNode(_, _) =>
    case CreateTaskOp(nodeId, command, risk, actor, executor, now) =>
    case CreateApprovalOp(_, _, _, _, _, _, _) =>
    case DecideOp(id, decision, actor, now) =>
      if id in s.approvals && s.approvals[id].status.Requested? { DecideIsOneEvent(s, id, decision, actor, now); }
    case DispatchComponentOp(id, now) => DispatchComponentIsOneEvent(s, id, now);
    case ClaimOp(nodeId, executor, lease, now, chosen) =>
      if chosen.Some? { ClaimIsOneEvent(s, nodeId, executor, lease, now, chosen.value); }
    case CompleteOp(id, exitCode, stdout, stderr, now) =>
      if id in s.tasks && s.tasks[id].status.Running? { CompleteIsOneEvent(s, id, exitCode, CapTaskOutput(stdout), CapTaskOutput(stderr), now); }
    case RecordRunOp(_, _, _, _, _, _) => RunRecordedIsOneEvent(s, op);
    case ApplyOp(_, _, _, _, _, _, _, _) => RunRecordedIsOneEvent(s, op);
    case UninstallOp(_, _, _, _, _, _) => RunRecordedIsOneEvent(s, op);
  }

  lemma SingleEventStepKeeps(s: Db, op: Op)
    requires AuditComplete(s) && Permitted(s, op) && LogsAtMostOnce(op)
    ensures AuditComplete(Step(s, op))
  {
    var s' := Step(s, op);
    CompleteImpliesUnstarted(s);
    SingleEventStep(s, op);
    if s'.audit != s.audit {
      OneEventKeeps(s, s'.audit[|s.audit|], s');
    } else {
      SameTablesKeep(s, s');
    }
  }

  lemma SameTablesKeep(s: Db, s': Db)
    requires AuditComplete(s) && s'.(nodes := s.nodes) == s
    ensures AuditComplete(s')
  {
    assert forall id: nat :: CurrentTask(s', id) == CurrentTask(s, id);
    assert forall id: nat :: CurrentApproval(s', id) == CurrentApproval(s, id);
    assert forall id: nat :: CurrentRun(s', id) == CurrentRun(s, id);
    assert forall key :: CurrentComponent(s', key) == CurrentComponent(s, key);
  }

  /** Rows outside the batch are untouched while it expires. */
  lemma {:induction false} ExpireAllFrame(s: Db, ids: seq<nat>, now: Time)
    requires forall id | id in ids :: id in s.tasks
    ensures forall id | id in s.tasks && id !in ids :: ExpireAll(s, ids, now).tasks[id] == s.tasks[id]
    ensures ExpireAll(s, ids, now).approvals == s.approvals && ExpireAll(s, ids, now).nextId == s.nextId
    ensures ExpireAll(s, ids, now).nodes == s.nodes
  {
    if ids != [] {
      assert forall id | id in ids[..|ids| - 1] :: id in ids;
      ExpireAllFrame(s, ids[..|ids| - 1], now);
    }
  }

  lemma ExpireOneIsOneEvent(s: Db, id: nat, now: Time)
    requires FreshIds(s) && id in s.tasks && s.tasks[id].status.Running? && s.tasks[id].executor == "worker"
    ensures var s' := ExpireOne(s, id, now); OneEvent(s, s'.audit[|s.audit|], s')
  {
  }

  lemma {:induction false} ExpireAllKeeps(s: Db, ids: seq<nat>, now: Time)
    requires AuditComplete(s)
    requires forall i, j | 0 <= i < j < |ids| :: ids[i] != ids[j]
    requires forall id | id in ids :: id in s.tasks && s.tasks[id].status.Running? && s.tasks[id].executor == "worker"
    ensures AuditComplete(ExpireAll(s, ids, now))
  {
    if ids != [] {
      var init, last := ids[..|ids| - 1], ids[|ids| - 1];
      assert last in ids && last !in init && forall id | id in init :: id in ids;
      ExpireAllKeeps(s, init, now);
      ExpireAllFrame(s, init, now);
      var mid := ExpireAll(s, init, now);
      ExpireOneIsOneEvent(mid, last, now);
      OneEventKeeps(mid, ExpireOne(mid, last, now).audit[|mid.audit|], ExpireOne(mid, last, now));
    }
  }

  lemma StepKeepsAudit(s: Db, op: Op)
    requires AuditComplete(s) && Permitted(s, op)
    ensures AuditComplete(Step(s, op))
  {
    match op
    case DispatchTaskOp(id, now) => DispatchTaskKeeps(s, id, now);
    case ExpireOp(_, now, expired) => ExpireAllKeeps(s, expired, now);
    case _ => SingleEventStepKeeps(s, op);
  }

  /** In every state any run reaches, the log rebuilds the rows of all four tables, as far
      as the views above go. It never tells who asked for an approval, who created a task
      directly, what workers printed, or what a direct apply installed. */
  lemma {:induction false} AuditLogIsComplete(ops: seq<Op>)
    requires ValidRun(ops)
    ensures AuditComplete(Exec(ops))
    decreases |ops|
  {
    if ops != [] {
      AuditLogIsComplete(ops[..|ops| - 1]);
      StepKeepsAudit(Exec(ops[..|ops| - 1]), ops[|ops| - 1]);
    }
  }

  // ----- What a log that replays says about one task -----

  function CountDispatches(log: seq<AuditEvent>, id: nat): nat {
    if log == [] then 0
    else
      var e := log[|log| - 1];
      CountDispatches(log[..|log| - 1], id) + if e.TaskEvent? && e.taskId == id && e.action.Dispatch? then 1 else 0
  }

  predicate IsTerminal(e: AuditEvent, id: nat) {
    e.TaskEvent? && e.taskId == id && (e.action.TaskResult? || e.action.WatchdogExpire?)
  }

  function TerminalEvents(log: seq<AuditEvent>, id: nat): seq<AuditEvent> {
    if log == [] then []
    else
      var e := log[|log| - 1];
      TerminalEvents(log[..|log| - 1], id) + if IsTerminal(e, id) then [e] else []
  }

  lemma {:induction false} PendingIsUnstarted(log: seq<AuditEvent>, id: nat)
    ensures var r := ReplayTask(log, id);
            r.Row? && r.row.status.Pending? ==> r.row.startedAt.None? && r.row.attemptCount == 0
    decreases |log|
  {
    if log != [] {
      PendingIsUnstarted(log[..|log| - 1], id);
    }
  }

  ghost predicate OutcomeRecorded(v: TaskView, e: AuditEvent) {
    match e
    case TaskEvent(_, TaskResult(outcome, _, code), at) =>
      && v.status == outcome == (if code == 0 then Succeeded else Failed)
      && v.exitCode == Some(code)
      && v.completedAt == Some(at)
      && v.failureReason == (if code == 0 then NoFailure else ExitCodeNonzero)
    case TaskEvent(_, WatchdogExpire(_, _), at) =>
      v.status.Failed? && v.exitCode.None? && v.completedAt == Some(at) && v.failureReason.WorkerLeaseExpired?
    case _ => false
  }

  ghost predicate HistoryMatches(log: seq<AuditEvent>, id: nat, v: TaskView) {
    && v.attemptCount == CountDispatches(log, id)
    && v.attemptCount == (if v.status.Pending? then 0 else 1)
    && var terminal := TerminalEvents(log, id);
       if terminal == [] then
         (v.status.Pending? || v.status.Running?) && v.completedAt.None? && v.exitCode.None? && v.failureReason.NoFailure?
       else terminal == [terminal[0]] && OutcomeRecorded(v, terminal[0])
  }

  lemma {:induction false} ReplayedHistory(log: seq<AuditEvent>, id: nat)
    requires !ReplayTask(log, id).Corrupt?
    ensures ReplayTask(log, id).Nothing? ==> CountDispatches(log, id) == 0 && TerminalEvents(log, id) == []
    ensures ReplayTask(log, id).Row? ==> HistoryMatches(log, id, ReplayTask(log, id).row)
    decreases |log|
  {
    if log != [] {
      var init, e := log[..|log| - 1], log[|log| - 1];
      ReplayedHistory(init, id);
      if IsTerminal(e, id) {
        assert ReplayTask(init, id).row.status.Running?;
        assert TerminalEvents(log, id) == TerminalEvents(init, id) + [e] == [e];
      } else {
        assert TerminalEvents(log, id) == TerminalEvents(init, id);
      }
    }
  }

  /** A task is dispatched at most once and ends at most once, and its row carries
      the outcome of exactly that event. */
  lemma TaskHistory(ops: seq<Op>, id: nat)
    requires ValidRun(ops) && id in Exec(ops).tasks
    ensures HistoryMatches(Exec(ops).audit, id, ViewTask(Exec(ops).tasks[id]))
  {
    AuditLogIsComplete(ops);
    assert ReplayTask(Exec(ops).audit, id) == CurrentTask(Exec(ops), id);
    ReplayedHistory(Exec(ops).audit, id);
  }
}
