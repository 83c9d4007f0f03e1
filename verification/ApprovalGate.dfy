// The approval gate over whole runs: a task that is neither low nor medium risk exists
// only because exactly one approved request for that very task was dispatched, and the
// first decision on a request is the last. ComponentGate does the same for components.
module ApprovalGate {
  import opened Basics
  import opened ControlPlane
  import opened AuditReplay
  import opened StepEffects

  predicate LowOrMedium(risk: string) {
    risk == "low" || risk == "medium"
  }

  /** The risks at which a component action has to wait for an approval. */
  predicate HighOrCritical(risk: string) {
    risk == "high" || risk == "critical"
  }

  /** What the command line, web console, API and Telegram ask of the store: tasks created
      directly are low or medium risk, components changed directly are not high or critical
      risk, and no request is born already dispatched. */
  predicate Gated(op: Op) {
    match op
    case CreateTaskOp(_, _, risk, _, _, _) => LowOrMedium(risk)
    case CreateApprovalOp(_, _, _, _, _, details, _) => details.dispatchedTaskId.None?
    case ApplyOp(_, _, risk, _, _, _, _, _) => !HighOrCritical(risk)
    case UninstallOp(_, _, risk, _, _, _) => !HighOrCritical(risk)
    case _ => true
  }

  ghost predicate GatedRun(ops: seq<Op>) {
    ValidRun(ops) && forall i | 0 <= i < |ops| :: Gated(ops[i])
  }

  // ----- What no step undoes -----

  /** A decided request keeps its decision, a dispatched one its task, and no request changes its terms. */
  predicate ApprovalKept(a: Approval, a': Approval) {
    && a'.subjectType == a.subjectType && a'.subjectId == a.subjectId && a'.action == a.action
    && a'.risk == a.risk && a'.requestedBy == a.requestedBy
    && a'.details.(dispatchedTaskId := None) == a.details.(dispatchedTaskId := None)
    && (!a.status.Requested? ==> a'.status == a.status && a'.decidedBy == a.decidedBy && a'.decidedAt == a.decidedAt)
    && (a.details.dispatchedTaskId.Some? ==> a'.details == a.details)
    && (a'.details.dispatchedTaskId.Some? && a.details.dispatchedTaskId.None? ==> a'.status.Approved?)
  }

  predicate TaskKept(t: Task, t': Task) {
    && t'.nodeId == t.nodeId && t'.command == t.command && t'.risk == t.risk && t'.executor == t.executor
    && t'.createdAt == t.createdAt && t'.createdBy == t.createdBy
  }

  ghost predicate Kept(s: Db, s': Db) {
    && FreshIds(s')
    && s.nextId <= s'.nextId
    && (forall id | id in s.approvals :: id in s'.approvals && ApprovalKept(s.approvals[id], s'.approvals[id]))
    && (forall id | id in s.tasks :: id in s'.tasks && TaskKept(s.tasks[id], s'.tasks[id]))
    && (forall id | id in s'.tasks && id !in s.tasks :: s.nextId <= id)
    && (forall id | id in s'.approvals && id !in s.approvals :: s.nextId <= id)
  }

  lemma DispatchTaskKeeps(s: Db, id: nat, now: Time)
    requires FreshIds(s)
    ensures Kept(s, DispatchTask(s, id, now))
  {
    match TaskVerdict(s, id)
    case Ignore =>
    case Refuse(reason) =>
    case Proceed =>
      var task := TaskFor(s.approvals[id], now);
      var inserted := InsertTask(s, task, now);
      InsertTaskKeeps(s, task, now);
      LinkTaskKeeps(inserted, id, s.nextId, task, now);
      KeptTransitive(s, inserted, LinkTask(inserted, id, s.nextId, task, now));
  }

  lemma LinkTaskKeeps(s: Db, id: nat, taskId: nat, task: Task, now: Time)
    requires FreshIds(s) && id in s.approvals && s.approvals[id].status.Approved? && s.approvals[id].details.dispatchedTaskId.None?
    ensures Kept(s, LinkTask(s, id, taskId, task, now))
  {
  }

  lemma DispatchComponentKeeps(s: Db, id: nat, now: Time)
    requires FreshIds(s)
    ensures Kept(s, DispatchComponent(s, id, now))
  {
    match ComponentVerdict(s, id)
    case Ignore =>
    case Refuse(reason) =>
    case Proceed => assert s.approvals[id].subjectId.id in s.runs;
  }

  lemma DecideKeeps(s: Db, id: nat, decision: ApprovalStatus, decidedBy: string, now: Time)
    requires FreshIds(s) && !decision.Requested?
    ensures Kept(s, Decide(s, id, decision, decidedBy, now))
  {
  }

  lemma NewRunKeeps(s: Db, op: Op)
    requires FreshIds(s) && Permitted(s, op) && (op.RecordRunOp? || op.ApplyOp? || op.UninstallOp?)
    ensures var s' := Step(s, op); Kept(s, s') && s'.approvals == s.approvals && s'.tasks == s.tasks
  {
  }

  lemma KeptTransitive(s: Db, mid: Db, s': Db)
    requires Kept(s, mid) && Kept(mid, s')
    ensures Kept(s, s')
  {
  }

  lemma ExpireOneKeeps(s: Db, id: nat, now: Time)
    requires FreshIds(s) && id in s.tasks
    ensures Kept(s, ExpireOne(s, id, now))
  {
  }

  lemma {:induction false} ExpireAllKeeps(s: Db, ids: seq<nat>, now: Time)
    requires FreshIds(s) && forall id | id in ids :: id in s.tasks
    ensures Kept(s, ExpireAll(s, ids, now))
    ensures ExpireAll(s, ids, now).approvals == s.approvals
  {
    if ids != [] {
      var last := |ids| - 1;
      assert forall id | id in ids[..last] :: id in ids;
      assert ids[last] in ids;
      ExpireAllKeeps(s, ids[..last], now);
      ExpireOneKeeps(ExpireAll(s, ids[..last], now), ids[last], now);
      KeptTransitive(s, ExpireAll(s, ids[..last], now), ExpireAll(s, ids, now));
    }
  }

  lemma InsertTaskKeeps(s: Db, task: Task, now: Time)
    requires FreshIds(s)
    ensures Kept(s, InsertTask(s, task, now))
  {
  }

  lemma UpdateTaskKeeps(s: Db, id: nat, t: Task, e: AuditEvent)
    requires FreshIds(s) && id in s.tasks && TaskKept(s.tasks[id], t)
    ensures Kept(s, Log(s.(tasks := s.tasks[id := t]), e))
  {
  }

  lemma TaskStepKeeps(s: Db, op: Op)
    requires FreshIds(s) && Permitted(s, op) && (op.CreateTaskOp? || op.ClaimOp? || op.CompleteOp?)
    ensures Kept(s, Step(s, op))
  {
    var s' := Step(s, op);
    if op.CreateTaskOp? {
      InsertTaskKeeps(s, s'.tasks[s.nextId], op.now);
    } else if s' != s {
      var id := if op.ClaimOp? then op.chosen.value else op.taskId;
      UpdateTaskKeeps(s, id, s'.tasks[id], s'.audit[|s.audit|]);
    }
  }

  lemma StepKeeps(s: Db, op: Op)
    requires FreshIds(s) && Permitted(s, op)
    ensures Kept(s, Step(s, op))
  {
    match op
    case DecideOp(id, decision, actor, now) => DecideKeeps(s, id, decision, actor, now);
    case DispatchTaskOp(id, now) => DispatchTaskKeeps(s, id, now);
    case DispatchComponentOp(id, now) => DispatchComponentKeeps(s, id, now);
    case ExpireOp(_, now, expired) => ExpireAllKeeps(s, expired, now);
    case RecordRunOp(_, _, _, _, _, _) => NewRunKeeps(s, op);
    case ApplyOp(_, _, _, _, _, _, _, _) => NewRunKeeps(s, op);
    case UninstallOp(_, _, _, _, _, _) => NewRunKeeps(s, op);
    case CreateTaskOp(_, _, _, _, _, _) => TaskStepKeeps(s, op);
    case ClaimOp(_, _, _, _, _) => TaskStepKeeps(s, op);
    case CompleteOp(_, _, _, _, _) => TaskStepKeeps(s, op);
    case SetNode(_, _) =>
    case CreateApprovalOp(_, _, _, _, _, _, _) =>
  }

  lemma {:induction false} RunKeeps(ops: seq<Op>, i: nat)
    requires ValidRun(ops) && i <= |ops|
    ensures ValidRun(ops[..i]) && Kept(Exec(ops[..i]), Exec(ops))
    decreases |ops|
  {
    if i == |ops| {
      assert ops[..i] == ops;
      AuditLogIsComplete(ops);
    } else {
      var init := ops[..|ops| - 1];
      RunKeeps(init, i);
      assert init[..i] == ops[..i];
      StepKeeps(Exec(init), ops[|ops| - 1]);
      KeptTransitive(Exec(ops[..i]), Exec(init), Exec(ops));
    }
  }

  /** The first decision stands: whatever happens later, a decided request keeps its
      status and decider, and a dispatched one points at the same task. */
  lemma FirstDecisionIsFinal(ops: seq<Op>, i: nat, id: nat)
    requires ValidRun(ops) && i <= |ops| && ValidRun(ops[..i]) && id in Exec(ops[..i]).approvals
    ensures var before := Exec(ops[..i]).approvals[id];
            && id in Exec(ops).approvals
            && var after := Exec(ops).approvals[id];
               && (!before.status.Requested? ==>
                     after.status == before.status && after.decidedBy == before.decidedBy && after.decidedAt == before.decidedAt)
               && (before.details.dispatchedTaskId.Some? ==> after.details == before.details)
               && (before.status.Rejected? && before.details.dispatchedTaskId.None? ==> after.details.dispatchedTaskId.None?)
  {
    RunKeeps(ops, i);
  }

  // ----- The gate -----

  /** `id` is an approved request for exactly the task it was dispatched as. */
  predicate ApprovedAs(s: Db, id: nat, taskId: nat) {
    && id in s.approvals && taskId in s.tasks
    && var a, t := s.approvals[id], s.tasks[taskId];
       && a.details.dispatchedTaskId == Some(taskId)
       && a.status == Approved && AsksForTask(a) && AskedFor(a, t)
  }

  ghost predicate Gate(s: Db) {
    && FreshIds(s)
    && (forall id | id in s.approvals && s.approvals[id].details.dispatchedTaskId.Some? ::
          ApprovedAs(s, id, s.approvals[id].details.dispatchedTaskId.value))
    && (forall id, other | id in s.approvals && other in s.approvals && s.approvals[id].details.dispatchedTaskId.Some? ::
          s.approvals[id].details.dispatchedTaskId == s.approvals[other].details.dispatchedTaskId ==> id == other)
    && (forall taskId | taskId in s.tasks && !LowOrMedium(s.tasks[taskId].risk) ::
          exists id :: id in s.approvals && ApprovedAs(s, id, taskId))
  }

  lemma ApprovedStays(s: Db, s': Db, id: nat, taskId: nat)
    requires Kept(s, s') && ApprovedAs(s, id, taskId)
    ensures ApprovedAs(s', id, taskId)
  {
    assert ApprovalKept(s.approvals[id], s'.approvals[id]) && TaskKept(s.tasks[taskId], s'.tasks[taskId]);
  }

  lemma RiskyStayApproved(s: Db, s': Db)
    requires Gate(s) && Kept(s, s')
    ensures forall taskId | taskId in s.tasks && !LowOrMedium(s.tasks[taskId].risk) ::
              exists id :: id in s'.approvals && ApprovedAs(s', id, taskId)
  {
    forall taskId | taskId in s.tasks && !LowOrMedium(s.tasks[taskId].risk)
      ensures exists id :: id in s'.approvals && ApprovedAs(s', id, taskId)
    {
      var id :| id in s.approvals && ApprovedAs(s, id, taskId);
      ApprovedStays(s, s', id, taskId);
    }
  }

  /** A step that links nothing new and adds no risky task keeps the gate. */
  lemma GateFrame(s: Db, s': Db)
    requires Gate(s) && Kept(s, s')
    requires forall id | id in s'.approvals && s'.approvals[id].details.dispatchedTaskId.Some? ::
               id in s.approvals && s.approvals[id].details.dispatchedTaskId.Some?
    requires forall id | id in s'.tasks && id !in s.tasks :: LowOrMedium(s'.tasks[id].risk)
    ensures Gate(s')
  {
    RiskyStayApproved(s, s');
    LinksStay(s, s');
  }

  /** A request that had its task has it still, and has what it asked for. */
  lemma LinksStay(s: Db, s': Db)
    requires Gate(s) && Kept(s, s')
    ensures forall id | id in s.approvals && s.approvals[id].details.dispatchedTaskId.Some? ::
              && id in s'.approvals && s'.approvals[id].details == s.approvals[id].details
              && ApprovedAs(s', id, s.approvals[id].details.dispatchedTaskId.value)
              && s.approvals[id].details.dispatchedTaskId.value < s.nextId
  {
    forall id | id in s.approvals && s.approvals[id].details.dispatchedTaskId.Some?
      ensures id in s'.approvals && s'.approvals[id].details == s.approvals[id].details
      ensures ApprovedAs(s', id, s.approvals[id].details.dispatchedTaskId.value)
      ensures s.approvals[id].details.dispatchedTaskId.value < s.nextId
    {
      assert ApprovalKept(s.approvals[id], s'.approvals[id]);
      ApprovedStays(s, s', id, s.approvals[id].details.dispatchedTaskId.value);
    }
  }

  /** A fresh task linked from an approval that had none keeps the gate. */
  lemma FreshLinkGate(s: Db, s': Db, id: nat)
    requires Gate(s) && Kept(s, s')
    requires s'.tasks.Keys == s.tasks.Keys + {s.nextId} && s'.approvals.Keys == s.approvals.Keys
    requires ApprovedAs(s', id, s.nextId)
    requires forall other | other in s.approvals && other != id :: s'.approvals[other] == s.approvals[other]
    ensures Gate(s')
  {
    RiskyStayApproved(s, s');
    LinksStay(s, s');
    forall taskId | taskId in s'.tasks && !LowOrMedium(s'.tasks[taskId].risk)
      ensures exists a :: a in s'.approvals && ApprovedAs(s', a, taskId)
    {
      if taskId !in s.tasks { assert id in s'.approvals && ApprovedAs(s', id, taskId); }
    }
  }

  lemma LinkGate(s: Db, id: nat, now: Time)
    requires Gate(s) && TaskVerdict(s, id).Proceed?
    ensures Gate(DispatchTask(s, id, now))
  {
    DispatchTaskKeeps(s, id, now);
    FreshLinkGate(s, DispatchTask(s, id, now), id);
  }

  lemma DispatchTaskGate(s: Db, id: nat, now: Time)
    requires Gate(s)
    ensures Gate(DispatchTask(s, id, now))
  {
    match TaskVerdict(s, id)
    case Ignore =>
    case Refuse(_) =>
      DispatchTaskKeeps(s, id, now);
      GateFrame(s, DispatchTask(s, id, now));
    case Proceed => LinkGate(s, id, now);
  }

  lemma DispatchComponentGate(s: Db, id: nat, now: Time)
    requires Gate(s)
    ensures Gate(DispatchComponent(s, id, now))
  {
    DispatchComponentKeeps(s, id, now);
    GateFrame(s, DispatchComponent(s, id, now));
  }

  lemma NewRunGate(s: Db, op: Op)
    requires Gate(s) && Permitted(s, op) && (op.RecordRunOp? || op.ApplyOp? || op.UninstallOp?)
    ensures Gate(Step(s, op))
  {
    NewRunKeeps(s, op);
    GateFrame(s, Step(s, op));
  }

  /** Creating, claiming and finishing a task leave the links alone. */
  lemma TaskStepGate(s: Db, op: Op)
    requires Gate(s) && Gated(op) && Permitted(s, op) && (op.CreateTaskOp? || op.ClaimOp? || op.CompleteOp?)
    ensures Gate(Step(s, op))
  {
    TaskStepKeeps(s, op);
    GateFrame(s, Step(s, op));
  }

  lemma DecideGate(s: Db, op: Op)
    requires Gate(s) && Permitted(s, op) && op.DecideOp?
    ensures Gate(Step(s, op))
  {
    DecideKeeps(s, op.approvalId, op.decision, op.decidedBy, op.now);
    GateFrame(s, Step(s, op));
  }

  /** So do requests, decisions and node changes. */
  lemma OtherStepGate(s: Db, op: Op)
    requires Gate(s) && Gated(op) && Permitted(s, op) && (op.CreateApprovalOp? || op.DecideOp? || op.SetNode?)
    ensures Gate(Step(s, op))
  {
    if op.DecideOp? {
      DecideGate(s, op);
    } else {
      StepKeeps(s, op);
      GateFrame(s, Step(s, op));
    }
  }

  lemma StepGate(s: Db, op: Op)
    requires Gate(s) && Gated(op) && Permitted(s, op)
    ensures Gate(Step(s, op))
  {
    match op
    case DispatchTaskOp(id, now) => DispatchTaskGate(s, id, now);
    case DispatchComponentOp(id, now) => DispatchComponentGate(s, id, now);
    case ExpireOp(_, now, expired) =>
      ExpireAllKeeps(s, expired, now);
      GateFrame(s, Step(s, op));
    case _ =>
      if op.RecordRunOp? || op.ApplyOp? || op.UninstallOp? {
        NewRunGate(s, op);
      } else if op.CreateTaskOp? || op.ClaimOp? || op.CompleteOp? {
        TaskStepGate(s, op);
      } else {
        OtherStepGate(s, op);
      }
  }

  lemma {:induction false} RunGate(ops: seq<Op>)
    requires GatedRun(ops)
    ensures Gate(Exec(ops))
    decreases |ops|
  {
    if ops != [] {
      var init := ops[..|ops| - 1];
      assert forall i | 0 <= i < |init| :: init[i] == ops[i];
      RunGate(init);
      StepGate(Exec(init), ops[|ops| - 1]);
    }
  }

  /** A task that is not low or medium risk was dispatched by exactly one request, which is
      approved and asks for that node, that command and that risk. */
  lemma RiskyTaskHasOneApproval(ops: seq<Op>, taskId: nat) returns (id: nat)
    requires GatedRun(ops) && taskId in Exec(ops).tasks && !LowOrMedium(Exec(ops).tasks[taskId].risk)
    ensures ApprovedAs(Exec(ops), id, taskId)
    ensures forall other | other in Exec(ops).approvals ::
              Exec(ops).approvals[other].details.dispatchedTaskId == Some(taskId) ==> other == id
  {
    RunGate(ops);
    id :| id in Exec(ops).approvals && ApprovedAs(Exec(ops), id, taskId);
  }

  /** What was asked for is what was made: a task dispatched for a request that was there
      earlier has the node, command, risk, executor and creator that the request named then. */
  lemma RequestReachesTask(ops: seq<Op>, i: nat, id: nat)
    requires GatedRun(ops) && i <= |ops| && ValidRun(ops[..i]) && id in Exec(ops[..i]).approvals
    requires id in Exec(ops).approvals && Exec(ops).approvals[id].details.dispatchedTaskId.Some?
    ensures var taskId := Exec(ops).approvals[id].details.dispatchedTaskId.value;
            && taskId in Exec(ops).tasks
            && AskedFor(Exec(ops[..i]).approvals[id], Exec(ops).tasks[taskId])
            && AsksForTask(Exec(ops[..i]).approvals[id]) && Exec(ops[..i]).approvals[id].status != Rejected
  {
    RunKeeps(ops, i);
    RunGate(ops);
    assert ApprovalKept(Exec(ops[..i]).approvals[id], Exec(ops).approvals[id]);
    assert ApprovedAs(Exec(ops), id, Exec(ops).approvals[id].details.dispatchedTaskId.value);
  }

  /** A request still open or rejected has no task, now or at any later time if rejected. */
  lemma UnapprovedHasNoTask(ops: seq<Op>, id: nat)
    requires GatedRun(ops) && id in Exec(ops).approvals && !Exec(ops).approvals[id].status.Approved?
    ensures Exec(ops).approvals[id].details.dispatchedTaskId.None?
  {
    RunGate(ops);
  }

  function CountTaskDispatches(log: seq<AuditEvent>, id: nat): nat {
    if log == [] then 0
    else
      var e := log[|log| - 1];
      CountTaskDispatches(log[..|log| - 1], id) +
      if e.ApprovalEvent? && e.approvalId == id && e.approvalAction.DispatchOk? then 1 else 0
  }

  lemma {:induction false} ReplayedDispatches(log: seq<AuditEvent>, id: nat)
    requires !ReplayApproval(log, id).Corrupt?
    requires forall i | 0 <= i < |log| && log[i].ApprovalEvent? && log[i].approvalAction.Request? ::
               log[i].approvalAction.told.others.dispatchedTaskId.None?
    ensures ReplayApproval(log, id).Nothing? ==> CountTaskDispatches(log, id) == 0
    ensures ReplayApproval(log, id).Row? ==>
              CountTaskDispatches(log, id) == if ReplayApproval(log, id).row.told.others.dispatchedTaskId.Some? then 1 else 0
    decreases |log|
  {
    if log != [] {
      ReplayedDispatches(log[..|log| - 1], id);
    }
  }

  lemma DispatchLogsNoRequest(s: Db, id: nat, now: Time)
    ensures forall i | |s.audit| <= i < |DispatchTask(s, id, now).audit| ::
              !(DispatchTask(s, id, now).audit[i].ApprovalEvent? && DispatchTask(s, id, now).audit[i].approvalAction.Request?)
    ensures s.audit <= DispatchTask(s, id, now).audit
  {
    match TaskVerdict(s, id)
    case Ignore =>
    case Refuse(_) =>
    case Proceed =>
  }

  ghost predicate RequestsUndispatched(log: seq<AuditEvent>) {
    forall i | 0 <= i < |log| && log[i].ApprovalEvent? && log[i].approvalAction.Request? ::
      log[i].approvalAction.told.others.dispatchedTaskId.None?
  }

  lemma {:induction false} ExpireLogsNoRequest(s: Db, ids: seq<nat>, now: Time)
    requires RequestsUndispatched(s.audit) && forall id | id in ids :: id in s.tasks
    ensures RequestsUndispatched(ExpireAll(s, ids, now).audit)
  {
    if ids != [] {
      assert forall id | id in ids[..|ids| - 1] :: id in ids;
      ExpireLogsNoRequest(s, ids[..|ids| - 1], now);
    }
  }

  lemma StepRequestsUndispatched(s: Db, op: Op)
    requires Permitted(s, op) && Gated(op) && RequestsUndispatched(s.audit)
    ensures RequestsUndispatched(Step(s, op).audit)
  {
    match op
    case DispatchTaskOp(id, now) => DispatchLogsNoRequest(s, id, now);
    case DispatchComponentOp(id, now) =>
      assert ComponentVerdict(s, id).Proceed? ==> s.approvals[id].subjectId.id in s.runs;
    case ExpireOp(_, now, expired) => ExpireLogsNoRequest(s, expired, now);
    case _ =>
  }

  lemma {:induction false} RunRequestsUndispatched(ops: seq<Op>)
    requires GatedRun(ops)
    ensures RequestsUndispatched(Exec(ops).audit)
    decreases |ops|
  {
    if ops != [] {
      var init, op := ops[..|ops| - 1], ops[|ops| - 1];
      assert forall i | 0 <= i < |init| :: init[i] == ops[i];
      RunRequestsUndispatched(init);
      StepRequestsUndispatched(Exec(init), op);
    }
  }

  /** However often a request is approved and dispatched again, the log holds one
      successful dispatch if it has a task and none if it has not. */
  lemma DispatchedAtMostOnce(ops: seq<Op>, id: nat)
    requires GatedRun(ops)
    ensures CountTaskDispatches(Exec(ops).audit, id) ==
            if id in Exec(ops).approvals && Exec(ops).approvals[id].details.dispatchedTaskId.Some? then 1 else 0
  {
    AuditLogIsComplete(ops);
    RunRequestsUndispatched(ops);
    assert ReplayApproval(Exec(ops).audit, id) == CurrentApproval(Exec(ops), id);
    ReplayedDispatches(Exec(ops).audit, id);
  }

  // ----- The log of dispatches -----

  /** A logged dispatch names a task that is there, and tells of it what the log's
      creation event does not: who created it. */
  predicate DispatchTold(tasks: map<nat, Task>, e: AuditEvent) {
    e.ApprovalEvent? && e.approvalAction.DispatchOk? ==>
      var told := e.approvalAction;
      && told.taskId in tasks
      && var t := tasks[told.taskId];
         told == DispatchedAs(told.taskId, t)
  }

  ghost predicate DispatchesTold(s: Db) {
    forall i | 0 <= i < |s.audit| :: DispatchTold(s.tasks, s.audit[i])
  }

  lemma ToldFrame(s: Db, s': Db)
    requires DispatchesTold(s) && Kept(s, s') && s.audit <= s'.audit
    requires forall i | |s.audit| <= i < |s'.audit| :: DispatchTold(s'.tasks, s'.audit[i])
    ensures DispatchesTold(s')
  {
    forall i | 0 <= i < |s'.audit| ensures DispatchTold(s'.tasks, s'.audit[i]) {
      if i < |s.audit| { assert DispatchTold(s.tasks, s.audit[i]); }
    }
  }

  lemma {:induction false} ExpireTells(s: Db, ids: seq<nat>, now: Time)
    requires FreshIds(s) && DispatchesTold(s) && forall id | id in ids :: id in s.tasks
    ensures DispatchesTold(ExpireAll(s, ids, now))
  {
    if ids != [] {
      var last := |ids| - 1;
      assert forall id | id in ids[..last] :: id in ids;
      assert ids[last] in ids;
      ExpireTells(s, ids[..last], now);
      ExpireAllKeeps(s, ids[..last], now);
      var mid := ExpireAll(s, ids[..last], now);
      ExpireOneKeeps(mid, ids[last], now);
      ToldFrame(mid, ExpireOne(mid, ids[last], now));
    }
  }

  lemma LinkTells(s: Db, id: nat, now: Time)
    requires DispatchesTold(s) && TaskVerdict(s, id).Proceed? && Kept(s, DispatchTask(s, id, now))
    ensures DispatchesTold(DispatchTask(s, id, now))
  {
    var s' := DispatchTask(s, id, now);
    assert s'.audit[|s.audit|].TaskEvent? && |s'.audit| == |s.audit| + 2;
    assert DispatchTold(s'.tasks, s'.audit[|s.audit| + 1]);
    ToldFrame(s, s');
  }

  lemma DispatchTells(s: Db, id: nat, now: Time)
    requires FreshIds(s) && DispatchesTold(s)
    ensures DispatchesTold(DispatchTask(s, id, now))
  {
    DispatchTaskKeeps(s, id, now);
    match TaskVerdict(s, id)
    case Ignore =>
    case Refuse(_) => ToldFrame(s, DispatchTask(s, id, now));
    case Proceed => LinkTells(s, id, now);
  }

  lemma OtherStepTells(s: Db, op: Op)
    requires FreshIds(s) && DispatchesTold(s) && Permitted(s, op) && !op.DispatchTaskOp? && !op.ExpireOp?
    ensures DispatchesTold(Step(s, op))
  {
    StepKeeps(s, op);
    if op.DispatchComponentOp? && ComponentVerdict(s, op.approvalId).Proceed? {
      assert s.approvals[op.approvalId].subjectId.id in s.runs;
    }
    ToldFrame(s, Step(s, op));
  }

  /** Every logged dispatch tells the node, command, risk, executor and creator that its
      task has to this day. */
  lemma {:induction false} LoggedDispatchesAreTrue(ops: seq<Op>)
    requires ValidRun(ops)
    ensures DispatchesTold(Exec(ops))
    decreases |ops|
  {
    if ops != [] {
      var init, op := ops[..|ops| - 1], ops[|ops| - 1];
      LoggedDispatchesAreTrue(init);
      AuditLogIsComplete(init);
      var s := Exec(init);
      match op
      case DispatchTaskOp(id, now) => DispatchTells(s, id, now);
      case ExpireOp(_, now, expired) => ExpireTells(s, expired, now);
      case _ => OtherStepTells(s, op);
    }
  }

  // ----- Dispatching again -----

  /** Dispatching a request that has its task changes nothing at all. */
  lemma RedispatchIsNoop(s: Db, id: nat, now: Time, later: Time)
    requires TaskVerdict(s, id).Proceed?
    ensures DispatchTask(DispatchTask(s, id, now), id, later) == DispatchTask(s, id, now)
  {
    assert TaskVerdict(DispatchTask(s, id, now), id).Ignore?;
  }
}
