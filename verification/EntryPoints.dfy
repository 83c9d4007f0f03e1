// The ways in: command line, web console, HTTP API and Telegram callback. Each is a
// sequence of store calls, and none of them can make the store take an ungated step.
module EntryPoints {
  import opened Basics
  import opened ControlPlane
  import opened AuditReplay
  import opened ApprovalGate
  import opened ComponentGate
  import opened RequestLog
  import opened StepEffects
  import opened Store
  import ConsoleRisk

  datatype TaskOutcome = Created(taskId: nat) | AwaitsApproval(approvalId: nat) | Refused

  datatype DecisionOutcome =
    | NotFound
    | AlreadyDecided(status: ApprovalStatus)
    | Resolved(dispatchedTaskId: Option<nat>)
    | Undispatchable

  /** The store's history is a gated run whose requests agree with their details, and its
      tables are what that run made. */
  ghost predicate Guarded(store: SQLiteStore)
    reads store
  {
    store.Valid() && GatedRun(store.history) && AgreeingRun(store.history)
  }

  /** In a guarded store every risky task has its one approval, every recorded risky run
      was released by the request it names, and every component row shows such a run. */
  lemma GuardedStoreIsGated(store: SQLiteStore)
    requires Guarded(store)
    ensures forall taskId | taskId in store.tasks && !LowOrMedium(store.tasks[taskId].risk) ::
              exists id :: ApprovedAs(store.View(), id, taskId)
    ensures forall id, other, taskId ::
              ApprovedAs(store.View(), id, taskId) && ApprovedAs(store.View(), other, taskId) ==> id == other
    ensures forall runId | runId in store.runs :: RunReleased(store.View(), runId)
    ensures forall key | key in store.components :: RowFollowsRun(store.View(), key)
  {
    RunGate(store.history);
    RunComponentGate(store.history);
    forall taskId | taskId in store.tasks && !LowOrMedium(store.tasks[taskId].risk)
      ensures exists id :: ApprovedAs(store.View(), id, taskId)
    {
      var id := RiskyTaskHasOneApproval(store.history, taskId);
    }
  }

  /** In a guarded store the log tells every column of every request that it logs. */
  lemma GuardedStoreIsTold(store: SQLiteStore, id: nat)
    requires Guarded(store) && id in store.approvals
    ensures ReplayApproval(store.audit, id).Row? && ReadsAs(ReplayApproval(store.audit, id).row, store.approvals[id])
  {
    LogTellsRequests(store.history, id);
  }

  /** One more step that a front end may take. */
  lemma GuardedStep(ops: seq<Op>, op: Op)
    requires GatedRun(ops) && AgreeingRun(ops) && ValidRun(ops + [op]) && Gated(op) && Agrees(op)
    ensures GatedRun(ops + [op]) && AgreeingRun(ops + [op])
  {
  }

  lemma DispatchedIsApproved(store: SQLiteStore, id: nat)
    requires Guarded(store) && id in store.approvals && store.approvals[id].details.dispatchedTaskId.Some?
    ensures ApprovedAs(store.View(), id, store.approvals[id].details.dispatchedTaskId.value)
  {
    RunGate(store.history);
  }

  function TaskDetails(nodeId: string, command: string, createdBy: string, executor: string, risk: Option<string>): Details {
    Details(Some(nodeId), Some(command), Some(createdBy), Some(executor), None, None, None, None, None, None, None, risk, None)
  }

  /** A request for this very task, still open and not dispatched. */
  predicate OpenRequest(s: Db, id: nat, nodeId: string, command: string, risk: string, createdBy: string, executor: string) {
    && id in s.approvals
    && var a := s.approvals[id];
       && a.status == ApprovalStatus.Requested && AsksForTask(a) && a.risk == risk && a.requestedBy == createdBy
       && a.details.nodeId == Some(nodeId) && a.details.command == Some(command) && a.details.createdBy == Some(createdBy)
       && a.details.executor == Some(executor) && a.details.dispatchedTaskId == None
  }

  /** The one new request asks for this very task; nothing else but the log has changed. */
  predicate TaskRequested(s: Db, s': Db, id: nat, nodeId: string, command: string, risk: string, createdBy: string,
                          executor: string, now: Time)
  {
    && OpenRequest(s', id, nodeId, command, risk, createdBy, executor)
    && id == s.nextId && s'.approvals == s.approvals[id := s'.approvals[id]] && s'.approvals[id].createdAt == now
    && s'.tasks == s.tasks && s'.nodes == s.nodes && s'.runs == s.runs && s'.components == s.components
  }

  lemma RequestedTask(s: Db, s': Db, subjectId: SubjectId, nodeId: string, command: string, risk: string, createdBy: string,
                      executor: string, told: Option<string>, now: Time)
    requires RequestCreated(s, s', TaskSubject, subjectId, TaskRun, risk, createdBy,
                            TaskDetails(nodeId, command, createdBy, executor, told), now)
    ensures TaskRequested(s, s', s.nextId, nodeId, command, risk, createdBy, executor, now)
  {
  }

  /** Whatever task is ever dispatched for an open request is the one that was asked for. */
  lemma OpenRequestReachesTask(ops: seq<Op>, i: nat, id: nat, nodeId: string, command: string, risk: string,
                               createdBy: string, executor: string)
    requires GatedRun(ops) && i <= |ops| && ValidRun(ops[..i])
    requires OpenRequest(Exec(ops[..i]), id, nodeId, command, risk, createdBy, executor)
    ensures id in Exec(ops).approvals
    ensures Exec(ops).approvals[id].details.dispatchedTaskId.Some? ==>
              var taskId := Exec(ops).approvals[id].details.dispatchedTaskId.value;
              && taskId in Exec(ops).tasks
              && var t := Exec(ops).tasks[taskId];
                 && t.nodeId == nodeId && t.command == command && t.risk == risk && t.createdBy == createdBy
                 && t.executor == (if executor == "" then "worker" else executor)
  {
    RunKeeps(ops, i);
    if Exec(ops).approvals[id].details.dispatchedTaskId.Some? {
      RequestReachesTask(ops, i, id);
    }
  }

  /** A task that needs no approval. */
  method AddTask(store: SQLiteStore, nodeId: string, command: string, risk: string, createdBy: string, executor: string, now: Time)
    returns (taskId: nat)
    requires Guarded(store) && risk in {"low", "medium"}
    modifies store
    ensures Guarded(store) && taskId == old(store.nextId)
    ensures TaskCreated(old(store.View()), store.View(), nodeId, command, risk, createdBy, executor, now)
  {
    taskId := store.CreateTask(nodeId, command, risk, createdBy, executor, now);
    GuardedStep(old(store.history), CreateTaskOp(nodeId, command, risk, createdBy, executor, now));
  }

  /** The request for a task that needs one. */
  method AskForTask(store: SQLiteStore, subjectId: string, nodeId: string, command: string, risk: string, createdBy: string,
                    executor: string, told: Option<string>, now: Time)
    returns (approvalId: nat)
    requires Guarded(store) && (told.Some? ==> told.value == risk)
    modifies store
    ensures Guarded(store)
    ensures TaskRequested(old(store.View()), store.View(), approvalId, nodeId, command, risk, createdBy, executor, now)
  {
    var details := TaskDetails(nodeId, command, createdBy, executor, told);
    approvalId := store.CreateApprovalRequest(TaskSubject, OtherId(subjectId), TaskRun, risk, createdBy, details, now);
    GuardedStep(old(store.history), CreateApprovalOp(TaskSubject, OtherId(subjectId), TaskRun, risk, createdBy, details, now));
    RequestedTask(old(store.View()), store.View(), OtherId(subjectId), nodeId, command, risk, createdBy, executor, told, now);
  }

  /** `hmn task run`. */
  method CreateTaskCommand(store: SQLiteStore, nodeId: string, command: string, risk: string, executor: string, now: Time)
    returns (r: TaskOutcome)
    requires Guarded(store)
    modifies store
    ensures Guarded(store)
    ensures r.Refused? ==> store.View() == old(store.View())
    ensures r.Refused? <==>
              nodeId !in old(store.nodes) || executor !in {"worker", "ssh"} || risk !in {"low", "medium", "high", "critical"}
    ensures r.Created? ==>
              && risk in {"low", "medium"} && r.taskId == old(store.nextId)
              && TaskCreated(old(store.View()), store.View(), nodeId, command, risk, "hmn", executor, now)
    ensures r.AwaitsApproval? ==>
              && risk in {"high", "critical"}
              && TaskRequested(old(store.View()), store.View(), r.approvalId, nodeId, command, risk, "hmn", executor, now)
  {
    if nodeId !in store.nodes || (executor != "worker" && executor != "ssh") {
      return Refused;
    }
    if risk == "high" || risk == "critical" {
      var approvalId := AskForTask(store, "pending-task", nodeId, command, risk, "hmn", executor, Some(risk), now);
      return AwaitsApproval(approvalId);
    }
    if risk != "low" && risk != "medium" {
      return Refused;
    }
    var taskId := AddTask(store, nodeId, command, risk, "hmn", executor, now);
    return Created(taskId);
  }

  /** `risk_for_command`, and whether that is the risk at which a command runs at once. */
  method RateCommand(command: string) returns (risk: string, low: bool)
    ensures low <==> ConsoleRisk.LowRiskWords(ConsoleRisk.Words(command))
    ensures risk == if low then "low" else "high"
  {
    risk := ConsoleRisk.RiskForCommand(command);
    low := risk == "low";
    ConsoleRisk.RiskIsReadOffWords(command);
    assert "low"[0] != "high"[0];
  }

  /** The console's task form and endpoint: only what the risk rule calls low runs at once. */
  method CreateConsoleTask(store: SQLiteStore, nodeId: string, command: string, createdBy: string, executor: string, now: Time)
    returns (r: TaskOutcome)
    requires Guarded(store)
    modifies store
    ensures Guarded(store)
    ensures r.Refused? ==> store.View() == old(store.View())
    ensures r.Refused? <==> !TakesTasks(old(store.View()), nodeId)
    ensures r.Created? ==>
              && ConsoleRisk.LowRiskWords(ConsoleRisk.Words(command)) && r.taskId == old(store.nextId)
              && TaskCreated(old(store.View()), store.View(), nodeId, command, "low", createdBy, executor, now)
    ensures r.AwaitsApproval? ==>
              && !ConsoleRisk.LowRiskWords(ConsoleRisk.Words(command))
              && TaskRequested(old(store.View()), store.View(), r.approvalId, nodeId, command, "high", createdBy, executor, now)
  {
    BlockReasons(store.View(), nodeId);
    if nodeId !in store.nodes || !store.nodes[nodeId].status.Managed? {
      return Refused;
    }
    var blocked := TaskDispatchBlockReason(store.View(), nodeId);
    if blocked.Some? {
      return Refused;
    }
    var risk, low := RateCommand(command);
    if low {
      var taskId := AddTask(store, nodeId, command, risk, createdBy, executor, now);
      return Created(taskId);
    }
    var approvalId := AskForTask(store, "console_task_request", nodeId, command, risk, createdBy, executor, None, now);
    return AwaitsApproval(approvalId);
  }

  /** Requests other than for tasks: network tags and ACLs, backups, restores and so on. What
      their details say of subject, action and risk is what the request says. */
  method RequestOtherApproval(store: SQLiteStore, subjectType: SubjectType, subjectId: SubjectId, action: ActionName,
                              risk: string, requestedBy: string, details: Details, now: Time)
    returns (approvalId: nat)
    requires Guarded(store) && !subjectType.TaskSubject? && details.dispatchedTaskId.None?
    requires DetailsAgree(NewApproval(subjectType, subjectId, action, risk, requestedBy, details, now))
    modifies store
    ensures Guarded(store)
    ensures RequestCreated(old(store.View()), store.View(), subjectType, subjectId, action, risk, requestedBy, details, now)
    ensures approvalId == old(store.nextId)
  {
    approvalId := store.CreateApprovalRequest(subjectType, subjectId, action, risk, requestedBy, details, now);
    GuardedStep(old(store.history), CreateApprovalOp(subjectType, subjectId, action, risk, requestedBy, details, now));
  }

  /** An approval of `id` yields a task: it is open or approved, asks for a task, and has
      one already or names a command and a node that tasks may be sent to. */
  predicate YieldsTask(s: Db, id: nat) {
    && id in s.approvals
    && var a := s.approvals[id];
       && AsksForTask(a) && a.status != Rejected
       && (a.details.dispatchedTaskId.Some? ||
           (HasText(a.details.nodeId) && HasText(a.details.command) && TakesTasks(s, a.details.nodeId.value)))
  }

  /** The request carries the decision, and keeps it through the dispatch that follows. */
  predicate DecidedAsSaid(s: Db, id: nat, decision: ApprovalStatus, decidedBy: string, at: Time) {
    && id in s.approvals && s.approvals[id].status == decision
    && s.approvals[id].decidedBy == decidedBy && s.approvals[id].decidedAt == Some(at)
  }

  lemma LinkKeepsDecision(s: Db, id: nat, taskId: nat, task: Task, now: Time, other: nat)
    requires id in s.approvals && other in s.approvals
    ensures var s' := LinkTask(s, id, taskId, task, now);
            other in s'.approvals && s'.approvals[other].(details := s.approvals[other].details) == s.approvals[other]
  {
  }

  lemma DispatchKeepsDecision(s: Db, id: nat, now: Time)
    ensures DispatchTask(s, id, now).approvals.Keys == s.approvals.Keys
    ensures forall other | other in s.approvals ::
              DispatchTask(s, id, now).approvals[other].(details := s.approvals[other].details) == s.approvals[other]
    ensures DispatchComponent(s, id, now).approvals == s.approvals
  {
    DispatchAddsNoRequest(s, id, now);
    if TaskVerdict(s, id).Proceed? {
      var task := TaskFor(s.approvals[id], now);
      forall other | other in s.approvals
        ensures DispatchTask(s, id, now).approvals[other].(details := s.approvals[other].details) == s.approvals[other]
      {
        LinkKeepsDecision(InsertTask(s, task, now), id, s.nextId, task, now, other);
      }
    } else {
      assert DispatchTask(s, id, now).approvals == s.approvals;
    }
  }

  lemma DispatchKeepsSaid(s: Db, id: nat, decision: ApprovalStatus, decidedBy: string, at: Time, now: Time)
    requires DecidedAsSaid(s, id, decision, decidedBy, at)
    ensures DecidedAsSaid(DispatchTask(s, id, now), id, decision, decidedBy, at) && SameSubject(s, DispatchTask(s, id, now), id)
    ensures DecidedAsSaid(DispatchComponent(s, id, now), id, decision, decidedBy, at) && SameSubject(s, DispatchComponent(s, id, now), id)
  {
    DispatchKeepsDecision(s, id, now);
  }

  predicate SameSubject(s: Db, s': Db, id: nat) {
    && id in s.approvals && id in s'.approvals
    && s'.approvals[id].subjectType == s.approvals[id].subjectType && s'.approvals[id].action == s.approvals[id].action
  }

  lemma ResolveKeepsDecision(s: Db, id: nat, decision: ApprovalStatus, decidedBy: string, now: Time)
    requires id in s.approvals && !decision.Requested?
    ensures var s' := Resolve(s, id, decision, decidedBy, now);
            && SameSubject(s, s', id)
            && (s.approvals[id].status.Requested? ==> DecidedAsSaid(s', id, decision, decidedBy, now))
            && (!s.approvals[id].status.Requested? ==> s' == s)
  {
    if s.approvals[id].status.Requested? {
      var decided := Decide(s, id, decision, decidedBy, now);
      assert DecidedAsSaid(decided, id, decision, decidedBy, now) && SameSubject(s, decided, id);
      DispatchKeepsSaid(decided, id, decision, decidedBy, now, now);
    }
  }

  lemma DispatchYields(s: Db, id: nat, now: Time)
    requires id in s.approvals
    ensures var a := DispatchTask(s, id, now).approvals[id];
            (a.status.Approved? && IsTaskApproval(a) && a.details.dispatchedTaskId.Some?) <==>
            (s.approvals[id].status.Approved? && YieldsTask(s, id))
  {
    DispatchKeepsDecision(s, id, now);
    if s.approvals[id].details.nodeId.Some? { BlockReasons(s, s.approvals[id].details.nodeId.value); }
    match TaskVerdict(s, id)
    case Ignore =>
    case Refuse(_) =>
    case Proceed =>
  }

  /** Resolving and dispatching once more yields a task exactly if that was possible before. */
  lemma ApprovalYields(s: Db, id: nat, decidedBy: string, now: Time)
    requires id in s.approvals
    ensures var a := DispatchTask(Resolve(s, id, Approved, decidedBy, now), id, now).approvals[id];
            (a.status.Approved? && IsTaskApproval(a) && a.details.dispatchedTaskId.Some?) <==> YieldsTask(s, id)
  {
    ResolveKeepsDecision(s, id, Approved, decidedBy, now);
    var resolved := Resolve(s, id, Approved, decidedBy, now);
    DispatchYields(resolved, id, now);
    if s.approvals[id].status.Requested? {
      var decided := Decide(s, id, Approved, decidedBy, now);
      assert YieldsTask(decided, id) <==> YieldsTask(s, id);
      if IsTaskApproval(s.approvals[id]) {
        DispatchYields(decided, id, now);
        RefusedAgain(decided, id, now);
      }
    }
  }

  /** An approval of `id` carries out a component action: its run is recorded already, or
      waits, can be dispatched and is named in every column. */
  predicate CarriesOut(s: Db, id: nat) {
    && id in s.approvals
    && var a := s.approvals[id];
       && AsksForComponent(a) && a.status != Rejected && a.subjectId.RunId? && a.subjectId.id in s.runs
       && var run := s.runs[a.subjectId.id];
          || run.status == StateRecorded
          || (AboutRun(a, a.subjectId.id, run) && run.status == PendingApproval && run.action in {"apply", "uninstall"})
  }

  lemma DispatchCarriesOut(s: Db, id: nat, now: Time)
    requires id in s.approvals
    ensures ShowsRecordedRun(DispatchComponent(s, id, now), id) <==> s.approvals[id].status.Approved? && CarriesOut(s, id)
    ensures CarriesOut(DispatchComponent(s, id, now), id) <==> CarriesOut(s, id)
  {
    var a := s.approvals[id];
    if a.subjectId.RunId? && a.subjectId.id in s.runs { MatchIsAbout(a, a.subjectId.id, s.runs[a.subjectId.id]); }
  }

  /** Resolving and dispatching once more carries the action out exactly if that was
      possible before. */
  lemma ApprovalCarriesOut(s: Db, id: nat, decidedBy: string, now: Time)
    requires id in s.approvals && IsComponentApproval(s.approvals[id])
    ensures ShowsRecordedRun(DispatchComponent(Resolve(s, id, Approved, decidedBy, now), id, now), id) <==> CarriesOut(s, id)
  {
    ResolveKeepsDecision(s, id, Approved, decidedBy, now);
    DispatchCarriesOut(Resolve(s, id, Approved, decidedBy, now), id, now);
    if s.approvals[id].status.Requested? {
      var decided := Decide(s, id, Approved, decidedBy, now);
      assert CarriesOut(decided, id) <==> CarriesOut(s, id);
      DispatchCarriesOut(decided, id, now);
    }
  }

  /** A dispatch that gave no task leaves everything that decides about the next one. */
  lemma RefusedAgain(s: Db, id: nat, now: Time)
    requires id in s.approvals && IsTaskApproval(s.approvals[id])
    ensures YieldsTask(DispatchTask(s, id, now), id) <==> YieldsTask(s, id)
  {
    if s.approvals[id].details.nodeId.Some? { BlockReasons(s, s.approvals[id].details.nodeId.value); }
    match TaskVerdict(s, id)
    case Ignore =>
    case Refuse(_) =>
    case Proceed =>
  }

  /** What `DispatchDecided` leaves of a request resolved as approved: a task exactly if
      one could be made, a recorded run exactly if the action could be carried out. */
  lemma ApprovalOutcome(s: Db, s': Db, id: nat, decidedBy: string, now: Time)
    requires id in s.approvals
    requires var resolved, row := Resolve(s, id, Approved, decidedBy, now), s.approvals[id];
             s' == if IsTaskApproval(row) then DispatchTask(resolved, id, now)
                   else if IsComponentApproval(row) then DispatchComponent(resolved, id, now)
                   else resolved
    ensures id in s'.approvals
    ensures (s'.approvals[id].status.Approved? && IsTaskApproval(s'.approvals[id]) && s'.approvals[id].details.dispatchedTaskId.Some?)
            <==> YieldsTask(s, id)
    ensures IsComponentApproval(s.approvals[id]) ==> (ShowsRecordedRun(s', id) <==> CarriesOut(s, id))
  {
    ResolveKeepsDecision(s, id, Approved, decidedBy, now);
    DispatchKeepsDecision(Resolve(s, id, Approved, decidedBy, now), id, now);
    if IsTaskApproval(s.approvals[id]) {
      ApprovalYields(s, id, decidedBy, now);
    } else if IsComponentApproval(s.approvals[id]) {
      ApprovalCarriesOut(s, id, decidedBy, now);
    }
  }

  /** `hmn approval approve`: it dispatches again even when the request was decided before. */
  method ApproveCommand(store: SQLiteStore, approvalId: nat, decidedBy: string, now: Time) returns (r: DecisionOutcome)
    requires Guarded(store)
    modifies store
    ensures Guarded(store)
    ensures r.NotFound? <==> approvalId !in old(store.approvals)
    ensures r.NotFound? ==> store.View() == old(store.View())
    ensures approvalId in old(store.approvals) && old(store.approvals)[approvalId].status.Requested? ==>
              DecidedAsSaid(store.View(), approvalId, Approved, decidedBy, now)
    ensures exists mid ::
              && RequestResolved(old(store.View()), mid, approvalId, Approved, decidedBy, now)
              && DispatchTried(mid, store.View(), approvalId, now)
    ensures r.Resolved? && r.dispatchedTaskId.Some? ==> ApprovedAs(store.View(), approvalId, r.dispatchedTaskId.value)
    ensures (r.Resolved? && r.dispatchedTaskId.Some?) <==> YieldsTask(old(store.View()), approvalId)
    ensures approvalId in old(store.approvals) && AsksForComponent(old(store.approvals)[approvalId]) ==>
              (r.Resolved? <==> CarriesOut(old(store.View()), approvalId))
  {
    ghost var before := store.View();
    var found := store.ResolveApprovalRequest(approvalId, Approved, decidedBy, now);
    if !found {
      return NotFound;
    }
    ResolveKeepsDecision(before, approvalId, Approved, decidedBy, now);
    r := DispatchDecided(store, approvalId, now);
    ApprovalOutcome(before, store.View(), approvalId, decidedBy, now);
  }

  /** What a front end's own dispatch of a resolved request does, whatever it asks for. */
  ghost predicate DispatchTried(s: Db, s': Db, id: nat, now: Time) {
    if id in s.approvals && AsksForTask(s.approvals[id]) then TaskDispatched(s, s', id, now)
    else if id in s.approvals && AsksForComponent(s.approvals[id]) then RunDispatched(s, s', id, now)
    else s' == s
  }

  /** What every front end does with a request once it is resolved as approved. */
  method DispatchDecided(store: SQLiteStore, approvalId: nat, now: Time) returns (r: DecisionOutcome)
    requires Guarded(store) && approvalId in store.approvals
    modifies store
    ensures Guarded(store) && !r.NotFound? && !r.AlreadyDecided?
    ensures DispatchTried(old(store.View()), store.View(), approvalId, now)
    ensures var row := old(store.approvals)[approvalId];
            store.View() == if IsTaskApproval(row) then DispatchTask(old(store.View()), approvalId, now)
                            else if IsComponentApproval(row) then DispatchComponent(old(store.View()), approvalId, now)
                            else old(store.View())
    ensures forall status, decidedBy, at ::
              DecidedAsSaid(old(store.View()), approvalId, status, decidedBy, at) ==>
              DecidedAsSaid(store.View(), approvalId, status, decidedBy, at)
    ensures (r.Resolved? && r.dispatchedTaskId.Some?) <==>
              (approvalId in store.approvals && store.approvals[approvalId].status.Approved? &&
               IsTaskApproval(store.approvals[approvalId]) && store.approvals[approvalId].details.dispatchedTaskId.Some?)
    ensures r.Resolved? && r.dispatchedTaskId.Some? ==> ApprovedAs(store.View(), approvalId, r.dispatchedTaskId.value)
    ensures IsComponentApproval(old(store.approvals)[approvalId]) ==> (r.Resolved? <==> ShowsRecordedRun(store.View(), approvalId))
  {
    var row := store.approvals[approvalId];
    DispatchKeepsDecision(store.View(), approvalId, now);
    if IsTaskApproval(row) {
      var taskId := store.DispatchApprovedTaskRequest(approvalId, now);
      if taskId.Some? { DispatchedIsApproved(store, approvalId); }
      return if taskId.Some? then Resolved(taskId) else Undispatchable;
    }
    if IsComponentApproval(row) {
      var runId := store.DispatchApprovedComponentAction(approvalId, now);
      return if runId.Some? then Resolved(None) else Undispatchable;
    }
    return Resolved(None);
  }

  /** `hmn approval reject`. */
  method RejectCommand(store: SQLiteStore, approvalId: nat, decidedBy: string, now: Time) returns (found: bool)
    requires Guarded(store)
    modifies store
    ensures Guarded(store) && found == (approvalId in old(store.approvals))
    ensures if found && old(store.approvals)[approvalId].status.Requested? then
              var row := old(store.approvals)[approvalId];
              store.View() == old(store.View()).(
                approvals := old(store.approvals)[approvalId := row.(status := Rejected, decidedBy := decidedBy, decidedAt := Some(now))],
                audit := old(store.audit) + [ApprovalEvent(approvalId, DecidedAs(Rejected, row.subjectId, row.risk, decidedBy), now)])
            else store.View() == old(store.View())
  {
    found := store.ResolveApprovalRequest(approvalId, Rejected, decidedBy, now);
  }

  /** The API endpoint, the console form and the Telegram callback all refuse a request
      that is already decided before they resolve it. */
  method DecideOpenRequest(store: SQLiteStore, approvalId: nat, decision: ApprovalStatus, decidedBy: string, now: Time)
    returns (r: DecisionOutcome)
    requires Guarded(store) && !decision.Requested?
    modifies store
    ensures Guarded(store)
    ensures r.NotFound? <==> approvalId !in old(store.approvals)
    ensures r.AlreadyDecided? <==> approvalId in old(store.approvals) && !old(store.approvals)[approvalId].status.Requested?
    ensures r.NotFound? || r.AlreadyDecided? ==> store.View() == old(store.View())
    ensures r.Resolved? || r.Undispatchable? ==> DecidedAsSaid(store.View(), approvalId, decision, decidedBy, now)
    ensures (r.Resolved? || r.Undispatchable?) && decision.Rejected? ==>
              store.View() == WithDecision(old(store.View()), approvalId, Rejected, decidedBy, now) && r == Resolved(None)
    ensures (r.Resolved? || r.Undispatchable?) && decision.Approved? ==>
              exists mid ::
                && RequestResolved(old(store.View()), mid, approvalId, Approved, decidedBy, now)
                && DispatchTried(mid, store.View(), approvalId, now)
    ensures r.Resolved? && r.dispatchedTaskId.Some? ==> ApprovedAs(store.View(), approvalId, r.dispatchedTaskId.value)
    ensures (r.Resolved? && r.dispatchedTaskId.Some?) <==>
              (decision.Approved? && approvalId in old(store.approvals) && old(store.approvals)[approvalId].status.Requested? &&
               YieldsTask(old(store.View()), approvalId))
    ensures decision.Approved? && approvalId in old(store.approvals) && old(store.approvals)[approvalId].status.Requested? &&
            AsksForComponent(old(store.approvals)[approvalId]) ==>
              (r.Resolved? <==> CarriesOut(old(store.View()), approvalId))
  {
    if approvalId !in store.approvals {
      return NotFound;
    }
    if !store.approvals[approvalId].status.Requested? {
      return AlreadyDecided(store.approvals[approvalId].status);
    }
    ghost var before := store.View();
    var _ := store.ResolveApprovalRequest(approvalId, decision, decidedBy, now);
    ResolveKeepsDecision(before, approvalId, decision, decidedBy, now);
    if decision.Rejected? {
      return Resolved(None);
    }
    r := DispatchDecided(store, approvalId, now);
    ApprovalOutcome(before, store.View(), approvalId, decidedBy, now);
  }

  datatype ComponentOutcome = Recorded | AwaitsDispatch(runId: nat, approvalId: nat)

  /** A run that is noted and not yet carried out. */
  method PlanComponentRun(store: SQLiteStore, action: string, componentId: string, nodeId: string, risk: string,
                          status: RunStatus, now: Time)
    returns (runId: nat)
    requires Guarded(store) && !status.StateRecorded?
    modifies store
    ensures Guarded(store) && RunNoted(old(store.View()), store.View(), componentId, nodeId, action, risk, status, now)
    ensures store.components == old(store.components) && runId == old(store.nextId)
  {
    runId := store.RecordComponentRun(componentId, nodeId, action, risk, status, now);
    GuardedStep(old(store.history), RecordRunOp(componentId, nodeId, action, risk, status, now));
  }

  /** A run that waits, and the request that may release it. */
  method RequestComponentAction(store: SQLiteStore, action: string, componentId: string, nodeId: string, risk: string,
                                requestedBy: string, config: map<string, string>, version: Option<string>,
                                driver: Option<string>, toldRisk: Option<string>, now: Time)
    returns (runId: nat, approvalId: nat)
    requires Guarded(store) && action in {"apply", "uninstall"} && (toldRisk.Some? ==> toldRisk.value == risk)
    modifies store
    ensures Guarded(store)
    ensures ReleaseRequested(old(store.View()), store.View(), runId, approvalId, action, componentId, nodeId, risk, requestedBy,
                             config, version, driver, now)
  {
    runId := PlanComponentRun(store, action, componentId, nodeId, risk, PendingApproval, now);
    var details := ComponentDetails(action, runId, componentId, nodeId, config, version, driver, toldRisk);
    approvalId := RequestOtherApproval(
      store, ComponentRunSubject, RunId(runId), ComponentAction(action), risk, requestedBy, details, now);
  }

  function ComponentDetails(action: string, runId: nat, componentId: string, nodeId: string, config: map<string, string>,
                            version: Option<string>, driver: Option<string>, toldRisk: Option<string>): Details {
    Details(Some(nodeId), None, None, None, None, Some(runId), Some(componentId), Some(action),
            Some(config), version, driver, toldRisk, None)
  }

  /** The one new run waits, and the one new request is open, is about that run in every
      column that dispatch compares, and says what to install. No task and no component row
      has changed. */
  predicate ReleaseRequested(s: Db, s': Db, runId: nat, approvalId: nat, action: string, componentId: string, nodeId: string,
                             risk: string, requestedBy: string, config: map<string, string>, version: Option<string>,
                             driver: Option<string>, now: Time)
  {
    && s'.tasks == s.tasks && s'.components == s.components && s'.nodes == s.nodes
    && runId == s.nextId
    && s'.runs == s.runs[runId := ComponentRun(componentId, nodeId, action, risk, PendingApproval, now, None, None, "")]
    && approvalId == s.nextId + 1 && approvalId in s'.approvals
    && s'.approvals == s.approvals[approvalId := s'.approvals[approvalId]]
    && var a := s'.approvals[approvalId];
       && a.status == ApprovalStatus.Requested && a.requestedBy == requestedBy && a.createdAt == now
       && AboutRun(a, runId, s'.runs[runId])
       && a.details.config == Some(config) && a.details.version == version && a.details.driver == driver
  }

  /** The console's component endpoint: it rates every apply and uninstall high, whatever
      the component's own risk, and plans every other action without an approval. */
  method ConsoleComponentRun(store: SQLiteStore, action: string, componentId: string, nodeId: string,
                             config: map<string, string>, createdBy: string, now: Time)
    returns (runId: nat, approvalId: Option<nat>)
    requires Guarded(store)
    modifies store
    ensures Guarded(store)
    ensures approvalId.Some? <==> action in {"apply", "uninstall"}
    ensures approvalId.Some? ==>
              ReleaseRequested(old(store.View()), store.View(), runId, approvalId.value, action, componentId, nodeId, "high", createdBy,
                               config, None, None, now)
    ensures approvalId.None? ==>
              && RunNoted(old(store.View()), store.View(), componentId, nodeId, action, "low", OtherRunStatus("planned"), now)
              && store.components == old(store.components) && runId == old(store.nextId)
  {
    if action == "apply" || action == "uninstall" {
      var run, approval := RequestComponentAction(
        store, action, componentId, nodeId, "high", createdBy, config, None, None, Some("high"), now);
      return run, Some(approval);
    }
    runId := PlanComponentRun(store, action, componentId, nodeId, "low", OtherRunStatus("planned"), now);
    approvalId := None;
  }

  /** `hmn component apply` and `uninstall`: a risky component waits for a request that
      names its run in every column dispatch compares; any other is recorded at once. */
  method ComponentCommand(store: SQLiteStore, uninstall: bool, componentId: string, nodeId: string, risk: string,
                          currentState: string, config: map<string, string>, version: string, driver: string, now: Time)
    returns (r: ComponentOutcome)
    requires Guarded(store)
    modifies store
    ensures Guarded(store)
    ensures r.AwaitsDispatch? <==> risk in {"high", "critical"}
    ensures r.AwaitsDispatch? ==>
              ReleaseRequested(old(store.View()), store.View(), r.runId, r.approvalId, if uninstall then "uninstall" else "apply",
                               componentId, nodeId, risk, "hmn", if uninstall then map[] else config, Some(version), Some(driver), now)
    ensures r.Recorded? ==>
              RunNoted(old(store.View()), store.View(), componentId, nodeId, if uninstall then "uninstall" else "apply", risk,
                       StateRecorded, now)
    ensures r.Recorded? ==>
              var key, runId := (nodeId, componentId), old(store.nextId);
              store.components == old(store.components)[
                key := if !uninstall then NodeComponent(Enabled, currentState, config, version, driver, runId)
                       else if key in old(store.components) then
                         old(store.components)[key].(desiredState := Absent, currentState := "planned", lastRunId := runId)
                       else NodeComponent(Absent, "planned", map[], version, driver, runId)]
  {
    if HighOrCritical(risk) {
      var runId, approvalId := RequestComponentAction(
        store, if uninstall then "uninstall" else "apply", componentId, nodeId, risk, "hmn",
        if uninstall then map[] else config, Some(version), Some(driver), None, now);
      return AwaitsDispatch(runId, approvalId);
    }
    if uninstall {
      store.UninstallLowRisk(componentId, nodeId, risk, version, driver, now);
    } else {
      store.ApplyLowRisk(componentId, nodeId, risk, currentState, config, version, driver, now);
    }
    return Recorded;
  }

  /** The worker's poll: stuck leases are swept before the next task is handed out. Every
      overdue task of the table has failed then, the oldest task that waits for this node
      has started, for 900 seconds, and no other task has changed. */
  method NextTask(store: SQLiteStore, nodeId: string, now: Time) returns (taskId: Option<nat>)
    requires Guarded(store)
    modifies store
    ensures Guarded(store)
    ensures !IsManagedNode(old(store.View()), nodeId) ==> taskId.None? && store.View() == old(store.View())
    ensures IsManagedNode(old(store.View()), nodeId) ==>
              exists expired, swept ::
                && Swept(old(store.View()), swept, expired, now, now)
                && TaskClaimed(swept, store.View(), nodeId, "worker", 900, now, taskId)
    ensures store.tasks.Keys == old(store.tasks).Keys
    ensures taskId.Some? ==>
              && taskId.value in old(store.tasks) && Waits(old(store.tasks)[taskId.value], nodeId, "worker")
              && forall other | other in old(store.tasks) && Waits(old(store.tasks)[other], nodeId, "worker") ::
                   old(store.tasks)[taskId.value].createdAt <= old(store.tasks)[other].createdAt
    ensures taskId.None? && IsManagedNode(old(store.View()), nodeId) ==>
              forall id | id in old(store.tasks) :: !Waits(old(store.tasks)[id], nodeId, "worker")
    ensures IsManagedNode(old(store.View()), nodeId) ==>
              forall id | id in old(store.tasks) ::
                var t := old(store.tasks)[id];
                store.tasks[id] == if taskId == Some(id) then HandedOut(t, 900_000_000, now)
                                   else if Overdue(t, now) then TimedOut(t, now)
                                   else t
  {
    if nodeId !in store.nodes || !store.nodes[nodeId].status.Managed? {
      return None;
    }
    ghost var before := store.View();
    var expired := store.ExpireStuckTasks(None, now);
    ghost var swept := store.View();
    taskId := store.ClaimNextTask(nodeId, "worker", 900, now);
    SweptThenClaimed(before, swept, store.View(), expired, nodeId, now, taskId);
  }

  /** A sweep makes no task wait and none stop waiting, so the claim behind it finds the
      same tasks as before it. */
  lemma SweptThenClaimed(s: Db, swept: Db, s': Db, expired: seq<nat>, nodeId: string, now: Time, taskId: Option<nat>)
    requires Swept(s, swept, expired, now, now) && TaskClaimed(swept, s', nodeId, "worker", 900, now, taskId)
    requires IsManagedNode(s, nodeId)
    ensures s'.tasks.Keys == s.tasks.Keys
    ensures match taskId
            case None => forall id | id in s.tasks :: !Waits(s.tasks[id], nodeId, "worker")
            case Some(chosen) =>
              && chosen in s.tasks && Waits(s.tasks[chosen], nodeId, "worker")
              && forall id | id in s.tasks && Waits(s.tasks[id], nodeId, "worker") :: s.tasks[chosen].createdAt <= s.tasks[id].createdAt
    ensures forall id | id in s.tasks ::
              s'.tasks[id] == if taskId == Some(id) then HandedOut(s.tasks[id], 900_000_000, now)
                              else if Overdue(s.tasks[id], now) then TimedOut(s.tasks[id], now)
                              else s.tasks[id]
  {
    forall id | id in s.tasks
      ensures Waits(swept.tasks[id], nodeId, "worker") <==> Waits(s.tasks[id], nodeId, "worker")
      ensures swept.tasks[id].createdAt == s.tasks[id].createdAt
    {
      assert swept.tasks[id] == if Overdue(s.tasks[id], now) then TimedOut(s.tasks[id], now) else s.tasks[id];
    }
    assert swept.tasks.Keys == s.tasks.Keys;
  }
}
