// The SQLite store as an object: its tables are fields that the methods rewrite, and
// a ghost history records which step of the control plane each method took.
module Store {
  import opened Basics
  import opened ControlPlane
  import opened OutputCap
  import opened StepEffects

  class SQLiteStore {
    var nodes: map<string, Node>
    var tasks: map<nat, Task>
    var approvals: map<nat, Approval>
    var runs: map<nat, ComponentRun>
    var components: map<(string, string), NodeComponent>
    var audit: seq<AuditEvent>
    var nextId: nat
    ghost var history: seq<Op>

    function View(): Db
      reads this
    {
      Db(nodes, tasks, approvals, runs, components, audit, nextId)
    }

    ghost predicate Valid()
      reads this
    {
      ValidRun(history) && View() == Exec(history)
    }

    constructor ()
      ensures Valid() && View() == EMPTY && history == []
    {
      nodes, tasks, approvals, runs, components, audit := map[], map[], map[], map[], map[], [];
      nextId, history := 0, [];
    }

    /** The step just taken, once the fields show its result. */
    ghost method Took(op: Op)
      requires ValidRun(history) && Permitted(Exec(history), op) && View() == Step(Exec(history), op)
      modifies this`history
      ensures Valid() && history == old(history) + [op]
    {
      assert (history + [op])[..|history|] == history;
      history := history + [op];
    }

    /** Joining, confirming, revoking and heartbeats, as far as tasks depend on them. */
    method SaveNode(nodeId: string, node: Node)
      requires Valid()
      modifies this
      ensures Valid() && history == old(history) + [SetNode(nodeId, node)]
      ensures View() == old(View()).(nodes := old(nodes)[nodeId := node])
    {
      nodes := nodes[nodeId := node];
      Took(SetNode(nodeId, node));
    }

    method CreateTask(nodeId: string, command: string, risk: string, createdBy: string, executor: string, now: Time)
      returns (taskId: nat)
      requires Valid()
      modifies this
      ensures Valid() && history == old(history) + [CreateTaskOp(nodeId, command, risk, createdBy, executor, now)]
      ensures TaskCreated(old(View()), View(), nodeId, command, risk, createdBy, executor, now)
      ensures taskId == old(nextId) && taskId in tasks
    {
      taskId := nextId;
      nextId := nextId + 1;
      tasks := tasks[taskId := NewTask(nodeId, command, risk, createdBy, executor, now)];
      audit := audit + [TaskEvent(taskId, Create(nodeId, command, risk, executor), now)];
      Took(CreateTaskOp(nodeId, command, risk, createdBy, executor, now));
    }

    method CreateApprovalRequest(subjectType: SubjectType, subjectId: SubjectId, action: ActionName, risk: string,
                                 requestedBy: string, details: Details, now: Time)
      returns (approvalId: nat)
      requires Valid()
      modifies this
      ensures Valid() && history == old(history) + [CreateApprovalOp(subjectType, subjectId, action, risk, requestedBy, details, now)]
      ensures RequestCreated(old(View()), View(), subjectType, subjectId, action, risk, requestedBy, details, now)
      ensures approvalId == old(nextId) && approvalId in approvals
    {
      approvalId := nextId;
      nextId := nextId + 1;
      approvals := approvals[approvalId := NewApproval(subjectType, subjectId, action, risk, requestedBy, details, now)];
      audit := audit + [ApprovalEvent(approvalId, Request(subjectType, ToldBy(approvals[approvalId])), now)];
      Took(CreateApprovalOp(subjectType, subjectId, action, risk, requestedBy, details, now));
    }

    method ClaimNextTask(nodeId: string, executor: string, leaseSeconds: int, now: Time) returns (claimed: Option<nat>)
      requires Valid()
      modifies this
      ensures Valid() && history == old(history) + [ClaimOp(nodeId, executor, leaseSeconds, now, claimed)]
      ensures TaskClaimed(old(View()), View(), nodeId, executor, leaseSeconds, now, claimed)
    {
      claimed := HandOutOldest(nodeId, executor, leaseSeconds, now);
      ClaimedIsClaim(old(View()), View(), nodeId, executor, leaseSeconds, now, claimed);
      Took(ClaimOp(nodeId, executor, leaseSeconds, now, claimed));
    }

    /** The transaction of `claim_next_task`. */
    method HandOutOldest(nodeId: string, executor: string, leaseSeconds: int, now: Time) returns (claimed: Option<nat>)
      modifies this`tasks, this`audit
      ensures TaskClaimed(old(View()), View(), nodeId, executor, leaseSeconds, now, claimed)
    {
      claimed := None;
      if nodeId in nodes && nodes[nodeId].status.Managed? {
        claimed := OldestPending(nodeId, executor);
        if claimed.Some? {
          var id := claimed.value;
          var row := tasks[id];
          tasks := tasks[id := row.(
            status := Running,
            startedAt := if row.startedAt.None? then Some(now) else row.startedAt,
            claimedAt := Some(now),
            leaseExpiresAt := Some(now + leaseSeconds * 1_000_000),
            attemptCount := row.attemptCount + 1)];
          audit := audit + [TaskEvent(id, Dispatch(nodeId, executor, leaseSeconds), now)];
        }
      }
    }

    /** SELECT ... status = 'pending' ORDER BY created_at LIMIT 1 */
    method OldestPending(nodeId: string, executor: string) returns (oldest: Option<nat>)
      ensures match oldest
              case Some(id) =>
                && id in tasks && Waits(tasks[id], nodeId, executor)
                && forall other | other in tasks && Waits(tasks[other], nodeId, executor) :: tasks[id].createdAt <= tasks[other].createdAt
              case None => forall id | id in tasks :: !Waits(tasks[id], nodeId, executor)
    {
      var listing := OrderBy(PendingRows(tasks, nodeId, executor), ByCreation(tasks));
      if listing == [] {
        assert forall id | id in tasks :: id !in PendingRows(tasks, nodeId, executor);
        return None;
      }
      assert listing[0] in listing;
      forall other | other in tasks && Claimable(tasks[other], nodeId, executor)
        ensures tasks[listing[0]].createdAt <= tasks[other].createdAt
      {
        assert other in PendingRows(tasks, nodeId, executor) && other in listing;
        assert other == listing[0] || ByCreation(tasks)(listing[0], other);
      }
      oldest := Some(listing[0]);
    }

    method ExpireStuckTasks(olderThanSeconds: Option<int>, now: Time) returns (expiredIds: seq<nat>)
      requires Valid()
      modifies this
      ensures Valid() && history == old(history) + [ExpireOp(olderThanSeconds, now, expiredIds)]
      ensures Swept(old(View()), View(), expiredIds, now - olderThanSeconds.GetOr(0) * 1_000_000, now)
    {
      var cutoff := match olderThanSeconds case Some(seconds) => now - seconds * 1_000_000 case None => now;
      assert cutoff == ExpiryCutoff(now, olderThanSeconds) == now - olderThanSeconds.GetOr(0) * 1_000_000;
      expiredIds := ExpireOverdue(cutoff, now);
      Took(ExpireOp(olderThanSeconds, now, expiredIds));
      StuckAreSwept(old(View()), expiredIds, cutoff, now);
    }

    /** The transaction of `expire_stuck_tasks`. */
    method ExpireOverdue(cutoff: Time, now: Time) returns (expiredIds: seq<nat>)
      modifies this`tasks, this`audit
      ensures OrderedListing(expiredIds, Stuck(old(View()), cutoff), ExpiryOrdering(old(View())))
      ensures forall id | id in expiredIds :: id in old(tasks)
      ensures View() == ExpireAll(old(View()), expiredIds, now)
    {
      var rows := set id | id in tasks && LeaseOver(tasks[id], cutoff);
      expiredIds := OrderBy(rows, ExpiryOrdering(View()));
      assert forall id | id in expiredIds :: id in tasks;
      MarkAllExpired(expiredIds, now);
    }

    method MarkAllExpired(ids: seq<nat>, now: Time)
      requires forall id | id in ids :: id in tasks
      modifies this`tasks, this`audit
      ensures View() == ExpireAll(old(View()), ids, now)
    {
      ghost var before := View();
      var i := 0;
      while i < |ids|
        invariant 0 <= i <= |ids|
        invariant forall id | id in ids[..i] :: id in ids
        invariant View() == ExpireAll(before, ids[..i], now)
      {
        assert ids[..i + 1][..i] == ids[..i];
        MarkExpired(ids[i], now);
        i := i + 1;
      }
      assert ids[..i] == ids;
    }

    method MarkExpired(id: nat, now: Time)
      requires id in tasks
      modifies this`tasks, this`audit
      ensures View() == ExpireOne(old(View()), id, now)
    {
      var row := tasks[id];
      if row.status.Running? {
        tasks := tasks[id := row.(status := Failed, completedAt := Some(now), failureReason := WorkerLeaseExpired)];
      } else {
        assert tasks == tasks[id := row];
      }
      audit := audit + [TaskEvent(id, WatchdogExpire(row.nodeId, row.leaseExpiresAt), now)];
    }

    method CompleteTask(taskId: nat, exitCode: int, stdout: string, stderr: string, now: Time) returns (ok: bool)
      requires Valid()
      modifies this
      ensures Valid() && history == old(history) + [CompleteOp(taskId, exitCode, stdout, stderr, now)]
      ensures ok <==> (taskId in old(tasks) && old(tasks)[taskId].status.Running?)
      ensures ok ==>
                && taskId in tasks && StoredAs(stdout, tasks[taskId].stdout) && StoredAs(stderr, tasks[taskId].stderr)
                && TaskEnded(old(View()), View(), taskId, exitCode, tasks[taskId].stdout, tasks[taskId].stderr, now)
      ensures !ok ==> View() == old(View())
    {
      var cappedStdout := Capped(stdout);
      var cappedStderr := Capped(stderr);
      ok := FinishTask(taskId, exitCode, cappedStdout, cappedStderr, now);
      Took(CompleteOp(taskId, exitCode, stdout, stderr, now));
    }

    /** The transaction of `complete_task`, with the texts to store. */
    method FinishTask(taskId: nat, exitCode: int, stdout: string, stderr: string, now: Time) returns (ok: bool)
      modifies this`tasks, this`audit
      ensures View() == ControlPlane.CompleteTask(old(View()), taskId, exitCode, stdout, stderr, now)
      ensures TaskEnded(old(View()), View(), taskId, exitCode, stdout, stderr, now)
      ensures ok <==> (taskId in old(tasks) && old(tasks)[taskId].status.Running?)
    {
      ok := taskId in tasks && tasks[taskId].status.Running?;
      if ok {
        var status := if exitCode == 0 then Succeeded else Failed;
        tasks := tasks[taskId := tasks[taskId].(
          status := status, completedAt := Some(now), exitCode := Some(exitCode), stdout := stdout,
          stderr := stderr, failureReason := if status.Succeeded? then NoFailure else ExitCodeNonzero)];
        audit := audit + [TaskEvent(taskId, TaskResult(status, tasks[taskId].nodeId, exitCode), now)];
      }
    }

    /** Only the first decision counts; an approval is dispatched at once. */
    method ResolveApprovalRequest(approvalId: nat, decision: ApprovalStatus, decidedBy: string, now: Time)
      returns (found: bool)
      requires Valid() && !decision.Requested?
      modifies this
      ensures Valid() && found == (approvalId in old(approvals))
      ensures View() == Resolve(old(View()), approvalId, decision, decidedBy, now)
      ensures RequestResolved(old(View()), View(), approvalId, decision, decidedBy, now)
      ensures if !found || !old(approvals)[approvalId].status.Requested? then history == old(history)
              else
                var decided := old(history) + [DecideOp(approvalId, decision, decidedBy, now)];
                var row := old(approvals)[approvalId];
                history == decided + (
                     if decision.Approved? && IsTaskApproval(row) then [DispatchTaskOp(approvalId, now)]
                     else if decision.Approved? && IsComponentApproval(row) then [DispatchComponentOp(approvalId, now)]
                     else [])
    {
      found := approvalId in approvals;
      if !found || !approvals[approvalId].status.Requested? {
        return;
      }
      var row := approvals[approvalId];
      approvals := approvals[approvalId := row.(status := decision, decidedBy := decidedBy, decidedAt := Some(now))];
      audit := audit + [ApprovalEvent(approvalId, DecidedAs(decision, row.subjectId, row.risk, decidedBy), now)];
      Took(DecideOp(approvalId, decision, decidedBy, now));
      if decision.Approved? && IsTaskApproval(row) {
        var _ := DispatchApprovedTaskRequest(approvalId, now);
      } else if decision.Approved? && IsComponentApproval(row) {
        var _ := DispatchApprovedComponentAction(approvalId, now);
      }
    }

    /** The task of an approved request, made now or before; None when there is none. */
    method DispatchApprovedTaskRequest(approvalId: nat, now: Time) returns (taskId: Option<nat>)
      requires Valid()
      modifies this
      ensures Valid() && history == old(history) + [DispatchTaskOp(approvalId, now)]
      ensures View() == DispatchTask(old(View()), approvalId, now)
      ensures TaskDispatched(old(View()), View(), approvalId, now)
      ensures taskId == if approvalId in approvals && approvals[approvalId].status.Approved? && IsTaskApproval(approvals[approvalId])
                        then approvals[approvalId].details.dispatchedTaskId else None
    {
      taskId := MakeTask(approvalId, now);
      Took(DispatchTaskOp(approvalId, now));
      DispatchTaskEffect(old(View()), approvalId, now);
    }

    /** The transaction of `dispatch_approved_task_request`. */
    method MakeTask(approvalId: nat, now: Time) returns (taskId: Option<nat>)
      modifies this`tasks, this`approvals, this`audit, this`nextId
      ensures View() == DispatchTask(old(View()), approvalId, now)
      ensures taskId == if approvalId in approvals && approvals[approvalId].status.Approved? && IsTaskApproval(approvals[approvalId])
                        then approvals[approvalId].details.dispatchedTaskId else None
    {
      taskId := None;
      if approvalId in approvals && approvals[approvalId].status.Approved? && IsTaskApproval(approvals[approvalId]) {
        var row := approvals[approvalId];
        if row.details.dispatchedTaskId.Some? {
          taskId := row.details.dispatchedTaskId;
        } else if !Truthy(row.details.nodeId) || !Truthy(row.details.command) {
          audit := audit + [ApprovalEvent(approvalId, DispatchFailed(MissingDetails), now)];
        } else if row.details.nodeId.value !in nodes || !nodes[row.details.nodeId.value].status.Managed? {
          audit := audit + [ApprovalEvent(approvalId, DispatchFailed(NotManaged), now)];
        } else {
          var blocked := TaskDispatchBlockReason(View(), row.details.nodeId.value);
          if blocked.Some? {
            audit := audit + [ApprovalEvent(approvalId, DispatchFailed(Blocked(blocked.value)), now)];
          } else {
            var task := TaskFor(row, now);
            var id := nextId;
            nextId := nextId + 1;
            tasks := tasks[id := task];
            approvals := approvals[approvalId := row.(details := row.details.(dispatchedTaskId := Some(id)))];
            audit := audit + [TaskEvent(id, Create(task.nodeId, task.command, task.risk, task.executor), now)];
            audit := audit + [ApprovalEvent(approvalId, DispatchedAs(id, task), now)];
            taskId := Some(id);
          }
        }
      }
    }

    /** The run an approved request names, if it is recorded now or was before. */
    method DispatchApprovedComponentAction(approvalId: nat, now: Time) returns (runId: Option<nat>)
      requires Valid()
      modifies this
      ensures Valid() && history == old(history) + [DispatchComponentOp(approvalId, now)]
      ensures View() == DispatchComponent(old(View()), approvalId, now)
      ensures RunDispatched(old(View()), View(), approvalId, now)
      ensures runId.Some? <==> ShowsRecordedRun(View(), approvalId)
      ensures runId.Some? ==> approvals[approvalId].subjectId == RunId(runId.value)
    {
      runId := ReleaseRun(approvalId, now);
      Took(DispatchComponentOp(approvalId, now));
      DispatchRunEffect(old(View()), approvalId, now);
    }

    /** The transaction of `dispatch_approved_component_action`. */
    method ReleaseRun(approvalId: nat, now: Time) returns (runId: Option<nat>)
      modifies this`components, this`runs, this`audit
      ensures View() == DispatchComponent(old(View()), approvalId, now)
      ensures runId.Some? <==> ShowsRecordedRun(View(), approvalId)
      ensures runId.Some? ==> approvals[approvalId].subjectId == RunId(runId.value)
    {
      runId := None;
      if approvalId in approvals && approvals[approvalId].status.Approved? && IsComponentApproval(approvals[approvalId]) {
        var row := approvals[approvalId];
        if row.subjectId.RunId? && row.subjectId.id in runs {
          var id := row.subjectId.id;
          var run := runs[id];
          if run.status.StateRecorded? {
            runId := Some(id);
          } else if !DetailsMatch(row, id, run) {
            audit := audit + [ApprovalEvent(approvalId, DispatchFailed(DetailsMismatch), now)];
          } else if !run.status.PendingApproval? {
            audit := audit + [ApprovalEvent(approvalId, DispatchFailed(RunNotPendingApproval), now)];
          } else if run.action != "apply" && run.action != "uninstall" {
            audit := audit + [ApprovalEvent(approvalId, DispatchFailed(NotDispatchable), now)];
          } else {
            var key := (run.nodeId, run.componentId);
            var config, version, driver := row.details.config.GetOr(map[]), OrElse(row.details.version, ""), OrElse(row.details.driver, "");
            if run.action == "uninstall" && key in components {
              config, version, driver := components[key].config, components[key].installedVersion, components[key].driver;
            }
            var desired := if run.action == "uninstall" then Absent else Enabled;
            components := components[key := NodeComponent(desired, "planned", config, version, driver, id)];
            runs := runs[id := run.(status := StateRecorded, completedAt := Some(now),
                                    approvalId := Some(approvalId), approvedBy := row.decidedBy)];
            audit := audit + [ComponentEvent(run.componentId, run.action, StateRecorded, run.nodeId, id, run.risk, Some(approvalId), now)];
            runId := Some(id);
          }
        }
      }
    }

    method RecordComponentRun(componentId: string, nodeId: string, action: string, risk: string, status: RunStatus, now: Time)
      returns (runId: nat)
      requires Valid() && !status.StateRecorded?
      modifies this
      ensures Valid() && history == old(history) + [RecordRunOp(componentId, nodeId, action, risk, status, now)]
      ensures RunNoted(old(View()), View(), componentId, nodeId, action, risk, status, now)
      ensures components == old(components) && runId == old(nextId)
    {
      runId := nextId;
      nextId := nextId + 1;
      runs := runs[runId := ComponentRun(componentId, nodeId, action, risk, status, now, None, None, "")];
      audit := audit + [ComponentEvent(componentId, action, status, nodeId, runId, risk, None, now)];
      Took(RecordRunOp(componentId, nodeId, action, risk, status, now));
    }

    /** The store's half of `hmn component apply` without approval. */
    method ApplyLowRisk(componentId: string, nodeId: string, risk: string, currentState: string,
                        config: map<string, string>, version: string, driver: string, now: Time)
      requires Valid()
      modifies this
      ensures Valid() && history == old(history) + [ApplyOp(componentId, nodeId, risk, currentState, config, version, driver, now)]
      ensures RunNoted(old(View()), View(), componentId, nodeId, "apply", risk, StateRecorded, now)
      ensures components == old(components)[
                (nodeId, componentId) := NodeComponent(Enabled, currentState, config, version, driver, old(nextId))]
    {
      var runId := nextId;
      nextId := nextId + 1;
      runs := runs[runId := ComponentRun(componentId, nodeId, "apply", risk, StateRecorded, now, None, None, "")];
      audit := audit + [ComponentEvent(componentId, "apply", StateRecorded, nodeId, runId, risk, None, now)];
      components := components[(nodeId, componentId) := NodeComponent(Enabled, currentState, config, version, driver, runId)];
      Took(ApplyOp(componentId, nodeId, risk, currentState, config, version, driver, now));
    }

    /** The store's half of `hmn component uninstall` without approval. */
    method UninstallLowRisk(componentId: string, nodeId: string, risk: string, version: string, driver: string, now: Time)
      requires Valid()
      modifies this
      ensures Valid() && history == old(history) + [UninstallOp(componentId, nodeId, risk, version, driver, now)]
      ensures RunNoted(old(View()), View(), componentId, nodeId, "uninstall", risk, StateRecorded, now)
      ensures var key := (nodeId, componentId);
              components == old(components)[
                key := if key in old(components) then
                         old(components)[key].(desiredState := Absent, currentState := "planned", lastRunId := old(nextId))
                       else NodeComponent(Absent, "planned", map[], version, driver, old(nextId))]
    {
      var runId := nextId;
      nextId := nextId + 1;
      runs := runs[runId := ComponentRun(componentId, nodeId, "uninstall", risk, StateRecorded, now, None, None, "")];
      audit := audit + [ComponentEvent(componentId, "uninstall", StateRecorded, nodeId, runId, risk, None, now)];
      var key := (nodeId, componentId);
      if key in components {
        components := components[key := NodeComponent(Absent, "planned", components[key].config,
                                                      components[key].installedVersion, components[key].driver, runId)];
      } else {
        components := components[key := NodeComponent(Absent, "planned", map[], version, driver, runId)];
      }
      Took(UninstallOp(componentId, nodeId, risk, version, driver, now));
    }
  }

  /** An approved request for a component whose run is recorded. */
  predicate ShowsRecordedRun(s: Db, id: nat) {
    && id in s.approvals && s.approvals[id].status.Approved? && IsComponentApproval(s.approvals[id])
    && s.approvals[id].subjectId.RunId? && s.approvals[id].subjectId.id in s.runs
    && s.runs[s.approvals[id].subjectId.id].status.StateRecorded?
  }

  /** WHERE node_id = ? AND executor = ? AND status = 'pending' */
  function PendingRows(tasks: map<nat, Task>, nodeId: string, executor: string): set<nat> {
    set id | id in tasks && Claimable(tasks[id], nodeId, executor)
  }

  /** ORDER BY created_at. */
  function ByCreation(tasks: map<nat, Task>): (nat, nat) -> bool {
    (a: nat, b: nat) => CreatedNoLater(tasks, a, b)
  }

  predicate CreatedNoLater(tasks: map<nat, Task>, a: nat, b: nat) {
    if a in tasks && b in tasks then tasks[a].createdAt <= tasks[b].createdAt else a in tasks || b !in tasks
  }

  method Capped(output: string) returns (stored: string)
    ensures stored == CapTaskOutput(output) && StoredAs(output, stored)
  {
    stored := CapTaskOutput(output);
    TaskOutputIsBestCut(output);
  }
}
