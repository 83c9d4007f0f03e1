// What the steps of the store write, column by column: for each step the rows and log
// entries that the design promises, as a relation between the tables before and after it.
// The relations use none of the functions that compute the steps.
module StepEffects {
  import opened Basics
  import opened ControlPlane

  // ----- Where tasks may be sent -----

  predicate IsManagedNode(s: Db, nodeId: string) {
    nodeId in s.nodes && s.nodes[nodeId].status == Managed
  }

  /** A managed node that no fact of its latest heartbeat keeps tasks from. */
  predicate TakesTasks(s: Db, nodeId: string) {
    && IsManagedNode(s, nodeId)
    && (s.nodes[nodeId].facts.Some? ==>
          var facts := s.nodes[nodeId].facts.value;
          && facts.workerMode != "beacon" && facts.taskPolicy != "heartbeat-only"
          && facts.canPollTasks != Some(false) && facts.execEnabled != Some(false))
  }

  /** Each reason is given in exactly one situation, the earlier ones first. */
  lemma BlockReasons(s: Db, nodeId: string)
    ensures var reason := TaskDispatchBlockReason(s, nodeId);
            && (reason.None? <==> TakesTasks(s, nodeId))
            && (reason == Some(NodeNotFound) <==> nodeId !in s.nodes)
            && (reason == Some(NodeNotManaged) <==> nodeId in s.nodes && s.nodes[nodeId].status != Managed)
    ensures IsManagedNode(s, nodeId) && s.nodes[nodeId].facts.Some? ==>
              var reason, facts := TaskDispatchBlockReason(s, nodeId), s.nodes[nodeId].facts.value;
              && (reason == Some(BeaconOnly) <==> facts.workerMode == "beacon")
              && (reason == Some(HeartbeatOnly) <==> facts.workerMode != "beacon" && facts.taskPolicy == "heartbeat-only")
              && (reason == Some(CannotPollTasks) <==>
                    facts.workerMode != "beacon" && facts.taskPolicy != "heartbeat-only" && facts.canPollTasks == Some(false))
  {
  }

  // ----- Tasks -----

  predicate SameRequests(s: Db, s': Db) {
    s'.nodes == s.nodes && s'.approvals == s.approvals && s'.runs == s.runs && s'.components == s.components
  }

  /** One pending task, with nothing but its order filled in. */
  predicate TaskCreated(s: Db, s': Db, nodeId: string, command: string, risk: string, createdBy: string,
                        executor: string, now: Time)
  {
    && SameRequests(s, s') && s'.nextId == s.nextId + 1
    && s'.tasks == s.tasks[s.nextId := Task(nodeId, command, risk, Pending, createdBy, now, executor, None, None, None, "", "",
                                            None, None, 0, NoFailure)]
    && s'.audit == s.audit + [TaskEvent(s.nextId, Create(nodeId, command, risk, executor), now)]
  }

  predicate Waits(t: Task, nodeId: string, executor: string) {
    t.nodeId == nodeId && t.executor == executor && t.status == Pending
  }

  /** The oldest waiting task of a managed node starts to run; if there is none, nothing happens. */
  ghost predicate TaskClaimed(s: Db, s': Db, nodeId: string, executor: string, leaseSeconds: int, now: Time, claimed: Option<nat>) {
    if claimed.None? then
      s' == s && (IsManagedNode(s, nodeId) ==> forall id | id in s.tasks :: !Waits(s.tasks[id], nodeId, executor))
    else
      var id := claimed.value;
      && IsManagedNode(s, nodeId) && id in s.tasks && Waits(s.tasks[id], nodeId, executor)
      && (forall other | other in s.tasks && Waits(s.tasks[other], nodeId, executor) :: s.tasks[id].createdAt <= s.tasks[other].createdAt)
      && SameRequests(s, s') && s'.nextId == s.nextId
      && s'.tasks == s.tasks[id := HandedOut(s.tasks[id], leaseSeconds * 1_000_000, now)]
      && s'.audit == s.audit + [TaskEvent(id, Dispatch(nodeId, executor, leaseSeconds), now)]
  }

  /** A task in a worker's hands: `lease` microseconds from now, one attempt more. */
  function HandedOut(t: Task, lease: int, now: Time): Task {
    Task(t.nodeId, t.command, t.risk, Running, t.createdBy, t.createdAt, t.executor,
         if t.startedAt == None then Some(now) else t.startedAt, t.completedAt, t.exitCode, t.stdout, t.stderr,
         Some(now), Some(now + lease), t.attemptCount + 1, t.failureReason)
  }

  /** What is promised of a claim leaves the step no choice but the task. */
  lemma ClaimedIsClaim(s: Db, s': Db, nodeId: string, executor: string, leaseSeconds: int, now: Time, claimed: Option<nat>)
    requires TaskClaimed(s, s', nodeId, executor, leaseSeconds, now, claimed)
    ensures ClaimChoice(s, nodeId, executor, claimed)
    ensures s' == Claim(s, nodeId, executor, leaseSeconds, now, claimed)
  {
    assert forall id | id in s.tasks :: Waits(s.tasks[id], nodeId, executor) <==> Claimable(s.tasks[id], nodeId, executor);
  }

  /** A worker's task whose lease was over at `cutoff`. */
  predicate Overdue(t: Task, cutoff: Time) {
    t.status == Running && t.executor == "worker" && t.leaseExpiresAt.Some? && t.leaseExpiresAt.value <= cutoff
  }

  function TimedOut(t: Task, now: Time): Task {
    Task(t.nodeId, t.command, t.risk, Failed, t.createdBy, t.createdAt, t.executor, t.startedAt, Some(now), t.exitCode,
         t.stdout, t.stderr, t.claimedAt, t.leaseExpiresAt, t.attemptCount, WorkerLeaseExpired)
  }

  /** Exactly the overdue tasks have failed, each with its event, by lease end and then age. */
  ghost predicate Swept(s: Db, s': Db, expired: seq<nat>, cutoff: Time, now: Time) {
    && SameRequests(s, s') && s'.nextId == s.nextId && s'.tasks.Keys == s.tasks.Keys
    && (forall id :: id in expired <==> id in s.tasks && Overdue(s.tasks[id], cutoff))
    && (forall i, j | 0 <= i < j < |expired| :: expired[i] != expired[j])
    && (forall i, j | 0 <= i < j < |expired| ::
          expired[i] in s.tasks && expired[j] in s.tasks && ExpiresNoLater(s.tasks[expired[i]], s.tasks[expired[j]]))
    && (forall id | id in s.tasks ::
          s'.tasks[id] == if Overdue(s.tasks[id], cutoff) then TimedOut(s.tasks[id], now) else s.tasks[id])
    && |s'.audit| == |s.audit| + |expired| && s.audit <= s'.audit
    && (forall i | 0 <= i < |expired| :: expired[i] in s.tasks && ExpiryLogged(s'.audit[|s.audit| + i], expired[i], s.tasks[expired[i]], now))
  }

  predicate ExpiresNoLater(a: Task, b: Task) {
    && a.leaseExpiresAt.Some? && b.leaseExpiresAt.Some?
    && (a.leaseExpiresAt.value < b.leaseExpiresAt.value ||
        (a.leaseExpiresAt.value == b.leaseExpiresAt.value && a.createdAt <= b.createdAt))
  }

  lemma ExpiredRow(s: Db, id: nat, now: Time)
    requires id in s.tasks && s.tasks[id].status.Running?
    ensures var s' := ExpireOne(s, id, now);
            && SameRequests(s, s') && s'.nextId == s.nextId
            && s'.tasks == s.tasks[id := TimedOut(s.tasks[id], now)]
            && s'.audit == s.audit + [TaskEvent(id, WatchdogExpire(s.tasks[id].nodeId, s.tasks[id].leaseExpiresAt), now)]
  {
  }

  ghost predicate DistinctRunning(s: Db, ids: seq<nat>) {
    && (forall id | id in ids :: id in s.tasks && s.tasks[id].status.Running?)
    && (forall i, j | 0 <= i < j < |ids| :: ids[i] != ids[j])
  }

  lemma InitOfDistinct(s: Db, ids: seq<nat>)
    requires DistinctRunning(s, ids) && ids != []
    ensures var init, last := ids[..|ids| - 1], ids[|ids| - 1];
            && DistinctRunning(s, init) && last in ids && last !in init
            && (forall id :: id in ids <==> id in init || id == last)
  {
    var init, last := ids[..|ids| - 1], ids[|ids| - 1];
    assert ids == init + [last];
    assert forall id | id in init :: id in ids;
  }

  /** Any number of distinct running tasks, expired one after another: one row, */
  lemma {:induction false} ExpiredAt(s: Db, ids: seq<nat>, now: Time, id: nat)
    requires DistinctRunning(s, ids) && id in s.tasks
    ensures ExpireAll(s, ids, now).tasks[id] == if id in ids then TimedOut(s.tasks[id], now) else s.tasks[id]
  {
    if ids != [] {
      InitOfDistinct(s, ids);
      var init, last := ids[..|ids| - 1], ids[|ids| - 1];
      ExpiredAt(s, init, now, id);
      ExpiredAt(s, init, now, last);
      ExpiredRow(ExpireAll(s, init, now), last, now);
    }
  }

  /** the other tables, */
  lemma {:induction false} ExpiredElsewhere(s: Db, ids: seq<nat>, now: Time)
    requires forall id | id in ids :: id in s.tasks
    ensures var s' := ExpireAll(s, ids, now);
            SameRequests(s, s') && s'.nextId == s.nextId && |s'.audit| == |s.audit| + |ids| && s.audit <= s'.audit
  {
    if ids != [] {
      assert forall id | id in ids[..|ids| - 1] :: id in ids;
      ExpiredElsewhere(s, ids[..|ids| - 1], now);
    }
  }

  predicate ExpiryLogged(e: AuditEvent, id: nat, t: Task, now: Time) {
    e == TaskEvent(id, WatchdogExpire(t.nodeId, t.leaseExpiresAt), now)
  }

  /** and one entry of the log. */
  lemma {:induction false} ExpiryEntry(s: Db, ids: seq<nat>, now: Time, i: nat)
    requires DistinctRunning(s, ids) && i < |ids|
    ensures var log := ExpireAll(s, ids, now).audit;
            |log| == |s.audit| + |ids| && ExpiryLogged(log[|s.audit| + i], ids[i], s.tasks[ids[i]], now)
    decreases |ids|
  {
    InitOfDistinct(s, ids);
    var init, last := ids[..|ids| - 1], ids[|ids| - 1];
    ExpiredElsewhere(s, init, now);
    ExpiredAt(s, init, now, last);
    ExpiredRow(ExpireAll(s, init, now), last, now);
    if i < |init| {
      ExpiryEntry(s, init, now, i);
    }
  }

  lemma StuckAreListed(s: Db, expired: seq<nat>, cutoff: Time)
    requires OrderedListing(expired, Stuck(s, cutoff), ExpiryOrdering(s))
    ensures DistinctRunning(s, expired)
    ensures forall id :: id in expired <==> id in s.tasks && Overdue(s.tasks[id], cutoff)
    ensures forall i, j | 0 <= i < j < |expired| ::
              expired[i] in s.tasks && expired[j] in s.tasks && ExpiresNoLater(s.tasks[expired[i]], s.tasks[expired[j]])
  {
    assert forall id :: id in expired <==> id in Stuck(s, cutoff);
    assert forall id :: id in Stuck(s, cutoff) <==> id in s.tasks && Overdue(s.tasks[id], cutoff);
    forall i, j | 0 <= i < j < |expired|
      ensures expired[i] in s.tasks && expired[j] in s.tasks && ExpiresNoLater(s.tasks[expired[i]], s.tasks[expired[j]])
    {
      assert expired[i] in expired && expired[j] in expired;
      assert ExpiryOrdering(s)(expired[i], expired[j]);
    }
  }

  lemma StuckAreSwept(s: Db, expired: seq<nat>, cutoff: Time, now: Time)
    requires OrderedListing(expired, Stuck(s, cutoff), ExpiryOrdering(s))
    ensures forall id | id in expired :: id in s.tasks
    ensures Swept(s, ExpireAll(s, expired, now), expired, cutoff, now)
  {
    StuckAreListed(s, expired, cutoff);
    ExpiredElsewhere(s, expired, now);
    var s' := ExpireAll(s, expired, now);
    forall id | id in s.tasks
      ensures s'.tasks[id] == if Overdue(s.tasks[id], cutoff) then TimedOut(s.tasks[id], now) else s.tasks[id]
    {
      ExpiredAt(s, expired, now, id);
    }
    forall i | 0 <= i < |expired| ensures expired[i] in s.tasks && ExpiryLogged(s'.audit[|s.audit| + i], expired[i], s.tasks[expired[i]], now) {
      assert expired[i] in expired;
      ExpiryEntry(s, expired, now, i);
    }
  }

  /** A running task has ended with `exitCode` and the texts to store. */
  predicate TaskEnded(s: Db, s': Db, id: nat, exitCode: int, stdout: string, stderr: string, now: Time) {
    if id in s.tasks && s.tasks[id].status == Running then
      var t := s.tasks[id];
      var status := if exitCode == 0 then Succeeded else Failed;
      && SameRequests(s, s') && s'.nextId == s.nextId
      && s'.tasks == s.tasks[id := Task(
            t.nodeId, t.command, t.risk, status, t.createdBy, t.createdAt, t.executor, t.startedAt, Some(now), Some(exitCode),
            stdout, stderr, t.claimedAt, t.leaseExpiresAt, t.attemptCount, if exitCode == 0 then NoFailure else ExitCodeNonzero)]
      && s'.audit == s.audit + [TaskEvent(id, TaskResult(status, t.nodeId, exitCode), now)]
    else s' == s
  }

  // ----- Approvals -----

  predicate HasText(text: Option<string>) {
    text.Some? && text.value != ""
  }

  predicate AsksForTask(a: Approval) {
    a.subjectType == TaskSubject && a.action == TaskRun
  }

  /** An open request, with the one dict its event logs: what the details say of subject,
      action and risk stands before the columns. */
  predicate RequestCreated(s: Db, s': Db, subjectType: SubjectType, subjectId: SubjectId, action: ActionName, risk: string,
                           requestedBy: string, details: Details, now: Time)
  {
    && s'.nodes == s.nodes && s'.tasks == s.tasks && s'.runs == s.runs && s'.components == s.components
    && s'.nextId == s.nextId + 1
    && s'.approvals == s.approvals[s.nextId := Approval(subjectType, subjectId, action, risk, ApprovalStatus.Requested, requestedBy,
                                                       details, now, "", None)]
    && s'.audit == s.audit + [ApprovalEvent(s.nextId, Request(subjectType, Told(
         if details.subjectId.Some? then details.subjectId.value else subjectId,
         if details.action.Some? then details.action.value
         else if action == TaskRun then "task.run"
         else if action.ComponentAction? then "component." + action.action
         else action.name,
         if details.risk.Some? then details.risk.value else risk,
         details.(subjectId := None, action := None, risk := None))), now)]
  }

  /** The tables with a decision on the row and in the log. */
  function WithDecision(s: Db, id: nat, decision: ApprovalStatus, decidedBy: string, now: Time): Db
    requires id in s.approvals
  {
    var a := s.approvals[id];
    s.(
      approvals := s.approvals[id := Approval(a.subjectType, a.subjectId, a.action, a.risk, decision, a.requestedBy, a.details,
                                              a.createdAt, decidedBy, Some(now))],
      audit := s.audit + [ApprovalEvent(id, DecidedAs(decision, a.subjectId, a.risk, decidedBy), now)])
  }

  /** An approved request for a task that has none yet, names a command, and names a node
      that takes tasks. */
  predicate MayDispatchTask(s: Db, id: nat) {
    && id in s.approvals
    && var a := s.approvals[id];
       && a.status == Approved && AsksForTask(a) && a.details.dispatchedTaskId == None
       && HasText(a.details.nodeId) && HasText(a.details.command) && TakesTasks(s, a.details.nodeId.value)
  }

  /** Why an approved request that still has no task gets none. */
  function TaskRefusal(s: Db, id: nat): Option<DispatchFailure> {
    if id !in s.approvals then None
    else
      var a := s.approvals[id];
      if a.status != Approved || !AsksForTask(a) || a.details.dispatchedTaskId != None then None
      else if !HasText(a.details.nodeId) || !HasText(a.details.command) then Some(MissingDetails)
      else if !IsManagedNode(s, a.details.nodeId.value) then Some(NotManaged)
      else if s.nodes[a.details.nodeId.value].facts == None then None
      else
        var facts := s.nodes[a.details.nodeId.value].facts.value;
        if facts.workerMode == "beacon" then Some(Blocked(BeaconOnly))
        else if facts.taskPolicy == "heartbeat-only" then Some(Blocked(HeartbeatOnly))
        else if facts.canPollTasks == Some(false) then Some(Blocked(CannotPollTasks))
        else if facts.execEnabled == Some(false) then Some(Blocked(ExecutionDisabled))
        else None
  }

  /** The task an approved request asked for: the executor that it names, else `worker`; the
      creator that it names, else whoever made the request. */
  predicate AskedFor(a: Approval, t: Task) {
    && a.details.nodeId == Some(t.nodeId) && a.details.command == Some(t.command) && t.risk == a.risk
    && t.executor == (if HasText(a.details.executor) then a.details.executor.value else "worker")
    && t.createdBy == (if HasText(a.details.createdBy) then a.details.createdBy.value else a.requestedBy)
  }

  /** The task is there, pending and untouched; the request points at it; the log tells both.
      Or nothing but the reason has been written. */
  ghost predicate TaskDispatched(s: Db, s': Db, id: nat, now: Time) {
    if MayDispatchTask(s, id) then
      var a, taskId := s.approvals[id], s.nextId;
      && s'.nodes == s.nodes && s'.runs == s.runs && s'.components == s.components && s'.nextId == s.nextId + 1
      && taskId in s'.tasks
      && var t := s'.tasks[taskId];
         && AskedFor(a, t)
         && t.status == Pending && t.createdAt == now && t.startedAt == None && t.completedAt == None && t.exitCode == None
         && t.stdout == "" && t.stderr == "" && t.claimedAt == None && t.leaseExpiresAt == None && t.attemptCount == 0
         && t.failureReason == NoFailure
         && s'.tasks == s.tasks[taskId := t]
         && s'.approvals == s.approvals[id := a.(details := a.details.(dispatchedTaskId := Some(taskId)))]
         && s'.audit == s.audit + [
              TaskEvent(taskId, Create(t.nodeId, t.command, t.risk, t.executor), now),
              ApprovalEvent(id, DispatchOk(taskId, t.nodeId, t.command, t.risk, t.executor, t.createdBy), now)]
    else
      s' == s.(audit := s.audit + if TaskRefusal(s, id).Some? then [ApprovalEvent(id, DispatchFailed(TaskRefusal(s, id).value), now)] else [])
  }

  lemma DispatchTaskEffect(s: Db, id: nat, now: Time)
    ensures TaskDispatched(s, DispatchTask(s, id, now), id, now)
  {
    if id in s.approvals && s.approvals[id].details.nodeId.Some? {
      BlockReasons(s, s.approvals[id].details.nodeId.value);
    }
    match TaskVerdict(s, id)
    case Ignore =>
      assert s.audit + [] == s.audit;
    case Refuse(reason) =>
    case Proceed =>
      assert MayDispatchTask(s, id);
      DispatchedRows(s, id, now);
  }

  lemma DispatchedRows(s: Db, id: nat, now: Time)
    requires MayDispatchTask(s, id) && TaskVerdict(s, id).Proceed?
    ensures TaskDispatched(s, DispatchTask(s, id, now), id, now)
  {
    var s' := DispatchTask(s, id, now);
    var t := s'.tasks[s.nextId];
    assert s'.audit == s.audit + [
        TaskEvent(s.nextId, Create(t.nodeId, t.command, t.risk, t.executor), now),
        ApprovalEvent(id, DispatchOk(s.nextId, t.nodeId, t.command, t.risk, t.executor, t.createdBy), now)];
  }

  // ----- Component runs -----

  predicate AsksForComponent(a: Approval) {
    a.subjectType == ComponentRunSubject && a.action.ComponentAction?
  }

  /** A column that the request's details may leave out: absent text is the empty text. */
  predicate Says(text: Option<string>, column: string) {
    if text.Some? then text.value == column else column == ""
  }

  /** The request is about this run: the same action and risk, component and node, and no
      other run or action in its details. */
  predicate AboutRun(a: Approval, runId: nat, run: ComponentRun) {
    && AsksForComponent(a) && a.subjectId == RunId(runId)
    && a.action.action == run.action && a.risk == run.risk
    && Says(a.details.componentId, run.componentId) && Says(a.details.nodeId, run.nodeId)
    && (a.details.runId.Some? ==> a.details.runId.value == runId)
    && (HasText(a.details.action) ==> a.details.action.value == run.action)
  }

  predicate IsAboutARun(s: Db, id: nat) {
    && id in s.approvals && s.approvals[id].status == Approved && AsksForComponent(s.approvals[id])
    && s.approvals[id].subjectId.RunId? && s.approvals[id].subjectId.id in s.runs
  }

  predicate MayDispatchRun(s: Db, id: nat) {
    && IsAboutARun(s, id)
    && var runId := s.approvals[id].subjectId.id;
       && AboutRun(s.approvals[id], runId, s.runs[runId])
       && s.runs[runId].status == PendingApproval && s.runs[runId].action in {"apply", "uninstall"}
  }

  function RunRefusal(s: Db, id: nat): Option<DispatchFailure> {
    if !IsAboutARun(s, id) || s.runs[s.approvals[id].subjectId.id].status == StateRecorded then None
    else
      var runId := s.approvals[id].subjectId.id;
      var run := s.runs[runId];
      if !AboutRun(s.approvals[id], runId, run) then Some(DetailsMismatch)
      else if run.status != PendingApproval then Some(RunNotPendingApproval)
      else if run.action !in {"apply", "uninstall"} then Some(NotDispatchable)
      else None
  }

  function TextOf(text: Option<string>): string {
    if text == None then "" else text.value
  }

  /** The component row of a dispatched run is planned, under the run's id: enabled with what
      the request asked to install, or absent with what was installed, if anything was. */
  predicate ShowsPlanned(s: Db, a: Approval, runId: nat, run: ComponentRun, row: NodeComponent) {
    var key := (run.nodeId, run.componentId);
    && row.currentState == "planned" && row.lastRunId == runId
    && row.desiredState == (if run.action == "uninstall" then Absent else Enabled)
    && if run.action == "uninstall" && key in s.components then
         && row.config == s.components[key].config && row.driver == s.components[key].driver
         && row.installedVersion == s.components[key].installedVersion
       else
         && row.config == (if a.details.config == None then map[] else a.details.config.value)
         && row.installedVersion == TextOf(a.details.version) && row.driver == TextOf(a.details.driver)
  }

  /** The run is recorded in the name of the approval and of whoever decided it; the component
      row shows it; the log tells it. Or nothing but the reason has been written. */
  ghost predicate RunDispatched(s: Db, s': Db, id: nat, now: Time) {
    if MayDispatchRun(s, id) then
      var a := s.approvals[id];
      var runId := a.subjectId.id;
      var run := s.runs[runId];
      var key := (run.nodeId, run.componentId);
      && s'.nodes == s.nodes && s'.tasks == s.tasks && s'.approvals == s.approvals && s'.nextId == s.nextId
      && s'.runs == s.runs[runId := ComponentRun(run.componentId, run.nodeId, run.action, run.risk, StateRecorded, run.createdAt,
                                                 Some(now), Some(id), a.decidedBy)]
      && key in s'.components && s'.components == s.components[key := s'.components[key]]
      && ShowsPlanned(s, a, runId, run, s'.components[key])
      && s'.audit == s.audit + [ComponentEvent(run.componentId, run.action, StateRecorded, run.nodeId, runId, run.risk, Some(id), now)]
    else
      s' == s.(audit := s.audit + if RunRefusal(s, id).Some? then [ApprovalEvent(id, DispatchFailed(RunRefusal(s, id).value), now)] else [])
  }

  lemma MatchIsAbout(a: Approval, runId: nat, run: ComponentRun)
    requires a.subjectId == RunId(runId)
    ensures AsksForComponent(a) && DetailsMatch(a, runId, run) <==> AboutRun(a, runId, run)
  {
    if AsksForComponent(a) && a.action.action == run.action {
      assert RequestedAction(a, run) == run.action <==> (HasText(a.details.action) ==> a.details.action.value == run.action);
    }
  }

  lemma DispatchRunEffect(s: Db, id: nat, now: Time)
    ensures RunDispatched(s, DispatchComponent(s, id, now), id, now)
  {
    if IsAboutARun(s, id) {
      var runId := s.approvals[id].subjectId.id;
      MatchIsAbout(s.approvals[id], runId, s.runs[runId]);
      if MayDispatchRun(s, id) {
        assert RequestedAction(s.approvals[id], s.runs[runId]) == s.runs[runId].action;
      }
    }
    assert s.audit + [] == s.audit;
  }

  /** An open request is decided, once, and what it asks for is dispatched at once if it is
      approved; a decided or unknown one is left alone. */
  ghost predicate RequestResolved(s: Db, s': Db, id: nat, decision: ApprovalStatus, decidedBy: string, now: Time) {
    if id in s.approvals && s.approvals[id].status == ApprovalStatus.Requested then
      var decided := WithDecision(s, id, decision, decidedBy, now);
      if decision == Approved && AsksForTask(s.approvals[id]) then TaskDispatched(decided, s', id, now)
      else if decision == Approved && AsksForComponent(s.approvals[id]) then RunDispatched(decided, s', id, now)
      else s' == decided
    else s' == s
  }

  /** A new run, with its event. */
  predicate RunNoted(s: Db, s': Db, componentId: string, nodeId: string, action: string, risk: string, status: RunStatus, now: Time) {
    && s'.nodes == s.nodes && s'.tasks == s.tasks && s'.approvals == s.approvals && s'.nextId == s.nextId + 1
    && s'.runs == s.runs[s.nextId := ComponentRun(componentId, nodeId, action, risk, status, now, None, None, "")]
    && s'.audit == s.audit + [ComponentEvent(componentId, action, status, nodeId, s.nextId, risk, None, now)]
  }
}
