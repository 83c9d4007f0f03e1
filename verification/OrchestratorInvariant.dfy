// What every run of the scheduler keeps, whatever the bridge answers, the clocks show
// and the workers do: leases, attempts and reports tell one story.
module OrchestratorInvariant {
  import opened Orchestrator

  function CountAssigned(assignments: seq<Assignment>, id: Id): nat {
    if assignments == [] then 0
    else
      var last := |assignments| - 1;
      CountAssigned(assignments[..last], id) + if assignments[last].taskId == id then 1 else 0
  }

  function CountHeld(assignments: seq<Assignment>, id: Id): nat {
    if assignments == [] then 0
    else
      var last := |assignments| - 1;
      CountHeld(assignments[..last], id) + if assignments[last].taskId == id && assignments[last].status.Held? then 1 else 0
  }

  function CountReports(reports: seq<Report>, id: Id, status: ReportStatus): nat {
    if reports == [] then 0
    else
      var last := |reports| - 1;
      CountReports(reports[..last], id, status) + if reports[last].taskId == id && reports[last].status == status then 1 else 0
  }

  ghost predicate TaskConsistent(s: State, id: Id) {
    var held, given := CountHeld(s.assignments, id), CountAssigned(s.assignments, id);
    var leases, retries, pauses :=
      CountReports(s.reports, id, LeaseReport), CountReports(s.reports, id, RetryReport), CountReports(s.reports, id, PauseReport);
    && given == leases
    && if id !in s.tasks then given == 0 && retries == 0 && pauses == 0 && held == 0
       else
         var t := s.tasks[id];
         && held == (if t.status.Leased? then 1 else 0)
         && t.attempts == retries + pauses
         && pauses == (if t.status.Paused? then 1 else 0)
         && (t.risk != "low" ==> t.status.Queued? && t.attempts == 0 && given == 0)
  }

  /** A task is leased iff exactly one of its assignments is held, and all others have
      expired; assignments match lease reports one to one; attempts count the failed
      dispatches; a task is paused iff it has its one pause report; and tasks that are not
      low risk are never touched. */
  ghost predicate Consistent(s: State) {
    forall id: Id :: TaskConsistent(s, id)
  }

  lemma CountsAppend(s: State, a: Assignment, r: Report)
    ensures forall id: Id :: CountAssigned(s.assignments + [a], id) == CountAssigned(s.assignments, id) + if a.taskId == id then 1 else 0
    ensures forall id: Id :: CountHeld(s.assignments + [a], id) ==
              CountHeld(s.assignments, id) + if a.taskId == id && a.status.Held? then 1 else 0
    ensures forall id: Id, status :: CountReports(s.reports + [r], id, status) ==
              CountReports(s.reports, id, status) + if r.taskId == id && r.status == status then 1 else 0
  {
    assert (s.assignments + [a])[..|s.assignments|] == s.assignments;
    assert (s.reports + [r])[..|s.reports|] == s.reports;
  }

  /** Closing all assignments of some tasks leaves those tasks without a held one. */
  lemma {:induction false} CountsAfterExpiry(before: seq<Assignment>, after: seq<Assignment>, lapsed: set<Id>, now: Time, id: Id)
    requires |after| == |before|
    requires forall i | 0 <= i < |before| ::
               after[i] == if before[i].taskId in lapsed then Close(before[i], now) else before[i]
    ensures CountAssigned(after, id) == CountAssigned(before, id)
    ensures CountHeld(after, id) == if id in lapsed then 0 else CountHeld(before, id)
    decreases |before|
  {
    if before != [] {
      CountsAfterExpiry(before[..|before| - 1], after[..|after| - 1], lapsed, now, id);
    }
  }

  lemma ExpireKeepsConsistent(s: State, now: Time, timeoutSeconds: int)
    requires Consistent(s)
    ensures Consistent(ExpireTasks(s, Lapsed(s, now, timeoutSeconds), now))
  {
    var lapsed := Lapsed(s, now, timeoutSeconds);
    var s' := ExpireTasks(s, lapsed, now);
    forall id: Id ensures TaskConsistent(s', id) {
      assert TaskConsistent(s, id);
      CountsAfterExpiry(s.assignments, s'.assignments, lapsed, now, id);
    }
  }

  lemma LeaseKeepsConsistent(s: State, taskId: Id, workerId: Id, now: Time)
    requires Consistent(s) && taskId in s.tasks && Ready(s.tasks[taskId])
    ensures Consistent(LeaseTask(s, taskId, workerId, now))
  {
    var s' := LeaseTask(s, taskId, workerId, now);
    CountsAppend(s, Assignment(taskId, workerId, Held, now, now), Report(taskId, LeaseReport, now));
    forall id: Id ensures TaskConsistent(s', id) { assert TaskConsistent(s, id); }
  }

  lemma FailKeepsConsistent(s: State, taskId: Id, maxRetries: int, now: Time)
    requires Consistent(s) && taskId in s.tasks && Ready(s.tasks[taskId])
    ensures Consistent(FailTask(s, taskId, maxRetries, now))
  {
    var s' := FailTask(s, taskId, maxRetries, now);
    CountsAppend(s, Assignment(taskId, 0, Expired, now, now), s'.reports[|s.reports|]);
    assert s'.reports == s.reports + [s'.reports[|s.reports|]];
    forall id: Id ensures TaskConsistent(s', id) { assert TaskConsistent(s, id); }
  }

  lemma StepKeepsConsistent(s: State, op: Op)
    requires Consistent(s) && Permitted(s, op)
    ensures Consistent(Step(s, op))
  {
    match op
    case TickOp(now, bridge, maxRetries, timeout) =>
      var swept := ExpireTasks(s, Lapsed(s, now, timeout), now);
      ExpireKeepsConsistent(s, now, timeout);
      if NextReady(swept).Some? && NextWorker(swept).Some? {
        if bridge.Accepts? {
          LeaseKeepsConsistent(swept, NextReady(swept).value, NextWorker(swept).value, now);
        } else {
          FailKeepsConsistent(swept, NextReady(swept).value, maxRetries, now);
        }
      }
    case EnqueueOp(_, _, _, _, _, _, _, _) =>
      forall id: Id ensures TaskConsistent(Step(s, op), id) { assert TaskConsistent(s, id); }
    case RegisterOp(_, _, _, _, _) =>
      forall id: Id ensures TaskConsistent(Step(s, op), id) { assert TaskConsistent(s, id); }
    case UpdateOp(_, _, _, _, _) =>
      forall id: Id ensures TaskConsistent(Step(s, op), id) { assert TaskConsistent(s, id); }
  }

  lemma {:induction false} RunsStayConsistent(ops: seq<Op>)
    requires ValidRun(ops)
    ensures Consistent(Exec(ops))
    decreases |ops|
  {
    if ops == [] {
      forall id: Id ensures TaskConsistent(EMPTY, id) {}
    } else {
      RunsStayConsistent(ops[..|ops| - 1]);
      StepKeepsConsistent(Exec(ops[..|ops| - 1]), ops[|ops| - 1]);
    }
  }

  // ----- What a task keeps for good -----

  /** A task never goes away, a paused one is never touched again, and neither is one
      that is not low risk. */
  ghost predicate TaskKept(s: State, s': State, id: Id) {
    id in s.tasks ==>
      && id in s'.tasks
      && s'.tasks[id].priority == s.tasks[id].priority && s'.tasks[id].createdAt == s.tasks[id].createdAt
      && s'.tasks[id].risk == s.tasks[id].risk && s'.tasks[id].title == s.tasks[id].title && s'.tasks[id].scope == s.tasks[id].scope
      && s'.tasks[id].workerHint == s.tasks[id].workerHint && s'.tasks[id].source == s.tasks[id].source
      && s.tasks[id].attempts <= s'.tasks[id].attempts
      && (s.tasks[id].status.Paused? || s.tasks[id].risk != "low" ==> s'.tasks[id] == s.tasks[id])
  }

  lemma StepKeepsTask(s: State, op: Op, id: Id)
    requires Consistent(s) && Permitted(s, op)
    ensures TaskKept(s, Step(s, op), id)
  {
    assert TaskConsistent(s, id);
    if op.TickOp? { TickKeepsTask(s, op.now, op.bridge, op.maxRetries, op.timeoutSeconds, id); }
  }

  lemma TickKeepsTask(s: State, now: Time, bridge: Bridge, maxRetries: int, timeoutSeconds: int, id: Id)
    requires Consistent(s)
    ensures TaskKept(s, Tick(s, now, bridge, maxRetries, timeoutSeconds).0, id)
  {
    assert TaskConsistent(s, id);
    var swept := ExpireTasks(s, Lapsed(s, now, timeoutSeconds), now);
    assert TaskKept(s, swept, id);
    DispatchKeepsTask(swept, now, bridge, maxRetries, id);
  }

  lemma DispatchKeepsTask(s: State, now: Time, bridge: Bridge, maxRetries: int, id: Id)
    ensures TaskKept(s, DispatchNext(s, now, bridge, maxRetries).0, id)
  {
  }

  lemma {:induction false} PausedIsFinal(ops: seq<Op>, i: nat, id: Id)
    requires ValidRun(ops) && i <= |ops| && ValidRun(ops[..i])
    ensures TaskKept(Exec(ops[..i]), Exec(ops), id)
    decreases |ops|
  {
    if i == |ops| {
      assert ops[..i] == ops;
    } else {
      var init := ops[..|ops| - 1];
      assert init[..i] == ops[..i];
      PausedIsFinal(init, i, id);
      RunsStayConsistent(init);
      StepKeepsTask(Exec(init), ops[|ops| - 1], id);
    }
  }

  // ----- Bounded retry -----

  predicate TicksUse(op: Op, maxRetries: int) {
    op.TickOp? ==> op.maxRetries == maxRetries
  }

  ghost predicate AttemptsBelow(s: State, maxRetries: int) {
    forall id | id in s.tasks ::
      if s.tasks[id].status.Paused? then s.tasks[id].attempts == maxRetries else s.tasks[id].attempts < maxRetries
  }

  /** With one retry limit throughout, no task is tried more often than the limit, and
      the paused tasks are exactly those that reached it. */
  lemma {:induction false} RetriesAreBounded(ops: seq<Op>, maxRetries: int)
    requires ValidRun(ops) && maxRetries >= 1
    requires forall i | 0 <= i < |ops| :: TicksUse(ops[i], maxRetries)
    ensures AttemptsBelow(Exec(ops), maxRetries)
    decreases |ops|
  {
    if ops != [] {
      var init, op := ops[..|ops| - 1], ops[|ops| - 1];
      assert forall i | 0 <= i < |init| :: init[i] == ops[i];
      RetriesAreBounded(init, maxRetries);
      assert TicksUse(op, maxRetries);
      BoundedStep(Exec(init), op, maxRetries);
    }
  }

  lemma BoundedStep(s: State, op: Op, maxRetries: int)
    requires AttemptsBelow(s, maxRetries) && Permitted(s, op) && maxRetries >= 1 && TicksUse(op, maxRetries)
    ensures AttemptsBelow(Step(s, op), maxRetries)
  {
    if op.TickOp? {
      var swept := ExpireTasks(s, Lapsed(s, op.now, op.timeoutSeconds), op.now);
      assert AttemptsBelow(swept, maxRetries);
      BoundedDispatch(swept, op.now, op.bridge, maxRetries);
    }
  }

  lemma BoundedDispatch(s: State, now: Time, bridge: Bridge, maxRetries: int)
    requires AttemptsBelow(s, maxRetries) && maxRetries >= 1
    ensures AttemptsBelow(DispatchNext(s, now, bridge, maxRetries).0, maxRetries)
  {
  }
}
