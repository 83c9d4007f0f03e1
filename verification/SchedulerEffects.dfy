// What a tick of the scheduler writes, row by row: which leases run out, which task and
// which worker it picks, and what becomes of them. The relations use none of the functions
// that compute the tick.
module SchedulerEffects {
  import opened Basics
  import opened Orchestrator
  import opened OrchestratorInvariant
  import opened OrchestratorRuns

  // ----- Leases that run out -----

  predicate HeldTooLong(a: Assignment, id: Id, now: Time, timeoutSeconds: int) {
    a.taskId == id && a.status == Held && now - a.leasedAt > timeoutSeconds * 1_000_000
  }

  /** The task is leased, and some assignment has held it for longer than the timeout. */
  ghost predicate LeaseOver(s: State, id: Id, now: Time, timeoutSeconds: int) {
    && id in s.tasks && s.tasks[id].status == Leased
    && exists i :: 0 <= i < |s.assignments| && HeldTooLong(s.assignments[i], id, now, timeoutSeconds)
  }

  /** The task waits again, with all it was but its lease. */
  predicate QueuedAgain(t: OrchTask, t': OrchTask, now: Time) {
    t' == OrchTask(t.title, t.scope, t.risk, t.priority, Queued, t.workerHint, t.source, t.createdAt, now, t.attempts)
  }

  predicate Ended(a: Assignment, a': Assignment, now: Time) {
    a' == Assignment(a.taskId, a.workerId, Expired, a.leasedAt, now)
  }

  /** The tasks whose lease is over wait again and all their assignments have ended; every
      other task and assignment is as it was. */
  ghost predicate LeasesExpired(s: State, s': State, now: Time, timeoutSeconds: int) {
    && s'.workers == s.workers && s'.reports == s.reports
    && s'.tasks.Keys == s.tasks.Keys && |s'.assignments| == |s.assignments|
    && (forall id | id in s.tasks ::
          if LeaseOver(s, id, now, timeoutSeconds) then QueuedAgain(s.tasks[id], s'.tasks[id], now) else s'.tasks[id] == s.tasks[id])
    && (forall i | 0 <= i < |s.assignments| ::
          if LeaseOver(s, s.assignments[i].taskId, now, timeoutSeconds) then Ended(s.assignments[i], s'.assignments[i], now)
          else s'.assignments[i] == s.assignments[i])
  }

  lemma LapsedIsOver(s: State, id: Id, now: Time, timeoutSeconds: int)
    ensures id in Lapsed(s, now, timeoutSeconds) <==> LeaseOver(s, id, now, timeoutSeconds)
  {
    if id in Lapsed(s, now, timeoutSeconds) {
      var i :| 0 <= i < |s.assignments| && Orchestrator.TimedOut(s.assignments[i], now, timeoutSeconds) && s.assignments[i].taskId == id;
      assert HeldTooLong(s.assignments[i], id, now, timeoutSeconds);
    }
  }

  lemma ExpiryEffect(s: State, now: Time, timeoutSeconds: int)
    ensures LeasesExpired(s, ExpireTasks(s, Lapsed(s, now, timeoutSeconds), now), now, timeoutSeconds)
  {
    forall id ensures id in Lapsed(s, now, timeoutSeconds) <==> LeaseOver(s, id, now, timeoutSeconds) {
      LapsedIsOver(s, id, now, timeoutSeconds);
    }
  }

  // ----- Dispatching -----

  predicate MayRun(t: OrchTask) {
    t.status == Queued && t.risk == "low"
  }

  /** Among the queued low-risk tasks: highest priority, then oldest, then least id. */
  ghost predicate PickedTask(s: State, id: Id) {
    && id in s.tasks && MayRun(s.tasks[id])
    && forall other | other in s.tasks && MayRun(s.tasks[other]) ::
         var t, u := s.tasks[id], s.tasks[other];
         || t.priority > u.priority
         || (t.priority == u.priority && t.createdAt < u.createdAt)
         || (t.priority == u.priority && t.createdAt == u.createdAt && id <= other)
  }

  predicate Online(w: Worker) {
    w.status == "online" && w.transport == "bridge"
  }

  /** Among the online bridge workers: the one heard of last, then least id. */
  ghost predicate PickedWorker(s: State, id: Id) {
    && id in s.workers && Online(s.workers[id])
    && forall other | other in s.workers && Online(s.workers[other]) ::
         || s.workers[id].updatedAt > s.workers[other].updatedAt
         || (s.workers[id].updatedAt == s.workers[other].updatedAt && id <= other)
  }

  ghost predicate SomethingMayRun(s: State) {
    exists id :: id in s.tasks && MayRun(s.tasks[id])
  }

  ghost predicate SomeoneIsOnline(s: State) {
    exists id :: id in s.workers && Online(s.workers[id])
  }

  /** The one task row of a dispatch, as it was but for status, attempts and update. */
  function Marked(t: OrchTask, status: TaskStatus, attempts: nat, now: Time): OrchTask {
    OrchTask(t.title, t.scope, t.risk, t.priority, status, t.workerHint, t.source, t.createdAt, now, attempts)
  }

  ghost predicate LeaseGiven(s: State, s': State, taskId: Id, workerId: Id, now: Time) {
    && PickedTask(s, taskId) && PickedWorker(s, workerId)
    && s' == State(s.tasks[taskId := Marked(s.tasks[taskId], Leased, s.tasks[taskId].attempts, now)], s.workers,
                   s.assignments + [Assignment(taskId, workerId, Held, now, now)], s.reports + [Report(taskId, LeaseReport, now)])
  }

  ghost predicate FailureNoted(s: State, s': State, taskId: Id, attempts: nat, paused: bool, now: Time) {
    && PickedTask(s, taskId) && attempts == s.tasks[taskId].attempts + 1
    && s' == State(s.tasks[taskId := Marked(s.tasks[taskId], if paused then Paused else Queued, attempts, now)], s.workers,
                   s.assignments, s.reports + [Report(taskId, if paused then PauseReport else RetryReport, now)])
  }

  /** Nothing to do, nobody to do it, a lease, one failure more, or the last one allowed. */
  ghost predicate Dispatched(s: State, s': State, result: TickResult, now: Time, bridge: Bridge, maxRetries: int) {
    match result
    case Idle => s' == s && !SomethingMayRun(s)
    case NoWorker(taskId) => s' == s && PickedTask(s, taskId) && !SomeoneIsOnline(s)
    case LeasedTo(taskId, workerId) => bridge == Accepts && LeaseGiven(s, s', taskId, workerId, now)
    case Retry(taskId, attempts) =>
      bridge == Raises && SomeoneIsOnline(s) && attempts < maxRetries && FailureNoted(s, s', taskId, attempts, false, now)
    case PausedAfter(taskId, attempts) =>
      bridge == Raises && SomeoneIsOnline(s) && attempts >= maxRetries && FailureNoted(s, s', taskId, attempts, true, now)
  }

  lemma NextReadyIsPicked(s: State)
    ensures NextReady(s).Some? ==> PickedTask(s, NextReady(s).value)
    ensures NextReady(s).None? ==> !SomethingMayRun(s)
  {
    if NextReady(s).Some? {
      var id := NextReady(s).value;
      forall other | other in s.tasks && MayRun(s.tasks[other]) ensures Before(s.tasks, id, other) {
        assert other in ReadyIds(s.tasks) && QueueOrder(s.tasks)(id, other);
      }
    } else {
      assert forall id | id in s.tasks :: id !in ReadyIds(s.tasks);
    }
  }

  lemma NextWorkerIsPicked(s: State)
    ensures NextWorker(s).Some? ==> PickedWorker(s, NextWorker(s).value) && SomeoneIsOnline(s)
    ensures NextWorker(s).None? ==> !SomeoneIsOnline(s)
  {
    if NextWorker(s).Some? {
      var id := NextWorker(s).value;
      forall other | other in s.workers && Online(s.workers[other]) ensures WorkerBefore(s.workers, id, other) {
        assert other in OnlineIds(s.workers) && WorkerOrder(s.workers)(id, other);
      }
    } else {
      assert forall id | id in s.workers :: id !in OnlineIds(s.workers);
    }
  }

  lemma DispatchEffect(s: State, now: Time, bridge: Bridge, maxRetries: int)
    ensures var (s', result) := DispatchNext(s, now, bridge, maxRetries); Dispatched(s, s', result, now, bridge, maxRetries)
  {
    NextReadyIsPicked(s);
    NextWorkerIsPicked(s);
  }

  /** A tick: the leases that are over run out, then one task is tried. */
  ghost predicate Ticked(s: State, s': State, result: TickResult, now: Time, bridge: Bridge, maxRetries: int, timeoutSeconds: int) {
    exists swept :: LeasesExpired(s, swept, now, timeoutSeconds) && Dispatched(swept, s', result, now, bridge, maxRetries)
  }

  lemma TickEffect(s: State, now: Time, bridge: Bridge, maxRetries: int, timeoutSeconds: int)
    ensures var (s', result) := Tick(s, now, bridge, maxRetries, timeoutSeconds);
            Ticked(s, s', result, now, bridge, maxRetries, timeoutSeconds)
  {
    ExpiryEffect(s, now, timeoutSeconds);
    DispatchEffect(ExpireTasks(s, Lapsed(s, now, timeoutSeconds), now), now, bridge, maxRetries);
  }

  // ----- A worker that died -----

  /** The tick's answer is about this task. */
  predicate Tried(result: TickResult, id: Id) {
    && !result.Idle? && !result.NoWorker? && result.taskId == id
  }

  /** After a tick, the assignments that a task had before it have ended, and the task
      waits, unless this tick has leased it anew or given it up. */
  ghost predicate TakenBack(s: State, s': State, result: TickResult, id: Id) {
    && id in s'.tasks && |s.assignments| <= |s'.assignments|
    && (forall i | 0 <= i < |s.assignments| && s.assignments[i].taskId == id ::
          s'.assignments[i].taskId == id && s'.assignments[i].status == Expired)
    && (s'.tasks[id].status == Queued || (Tried(result, id) && (result.LeasedTo? || result.PausedAfter?)))
  }

  /** A lease never outlives its time: the task is taken back by the first tick behind it. */
  lemma OverdueIsTakenBack(s: State, now: Time, bridge: Bridge, maxRetries: int, timeoutSeconds: int, id: Id)
    requires LeaseOver(s, id, now, timeoutSeconds)
    ensures var (s', result) := Tick(s, now, bridge, maxRetries, timeoutSeconds); TakenBack(s, s', result, id)
  {
    TickEffect(s, now, bridge, maxRetries, timeoutSeconds);
    var (s', result) := Tick(s, now, bridge, maxRetries, timeoutSeconds);
    var swept :| LeasesExpired(s, swept, now, timeoutSeconds) && Dispatched(swept, s', result, now, bridge, maxRetries);
    assert QueuedAgain(s.tasks[id], swept.tasks[id], now);
    DispatchAppends(swept, s', result, now, bridge, maxRetries, id);
    forall i | 0 <= i < |s.assignments| && s.assignments[i].taskId == id
      ensures s'.assignments[i].taskId == id && s'.assignments[i].status == Expired
    {
      assert Ended(s.assignments[i], swept.assignments[i], now);
    }
  }

  /** A dispatch takes no assignment away, and leases, fails or leaves a task. */
  lemma DispatchAppends(s: State, s': State, result: TickResult, now: Time, bridge: Bridge, maxRetries: int, id: Id)
    requires Dispatched(s, s', result, now, bridge, maxRetries) && id in s.tasks
    ensures s.assignments <= s'.assignments && |s'.assignments| <= |s.assignments| + 1
    ensures |s'.assignments| > |s.assignments| ==> result.LeasedTo? && s'.assignments[|s.assignments|].taskId == result.taskId
    ensures id in s'.tasks
    ensures !Tried(result, id) ==> s'.tasks[id] == s.tasks[id]
    ensures Tried(result, id) ==> s.tasks[id].status == Queued && (result.Retry? ==> s'.tasks[id].status == Queued)
  {
  }

  /** And a lease that is not over stands: no tick touches the task or its assignments. */
  lemma RunningLeaseStands(s: State, now: Time, bridge: Bridge, maxRetries: int, timeoutSeconds: int, id: Id)
    requires id in s.tasks && s.tasks[id].status == Leased && !LeaseOver(s, id, now, timeoutSeconds)
    ensures var (s', result) := Tick(s, now, bridge, maxRetries, timeoutSeconds);
            && !Tried(result, id) && id in s'.tasks && s'.tasks[id] == s.tasks[id]
            && |s.assignments| <= |s'.assignments|
            && (forall i | 0 <= i < |s.assignments| && s.assignments[i].taskId == id :: s'.assignments[i] == s.assignments[i])
            && (forall i | |s.assignments| <= i < |s'.assignments| :: s'.assignments[i].taskId != id)
  {
    TickEffect(s, now, bridge, maxRetries, timeoutSeconds);
    var (s', result) := Tick(s, now, bridge, maxRetries, timeoutSeconds);
    var swept :| LeasesExpired(s, swept, now, timeoutSeconds) && Dispatched(swept, s', result, now, bridge, maxRetries);
    assert swept.tasks[id] == s.tasks[id];
    DispatchAppends(swept, s', result, now, bridge, maxRetries, id);
  }

  lemma {:induction false} SomeHeld(assignments: seq<Assignment>, id: Id)
    requires CountHeld(assignments, id) > 0
    ensures exists i :: 0 <= i < |assignments| && assignments[i].taskId == id && assignments[i].status == Held
    decreases |assignments|
  {
    var last := |assignments| - 1;
    if assignments[last].taskId == id && assignments[last].status == Held {
    } else {
      SomeHeld(assignments[..last], id);
      var i :| 0 <= i < last && assignments[..last][i].taskId == id && assignments[..last][i].status == Held;
      assert assignments[i].taskId == id && assignments[i].status == Held;
    }
  }

  /** Whatever happened before: once no assignment has leased a task within the timeout, the
      next tick takes the task back. */
  lemma DeadWorkerLosesTask(ops: seq<Op>, now: Time, bridge: Bridge, maxRetries: int, timeoutSeconds: int, id: Id)
    requires ValidRun(ops) && id in Exec(ops).tasks && Exec(ops).tasks[id].status == Leased
    requires forall i | 0 <= i < |Exec(ops).assignments| && Exec(ops).assignments[i].taskId == id ::
               now - Exec(ops).assignments[i].leasedAt > timeoutSeconds * 1_000_000
    ensures var (s', result) := Tick(Exec(ops), now, bridge, maxRetries, timeoutSeconds); TakenBack(Exec(ops), s', result, id)
  {
    var s := Exec(ops);
    RunsStayConsistent(ops);
    assert TaskConsistent(s, id);
    SomeHeld(s.assignments, id);
    var i :| 0 <= i < |s.assignments| && s.assignments[i].taskId == id && s.assignments[i].status == Held;
    assert HeldTooLong(s.assignments[i], id, now, timeoutSeconds);
    OverdueIsTakenBack(s, now, bridge, maxRetries, timeoutSeconds, id);
  }

  // ----- And is served again -----

  /** The tasks that a tick at `now` finds waiting, in the order in which they are served:
      those queued, and those whose lease is over. */
  ghost predicate WaitingAt(s: State, q: seq<Id>, now: Time, timeoutSeconds: int) {
    && (forall i, j | 0 <= i < j < |q| :: q[i] != q[j])
    && (forall id :: id in q <==> WaitsAt(s, id, now, timeoutSeconds))
    && (forall i, j | 0 <= i < j < |q| :: ServedNoLater(s, q[i], q[j]))
  }

  ghost predicate WaitsAt(s: State, id: Id, now: Time, timeoutSeconds: int) {
    id in s.tasks && s.tasks[id].risk == "low" && (s.tasks[id].status == Queued || LeaseOver(s, id, now, timeoutSeconds))
  }

  predicate ServedNoLater(s: State, a: Id, b: Id) {
    && a in s.tasks && b in s.tasks
    && var t, u := s.tasks[a], s.tasks[b];
       || t.priority > u.priority
       || (t.priority == u.priority && t.createdAt < u.createdAt)
       || (t.priority == u.priority && t.createdAt == u.createdAt && a <= b)
  }

  lemma WaitingIsQueue(s: State, swept: State, q: seq<Id>, now: Time, timeoutSeconds: int)
    requires WaitingAt(s, q, now, timeoutSeconds) && LeasesExpired(s, swept, now, timeoutSeconds)
    ensures IsQueue(swept, q)
  {
    forall id ensures id in q <==> id in ReadyIds(swept.tasks) {
      if id in s.tasks {
        assert if LeaseOver(s, id, now, timeoutSeconds) then QueuedAgain(s.tasks[id], swept.tasks[id], now) else swept.tasks[id] == s.tasks[id];
      }
    }
    forall i, j | 0 <= i < j < |q| ensures QueueOrder(swept.tasks)(q[i], q[j]) {
      assert ServedNoLater(s, q[i], q[j]);
      SweptKeepsRank(s, swept, q[i], now, timeoutSeconds);
      SweptKeepsRank(s, swept, q[j], now, timeoutSeconds);
    }
  }

  lemma SweptKeepsRank(s: State, swept: State, id: Id, now: Time, timeoutSeconds: int)
    requires LeasesExpired(s, swept, now, timeoutSeconds) && id in s.tasks
    ensures swept.tasks[id].priority == s.tasks[id].priority && swept.tasks[id].createdAt == s.tasks[id].createdAt
  {
    assert if LeaseOver(s, id, now, timeoutSeconds) then QueuedAgain(s.tasks[id], swept.tasks[id], now) else swept.tasks[id] == s.tasks[id];
  }

  /** A second sweep at the same time finds nothing. */
  lemma SweptOnce(s: State, now: Time, timeoutSeconds: int)
    ensures var swept := ExpireTasks(s, Lapsed(s, now, timeoutSeconds), now); Lapsed(swept, now, timeoutSeconds) == {}
  {
    var swept := ExpireTasks(s, Lapsed(s, now, timeoutSeconds), now);
    forall id ensures id !in Lapsed(swept, now, timeoutSeconds) {
      LapsedIsOver(swept, id, now, timeoutSeconds);
      LapsedIsOver(s, id, now, timeoutSeconds);
    }
  }

  /** Tasks held by dead workers are served again, in their turn: with an online bridge
      worker, a bridge that accepts, and the other leases running on, as many ticks as tasks
      wait or have lost their worker lease all of those, in sorted order. */
  lemma LostTasksAreServed(s: State, q: seq<Id>, nows: seq<Time>, maxRetries: int, timeoutSeconds: int, horizon: Time)
    requires nows != [] && |nows| <= |q| && WaitingAt(s, q, nows[0], timeoutSeconds) && SomeoneIsOnline(s)
    requires forall i | 0 <= i < |nows| :: nows[i] <= horizon && horizon - nows[i] <= timeoutSeconds * 1_000_000
    requires forall i | 0 <= i < |s.assignments| && s.assignments[i].status == Held ::
               || LeaseOver(s, s.assignments[i].taskId, nows[0], timeoutSeconds)
               || horizon - s.assignments[i].leasedAt <= timeoutSeconds * 1_000_000
    ensures var (s', results) := Ticks(s, nows, Accepts, maxRetries, timeoutSeconds);
            && (forall i | 0 <= i < |nows| :: results[i].LeasedTo? && results[i].taskId == q[i])
            && (forall i | 0 <= i < |nows| :: q[i] in s'.tasks && s'.tasks[q[i]].status == Leased)
  {
    var swept := ExpireTasks(s, Lapsed(s, nows[0], timeoutSeconds), nows[0]);
    ExpiryEffect(s, nows[0], timeoutSeconds);
    WaitingIsQueue(s, swept, q, nows[0], timeoutSeconds);
    SweptLeasesFresh(s, swept, nows[0], timeoutSeconds, horizon);
    var id :| id in s.workers && Online(s.workers[id]);
    assert id in OnlineIds(swept.workers);
    TicksSortTheQueue(swept, q, nows, maxRetries, timeoutSeconds, horizon);
    SweptOnce(s, nows[0], timeoutSeconds);
    SweepIsIdle(swept, nows[0], timeoutSeconds);
    assert Tick(s, nows[0], Accepts, maxRetries, timeoutSeconds) == Tick(swept, nows[0], Accepts, maxRetries, timeoutSeconds);
    assert Ticks(s, nows, Accepts, maxRetries, timeoutSeconds) == Ticks(swept, nows, Accepts, maxRetries, timeoutSeconds);
  }

  lemma SweptLeasesFresh(s: State, swept: State, now: Time, timeoutSeconds: int, horizon: Time)
    requires LeasesExpired(s, swept, now, timeoutSeconds)
    requires forall i | 0 <= i < |s.assignments| && s.assignments[i].status == Held ::
               || LeaseOver(s, s.assignments[i].taskId, now, timeoutSeconds)
               || horizon - s.assignments[i].leasedAt <= timeoutSeconds * 1_000_000
    ensures LeasesFresh(swept, horizon, timeoutSeconds)
  {
    forall i | 0 <= i < |swept.assignments| && swept.assignments[i].status.Held?
      ensures horizon - swept.assignments[i].leasedAt <= timeoutSeconds * 1_000_000
    {
      assert if LeaseOver(s, s.assignments[i].taskId, now, timeoutSeconds) then Ended(s.assignments[i], swept.assignments[i], now)
             else swept.assignments[i] == s.assignments[i];
    }
  }
}
