// The orchestrator as an object over its four tables. `Tick` works row by row, and is
// shown to take the one step that the scheduler's theorems are about.
module OrchestratorService {
  import opened Basics
  import Orchestrator
  import opened SchedulerEffects

  type Time = Orchestrator.Time
  type Id = Orchestrator.Id

  class OrchestratorService {
    var tasks: map<Id, Orchestrator.OrchTask>
    var workers: map<Id, Orchestrator.Worker>
    var assignments: seq<Orchestrator.Assignment>
    var reports: seq<Orchestrator.Report>
    ghost var history: seq<Orchestrator.Op>

    function View(): Orchestrator.State
      reads this
    {
      Orchestrator.State(tasks, workers, assignments, reports)
    }

    ghost predicate Valid()
      reads this
    {
      Orchestrator.ValidRun(history) && View() == Orchestrator.Exec(history)
    }

    constructor ()
      ensures Valid() && View() == Orchestrator.EMPTY && history == []
    {
      tasks, workers, assignments, reports, history := map[], map[], [], [], [];
    }

    ghost method Took(op: Orchestrator.Op)
      requires Orchestrator.ValidRun(history) && Orchestrator.Permitted(Orchestrator.Exec(history), op)
      requires View() == Orchestrator.Step(Orchestrator.Exec(history), op)
      modifies this`history
      ensures Valid() && history == old(history) + [op]
    {
      assert (history + [op])[..|history|] == history;
      history := history + [op];
    }

    /** `id` is the random key drawn for the task. */
    method Enqueue(id: Id, title: string, scope: string, risk: string, priority: int, workerHint: string,
                   source: string, now: Time)
      requires Valid() && id !in tasks
      modifies this
      ensures Valid()
      ensures history == old(history) + [Orchestrator.EnqueueOp(id, title, scope, risk, priority, workerHint, source, now)]
      ensures View() == old(View()).(
                tasks := old(tasks)[id := Orchestrator.OrchTask(title, scope, risk, priority, Orchestrator.Queued, workerHint,
                                                                source, now, now, 0)])
    {
      tasks := tasks[id := Orchestrator.OrchTask(title, scope, risk, priority, Orchestrator.Queued, workerHint, source, now, now, 0)];
      Took(Orchestrator.EnqueueOp(id, title, scope, risk, priority, workerHint, source, now));
    }

    /** INSERT ... ON CONFLICT DO UPDATE: a known worker keeps its registration time. */
    method RegisterWorker(id: Id, transport: string, status: string, labels: seq<string>, now: Time)
      requires Valid()
      modifies this
      ensures Valid() && history == old(history) + [Orchestrator.RegisterOp(id, transport, status, labels, now)]
      ensures View() == old(View()).(
                workers := old(workers)[id := Orchestrator.Worker(
                  transport, status, labels, if id in old(workers) then old(workers)[id].registeredAt else now, now)])
    {
      if id in workers {
        workers := workers[id := workers[id].(transport := transport, status := status, labels := labels, updatedAt := now)];
      } else {
        workers := workers[id := Orchestrator.Worker(transport, status, labels, now, now)];
      }
      Took(Orchestrator.RegisterOp(id, transport, status, labels, now));
    }

    method UpdateWorker(id: Id, status: string, transport: Option<string>, labels: Option<seq<string>>, now: Time)
      requires Valid()
      modifies this
      ensures Valid() && history == old(history) + [Orchestrator.UpdateOp(id, status, transport, labels, now)]
      ensures id in workers && View() == old(View()).(workers := old(workers)[id := workers[id]])
      ensures workers[id].status == status && workers[id].updatedAt == now
      ensures if id in old(workers) then
                var was := old(workers)[id];
                && workers[id].transport == (if transport.Some? then transport.value else was.transport)
                && workers[id].labels == (if labels.Some? then labels.value else was.labels)
                && workers[id].registeredAt == was.registeredAt
              else
                && workers[id].transport == (if transport.Some? && transport.value != "" then transport.value else "bridge")
                && workers[id].labels == (if labels.Some? then labels.value else [])
                && workers[id].registeredAt == now
    {
      if id !in workers {
        var chosen := if transport.None? || transport.value == "" then "bridge" else transport.value;
        workers := workers[id := Orchestrator.Worker(chosen, status, labels.GetOr([]), now, now)];
      } else {
        var w := workers[id];
        workers := workers[id := w.(transport := transport.GetOr(w.transport), status := status,
                                    labels := labels.GetOr(w.labels), updatedAt := now)];
      }
      Took(Orchestrator.UpdateOp(id, status, transport, labels, now));
    }

    method Tick(now: Time, bridge: Orchestrator.Bridge, maxRetries: int, timeoutSeconds: int)
      returns (result: Orchestrator.TickResult)
      requires Valid()
      modifies this
      ensures Valid() && history == old(history) + [Orchestrator.TickOp(now, bridge, maxRetries, timeoutSeconds)]
      ensures result == Orchestrator.Tick(old(View()), now, bridge, maxRetries, timeoutSeconds).1
      ensures Ticked(old(View()), View(), result, now, bridge, maxRetries, timeoutSeconds)
    {
      ghost var before := View();
      ExpireLeases(now, timeoutSeconds);
      result := Dispatch(now, bridge, maxRetries);
      assert View() == Orchestrator.Tick(before, now, bridge, maxRetries, timeoutSeconds).0;
      TickEffect(before, now, bridge, maxRetries, timeoutSeconds);
      Took(Orchestrator.TickOp(now, bridge, maxRetries, timeoutSeconds));
    }

    /** Walks over the held assignments of leased tasks, as they stood at the start. */
    method ExpireLeases(now: Time, timeoutSeconds: int)
      modifies this`tasks, this`assignments
      ensures View() == Orchestrator.ExpireTasks(old(View()), Orchestrator.Lapsed(old(View()), now, timeoutSeconds), now)
      ensures LeasesExpired(old(View()), View(), now, timeoutSeconds)
    {
      ghost var before := View();
      ghost var done: set<Id> := {};
      var rows := assignments;
      var leased := set i | 0 <= i < |rows| && HeldByLeasedTask(tasks, rows[i]);
      ghost var all := leased;
      NothingLapsed(before, now);
      while leased != {}
        invariant leased <= all
        invariant done <= Orchestrator.Lapsed(before, now, timeoutSeconds)
        invariant forall i | i in all - leased && Orchestrator.TimedOut(rows[i], now, timeoutSeconds) :: rows[i].taskId in done
        invariant View() == Orchestrator.ExpireTasks(before, done, now)
        decreases leased
      {
        var i :| i in leased;
        leased := leased - {i};
        if now - rows[i].leasedAt > timeoutSeconds * 1_000_000 {
          ExpireOneMore(before, done, rows[i].taskId, now);
          assert Orchestrator.TimedOut(rows[i], now, timeoutSeconds);
          ExpireTask(rows[i].taskId, now);
          done := done + {rows[i].taskId};
        }
      }
      assert done == Orchestrator.Lapsed(before, now, timeoutSeconds);
      ExpiryEffect(before, now, timeoutSeconds);
    }

    method ExpireTask(id: Id, now: Time)
      requires id in tasks
      modifies this`tasks, this`assignments
      ensures View() == Orchestrator.ExpireTasks(old(View()), {id}, now)
    {
      ghost var before := View();
      var rows := assignments;
      assignments := seq(|rows|, i requires 0 <= i < |rows| =>
        if rows[i].taskId == id then Orchestrator.Close(rows[i], now) else rows[i]);
      tasks := tasks[id := Orchestrator.Requeue(tasks[id], now)];
      assert View().assignments == Orchestrator.ExpireTasks(before, {id}, now).assignments;
    }

    method Dispatch(now: Time, bridge: Orchestrator.Bridge, maxRetries: int) returns (result: Orchestrator.TickResult)
      modifies this`tasks, this`assignments, this`reports
      ensures (View(), result) == Orchestrator.DispatchNext(old(View()), now, bridge, maxRetries)
      ensures Dispatched(old(View()), View(), result, now, bridge, maxRetries)
    {
      ghost var before := View();
      DispatchEffect(before, now, bridge, maxRetries);
      var ready := Orchestrator.ReadyIds(tasks);
      if ready == {} {
        return Orchestrator.Idle;
      }
      var taskId := FirstTask(tasks);
      NextReadyIs(before, taskId);
      if Orchestrator.OnlineIds(workers) == {} {
        return Orchestrator.NoWorker(taskId);
      }
      var workerId := FirstWorker(workers);
      NextWorkerIs(before, workerId);
      var row := tasks[taskId];
      if bridge.Raises? {
        var attempts := row.attempts + 1;
        if attempts >= maxRetries {
          tasks := tasks[taskId := row.(status := Orchestrator.Paused, attempts := attempts, updatedAt := now)];
          reports := reports + [Orchestrator.Report(taskId, Orchestrator.PauseReport, now)];
          result := Orchestrator.PausedAfter(taskId, attempts);
        } else {
          tasks := tasks[taskId := row.(attempts := attempts, updatedAt := now)];
          reports := reports + [Orchestrator.Report(taskId, Orchestrator.RetryReport, now)];
          result := Orchestrator.Retry(taskId, attempts);
        }
      } else {
        tasks := tasks[taskId := row.(status := Orchestrator.Leased, updatedAt := now)];
        assignments := assignments + [Orchestrator.Assignment(taskId, workerId, Orchestrator.Held, now, now)];
        reports := reports + [Orchestrator.Report(taskId, Orchestrator.LeaseReport, now)];
        result := Orchestrator.LeasedTo(taskId, workerId);
      }
    }
  }

  predicate HeldByLeasedTask(tasks: map<Id, Orchestrator.OrchTask>, a: Orchestrator.Assignment) {
    a.status.Held? && a.taskId in tasks && tasks[a.taskId].status.Leased?
  }

  // ----- SELECT ... ORDER BY ... LIMIT 1 -----

  method FirstTask(tasks: map<Id, Orchestrator.OrchTask>) returns (id: Id)
    requires Orchestrator.ReadyIds(tasks) != {}
    ensures Orchestrator.IsFirst(id, Orchestrator.ReadyIds(tasks), Orchestrator.QueueOrder(tasks))
  {
    var listing := OrderBy(Orchestrator.ReadyIds(tasks), Orchestrator.QueueOrder(tasks));
    id := HeadOf(listing, Orchestrator.ReadyIds(tasks), Orchestrator.QueueOrder(tasks));
  }

  method FirstWorker(workers: map<Id, Orchestrator.Worker>) returns (id: Id)
    requires Orchestrator.OnlineIds(workers) != {}
    ensures Orchestrator.IsFirst(id, Orchestrator.OnlineIds(workers), Orchestrator.WorkerOrder(workers))
  {
    var listing := OrderBy(Orchestrator.OnlineIds(workers), Orchestrator.WorkerOrder(workers));
    id := HeadOf(listing, Orchestrator.OnlineIds(workers), Orchestrator.WorkerOrder(workers));
  }

  method HeadOf(listing: seq<Id>, s: set<Id>, le: (Id, Id) -> bool) returns (id: Id)
    requires OrderedListing(listing, s, le) && TotalPreorder(le) && s != {}
    ensures Orchestrator.IsFirst(id, s, le)
  {
    ghost var some :| some in s;
    assert some in listing;
    id := listing[0];
    forall y | y in s ensures le(id, y) { assert y in listing; }
  }

  lemma NextReadyIs(s: Orchestrator.State, id: Id)
    requires Orchestrator.IsFirst(id, Orchestrator.ReadyIds(s.tasks), Orchestrator.QueueOrder(s.tasks))
    ensures Orchestrator.NextReady(s) == Some(id)
  {
    var first := Orchestrator.NextReady(s).value;
    assert Orchestrator.QueueOrder(s.tasks)(id, first) && Orchestrator.QueueOrder(s.tasks)(first, id);
  }

  lemma NextWorkerIs(s: Orchestrator.State, id: Id)
    requires Orchestrator.IsFirst(id, Orchestrator.OnlineIds(s.workers), Orchestrator.WorkerOrder(s.workers))
    ensures Orchestrator.NextWorker(s) == Some(id)
  {
    var first := Orchestrator.NextWorker(s).value;
    assert Orchestrator.WorkerOrder(s.workers)(id, first) && Orchestrator.WorkerOrder(s.workers)(first, id);
  }

  // ----- Expiring task by task -----

  lemma NothingLapsed(s: Orchestrator.State, now: Time)
    ensures Orchestrator.ExpireTasks(s, {}, now) == s
  {
    assert Orchestrator.ExpireTasks(s, {}, now).assignments == s.assignments;
    assert Orchestrator.ExpireTasks(s, {}, now).tasks == s.tasks;
  }

  /** Expiring a task a second time in the same tick changes nothing, so the order and
      the number of its timed-out rows do not matter. */
  lemma ExpireOneMore(s: Orchestrator.State, done: set<Id>, id: Id, now: Time)
    ensures Orchestrator.ExpireTasks(Orchestrator.ExpireTasks(s, done, now), {id}, now) == Orchestrator.ExpireTasks(s, done + {id}, now)
  {
    var twice := Orchestrator.ExpireTasks(Orchestrator.ExpireTasks(s, done, now), {id}, now);
    var once := Orchestrator.ExpireTasks(s, done + {id}, now);
    assert twice.tasks == once.tasks;
    assert twice.assignments == once.assignments;
  }
}
