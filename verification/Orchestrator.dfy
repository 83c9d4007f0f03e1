// The orchestrator's scheduler: a queue of tasks, the workers that may take them, the
// leases they hold and the reports left behind. One tick is one transaction.
module Orchestrator {
  import opened Basics

  type Time = int // microseconds on the UTC clock
  type Id = nat   // a text key; only equality and SQLite's order on it matter

  datatype TaskStatus = Queued | Leased | Paused

  datatype OrchTask = OrchTask(
    title: string, scope: string, risk: string, priority: int, status: TaskStatus, workerHint: string,
    source: string, createdAt: Time, updatedAt: Time, attempts: nat)

  datatype Worker = Worker(transport: string, status: string, labels: seq<string>, registeredAt: Time, updatedAt: Time)

  datatype AssignmentStatus = Held | Expired

  datatype Assignment = Assignment(taskId: Id, workerId: Id, status: AssignmentStatus, leasedAt: Time, updatedAt: Time)

  datatype ReportStatus = LeaseReport | RetryReport | PauseReport

  datatype Report = Report(taskId: Id, status: ReportStatus, createdAt: Time)

  datatype State = State(
    tasks: map<Id, OrchTask>, workers: map<Id, Worker>, assignments: seq<Assignment>, reports: seq<Report>)

  // How the bridge answers this tick's dispatch; no bridge at all counts as accepting.
  datatype Bridge = Accepts | Raises

  datatype TickResult =
    | Idle
    | NoWorker(taskId: Id)
    | LeasedTo(taskId: Id, workerId: Id)
    | Retry(taskId: Id, attempts: nat)
    | PausedAfter(taskId: Id, attempts: nat)

  // ----- Selection -----

  predicate Ready(t: OrchTask) {
    t.status.Queued? && t.risk == "low"
  }

  function ReadyIds(tasks: map<Id, OrchTask>): set<Id> {
    set id | id in tasks && Ready(tasks[id])
  }

  /** ORDER BY priority DESC, created_at ASC, task_id ASC. */
  predicate Before(tasks: map<Id, OrchTask>, a: Id, b: Id) {
    if a !in tasks || b !in tasks then (a in tasks && b !in tasks) || (a !in tasks && b !in tasks && a <= b)
    else
      var x, y := tasks[a], tasks[b];
      || x.priority > y.priority
      || (x.priority == y.priority && (x.createdAt < y.createdAt || (x.createdAt == y.createdAt && a <= b)))
  }

  function QueueOrder(tasks: map<Id, OrchTask>): (Id, Id) -> bool {
    (a: Id, b: Id) => Before(tasks, a, b)
  }

  function OnlineIds(workers: map<Id, Worker>): set<Id> {
    set id | id in workers && workers[id].status == "online" && workers[id].transport == "bridge"
  }

  /** ORDER BY updated_at DESC, worker_id ASC. */
  predicate WorkerBefore(workers: map<Id, Worker>, a: Id, b: Id) {
    if a !in workers || b !in workers then (a in workers && b !in workers) || (a !in workers && b !in workers && a <= b)
    else workers[a].updatedAt > workers[b].updatedAt || (workers[a].updatedAt == workers[b].updatedAt && a <= b)
  }

  function WorkerOrder(workers: map<Id, Worker>): (Id, Id) -> bool {
    (a: Id, b: Id) => WorkerBefore(workers, a, b)
  }

  ghost predicate IsFirst(x: Id, s: set<Id>, le: (Id, Id) -> bool) {
    x in s && forall y | y in s :: le(x, y)
  }

  ghost function First(s: set<Id>, le: (Id, Id) -> bool): (x: Option<Id>)
    requires TotalPreorder(le)
    ensures x.None? <==> s == {}
    ensures x.Some? ==> IsFirst(x.value, s, le)
  {
    if s == {} then None
    else
      assert exists y :: IsFirst(y, s, le) by {
        var y := LeastExists(s, le);
        assert IsFirst(y, s, le);
      }
      var y :| IsFirst(y, s, le);
      Some(y)
  }

  // ----- One tick -----

  predicate TimedOut(a: Assignment, now: Time, timeoutSeconds: int) {
    a.status.Held? && now - a.leasedAt > timeoutSeconds * 1_000_000
  }

  /** Tasks with a lease that is over. */
  function Lapsed(s: State, now: Time, timeoutSeconds: int): set<Id> {
    set i | 0 <= i < |s.assignments| && TimedOut(s.assignments[i], now, timeoutSeconds)
            && s.assignments[i].taskId in s.tasks && s.tasks[s.assignments[i].taskId].status.Leased? ::
      s.assignments[i].taskId
  }

  function Requeue(t: OrchTask, now: Time): OrchTask {
    t.(status := Queued, updatedAt := now)
  }

  function Close(a: Assignment, now: Time): Assignment {
    a.(status := Expired, updatedAt := now)
  }

  /** All assignments of the lapsed tasks expire, and the tasks queue again. */
  function ExpireTasks(s: State, lapsed: set<Id>, now: Time): State {
    s.(tasks := map id | id in s.tasks :: if id in lapsed then Requeue(s.tasks[id], now) else s.tasks[id],
       assignments := seq(|s.assignments|, i requires 0 <= i < |s.assignments| =>
         if s.assignments[i].taskId in lapsed then Close(s.assignments[i], now) else s.assignments[i]))
  }

  function AddReport(s: State, taskId: Id, status: ReportStatus, now: Time): State {
    s.(reports := s.reports + [Report(taskId, status, now)])
  }

  function LeaseTask(s: State, taskId: Id, workerId: Id, now: Time): State
    requires taskId in s.tasks
  {
    AddReport(s.(tasks := s.tasks[taskId := s.tasks[taskId].(status := Leased, updatedAt := now)],
                 assignments := s.assignments + [Assignment(taskId, workerId, Held, now, now)]),
              taskId, LeaseReport, now)
  }

  function FailTask(s: State, taskId: Id, maxRetries: int, now: Time): State
    requires taskId in s.tasks
  {
    var t := s.tasks[taskId];
    if t.attempts + 1 >= maxRetries then
      AddReport(s.(tasks := s.tasks[taskId := t.(status := Paused, attempts := t.attempts + 1, updatedAt := now)]),
                taskId, PauseReport, now)
    else
      AddReport(s.(tasks := s.tasks[taskId := t.(attempts := t.attempts + 1, updatedAt := now)]), taskId, RetryReport, now)
  }

  ghost function NextReady(s: State): (x: Option<Id>)
    ensures x.None? <==> ReadyIds(s.tasks) == {}
    ensures x.Some? ==> IsFirst(x.value, ReadyIds(s.tasks), QueueOrder(s.tasks))
  {
    First(ReadyIds(s.tasks), QueueOrder(s.tasks))
  }

  ghost function NextWorker(s: State): (x: Option<Id>)
    ensures x.None? <==> OnlineIds(s.workers) == {}
    ensures x.Some? ==> IsFirst(x.value, OnlineIds(s.workers), WorkerOrder(s.workers))
  {
    First(OnlineIds(s.workers), WorkerOrder(s.workers))
  }

  /** The dispatch half of a tick. */
  ghost function DispatchNext(s: State, now: Time, bridge: Bridge, maxRetries: int): (r: (State, TickResult)) {
    match NextReady(s)
    case None => (s, Idle)
    case Some(taskId) =>
      match NextWorker(s)
      case None => (s, NoWorker(taskId))
      case Some(workerId) =>
        if bridge.Accepts? then (LeaseTask(s, taskId, workerId, now), LeasedTo(taskId, workerId))
        else
          var attempts := s.tasks[taskId].attempts + 1;
          (FailTask(s, taskId, maxRetries, now),
           if attempts >= maxRetries then PausedAfter(taskId, attempts) else Retry(taskId, attempts))
  }

  ghost function Tick(s: State, now: Time, bridge: Bridge, maxRetries: int, timeoutSeconds: int): (State, TickResult) {
    DispatchNext(ExpireTasks(s, Lapsed(s, now, timeoutSeconds), now), now, bridge, maxRetries)
  }

  // ----- The other operations -----

  /** `id` is fresh: task keys are random. */
  function Enqueue(s: State, id: Id, title: string, scope: string, risk: string, priority: int,
                   workerHint: string, source: string, now: Time): State {
    s.(tasks := s.tasks[id := OrchTask(title, scope, risk, priority, Queued, workerHint, source, now, now, 0)])
  }

  function RegisterWorker(s: State, id: Id, transport: string, status: string, labels: seq<string>, now: Time): State {
    var registeredAt := if id in s.workers then s.workers[id].registeredAt else now;
    s.(workers := s.workers[id := Worker(transport, status, labels, registeredAt, now)])
  }

  function UpdateWorker(s: State, id: Id, status: string, transport: Option<string>, labels: Option<seq<string>>, now: Time): State {
    if id in s.workers then
      var w := s.workers[id];
      s.(workers := s.workers[id := w.(transport := transport.GetOr(w.transport), status := status,
                                       labels := labels.GetOr(w.labels), updatedAt := now)])
    else
      // An empty transport or label list means the default for a new worker.
      var chosen := if transport.GetOr("") == "" then "bridge" else transport.value;
      s.(workers := s.workers[id := Worker(chosen, status, labels.GetOr([]), now, now)])
  }

  datatype Op =
    | EnqueueOp(id: Id, title: string, scope: string, risk: string, priority: int, workerHint: string, source: string, now: Time)
    | RegisterOp(workerId: Id, transport: string, status: string, labels: seq<string>, now: Time)
    | UpdateOp(workerId: Id, status: string, newTransport: Option<string>, newLabels: Option<seq<string>>, now: Time)
    | TickOp(now: Time, bridge: Bridge, maxRetries: int, timeoutSeconds: int)

  predicate Permitted(s: State, op: Op) {
    op.EnqueueOp? ==> op.id !in s.tasks
  }

  ghost function Step(s: State, op: Op): State {
    match op
    case EnqueueOp(id, title, scope, risk, priority, hint, source, now) =>
      Enqueue(s, id, title, scope, risk, priority, hint, source, now)
    case RegisterOp(id, transport, status, labels, now) => RegisterWorker(s, id, transport, status, labels, now)
    case UpdateOp(id, status, transport, labels, now) => UpdateWorker(s, id, status, transport, labels, now)
    case TickOp(now, bridge, maxRetries, timeout) => Tick(s, now, bridge, maxRetries, timeout).0
  }

  const EMPTY := State(map[], map[], [], [])

  ghost predicate ValidRun(ops: seq<Op>)
    decreases |ops|, 0
  {
    ops == [] || (ValidRun(ops[..|ops| - 1]) && Permitted(Exec(ops[..|ops| - 1]), ops[|ops| - 1]))
  }

  /** The state a run from the empty tables reaches. */
  ghost function Exec(ops: seq<Op>): State
    requires ValidRun(ops)
    decreases |ops|, 1
  {
    if ops == [] then EMPTY else Step(Exec(ops[..|ops| - 1]), ops[|ops| - 1])
  }
}
