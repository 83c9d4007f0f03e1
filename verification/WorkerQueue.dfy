// Each node and executor has one first-in first-out queue of tasks. The queue is read
// off the audit log (created ids without the claimed ones); the table never shows it.
module WorkerQueue {
  import opened Basics
  import opened ControlPlane
  import opened AuditReplay
  import opened ApprovalGate

  /** Ids of the tasks created for a node and executor, in the order of the log. */
  function CreatedIds(log: seq<AuditEvent>, nodeId: string, executor: string): seq<nat> {
    if log == [] then []
    else
      var before := CreatedIds(log[..|log| - 1], nodeId, executor);
      match log[|log| - 1]
      case TaskEvent(id, Create(n, _, _, e), _) => if n == nodeId && e == executor then before + [id] else before
      case _ => before
  }

  /** Ids that workers claimed from a node and executor, in the order of the log. */
  function ClaimedIds(log: seq<AuditEvent>, nodeId: string, executor: string): seq<nat> {
    if log == [] then []
    else
      var before := ClaimedIds(log[..|log| - 1], nodeId, executor);
      match log[|log| - 1]
      case TaskEvent(id, Dispatch(n, e, _), _) => if n == nodeId && e == executor then before + [id] else before
      case _ => before
  }

  /** The queue: created and not yet claimed. */
  function Waiting(s: Db, nodeId: string, executor: string): seq<nat> {
    var created, claimed := CreatedIds(s.audit, nodeId, executor), ClaimedIds(s.audit, nodeId, executor);
    if |claimed| <= |created| then created[|claimed|..] else []
  }

  /** Later tasks have later creation times. */
  ghost predicate CreationTimesIncrease(s: Db) {
    forall a, b | a in s.tasks && b in s.tasks && a < b :: s.tasks[a].createdAt < s.tasks[b].createdAt
  }

  predicate Belongs(s: Db, id: nat, nodeId: string, executor: string) {
    id in s.tasks && s.tasks[id].nodeId == nodeId && s.tasks[id].executor == executor
  }

  ghost predicate QueueInv(s: Db, nodeId: string, executor: string) {
    var created, claimed := CreatedIds(s.audit, nodeId, executor), ClaimedIds(s.audit, nodeId, executor);
    && claimed <= created
    && (forall i, j | 0 <= i < j < |created| :: created[i] < created[j])
    && (forall id :: id in created <==> Belongs(s, id, nodeId, executor))
    && (forall i | 0 <= i < |created| ::
          Belongs(s, created[i], nodeId, executor) && (s.tasks[created[i]].status.Pending? <==> |claimed| <= i))
  }

  /** The queue after a step: unchanged, one task longer at the back, or its front claimed. */
  datatype QueueMove = Still | Enqueued(id: nat) | Dequeued

  ghost predicate QueueMoved(s: Db, s': Db, nodeId: string, executor: string, move: QueueMove) {
    var created, claimed := CreatedIds(s.audit, nodeId, executor), ClaimedIds(s.audit, nodeId, executor);
    var created', claimed' := CreatedIds(s'.audit, nodeId, executor), ClaimedIds(s'.audit, nodeId, executor);
    match move
    case Still => created' == created && claimed' == claimed
    case Enqueued(id) => created' == created + [id] && claimed' == claimed && id !in s.tasks && Belongs(s', id, nodeId, executor)
    case Dequeued => created' == created && |claimed| < |created| && claimed' == claimed + [created[|claimed|]]
  }

  lemma AppendedToQueue(log: seq<AuditEvent>, e: AuditEvent, nodeId: string, executor: string)
    ensures CreatedIds(log + [e], nodeId, executor) == CreatedIds(log, nodeId, executor) +
              (if e.TaskEvent? && e.action.Create? && e.action.nodeId == nodeId && e.action.executor == executor then [e.taskId] else [])
    ensures ClaimedIds(log + [e], nodeId, executor) == ClaimedIds(log, nodeId, executor) +
              (if e.TaskEvent? && e.action.Dispatch? && e.action.nodeId == nodeId && e.action.executor == executor then [e.taskId] else [])
  {
    assert (log + [e])[..|log + [e]| - 1] == log;
  }

  /** One logged event that neither creates nor claims, on rows that stay pending or not. */
  lemma QueueFrame(s: Db, s': Db, nodeId: string, executor: string)
    requires QueueInv(s, nodeId, executor)
    requires s'.audit == s.audit ||
             (|s'.audit| == |s.audit| + 1 && s'.audit == s.audit + [s'.audit[|s.audit|]] &&
              (s'.audit[|s.audit|].TaskEvent? ==>
                 !s'.audit[|s.audit|].action.Create? && !s'.audit[|s.audit|].action.Dispatch?))
    requires s'.tasks.Keys == s.tasks.Keys
    requires forall id | id in s.tasks ::
               TaskKept(s.tasks[id], s'.tasks[id]) && (s'.tasks[id].status.Pending? <==> s.tasks[id].status.Pending?)
    ensures QueueInv(s', nodeId, executor) && QueueMoved(s, s', nodeId, executor, Still)
  {
    if s'.audit != s.audit {
      AppendedToQueue(s.audit, s'.audit[|s.audit|], nodeId, executor);
    }
    assert forall id :: Belongs(s', id, nodeId, executor) <==> Belongs(s, id, nodeId, executor);
  }

  lemma InsertTaskQueue(s: Db, task: Task, now: Time, nodeId: string, executor: string)
    requires FreshIds(s) && QueueInv(s, nodeId, executor) && task.status.Pending?
    ensures QueueInv(InsertTask(s, task, now), nodeId, executor)
    ensures QueueMoved(s, InsertTask(s, task, now), nodeId, executor,
                       if task.nodeId == nodeId && task.executor == executor then Enqueued(s.nextId) else Still)
  {
    var s' := InsertTask(s, task, now);
    AppendedToQueue(s.audit, s'.audit[|s.audit|], nodeId, executor);
    var created := CreatedIds(s.audit, nodeId, executor);
    assert forall i | 0 <= i < |created| :: created[i] in created;
    assert forall id :: Belongs(s', id, nodeId, executor) <==>
        Belongs(s, id, nodeId, executor) || (id == s.nextId && task.nodeId == nodeId && task.executor == executor);
  }

  lemma DispatchTaskQueue(s: Db, id: nat, now: Time, nodeId: string, executor: string) returns (move: QueueMove)
    requires FreshIds(s) && QueueInv(s, nodeId, executor)
    ensures QueueInv(DispatchTask(s, id, now), nodeId, executor)
    ensures QueueMoved(s, DispatchTask(s, id, now), nodeId, executor, move) && !move.Dequeued?
  {
    move := Still;
    match TaskVerdict(s, id)
    case Ignore =>
    case Refuse(reason) => QueueFrame(s, FailDispatch(s, id, reason, now), nodeId, executor);
    case Proceed =>
      var task := TaskFor(s.approvals[id], now);
      var inserted := InsertTask(s, task, now);
      InsertTaskQueue(s, task, now, nodeId, executor);
      QueueFrame(inserted, LinkTask(inserted, id, s.nextId, task, now), nodeId, executor);
      move := if task.nodeId == nodeId && task.executor == executor then Enqueued(s.nextId) else Still;
  }

  lemma DispatchComponentQueue(s: Db, id: nat, now: Time, nodeId: string, executor: string)
    requires QueueInv(s, nodeId, executor)
    ensures QueueInv(DispatchComponent(s, id, now), nodeId, executor)
    ensures QueueMoved(s, DispatchComponent(s, id, now), nodeId, executor, Still)
  {
    match ComponentVerdict(s, id)
    case Ignore =>
    case Refuse(reason) => QueueFrame(s, FailDispatch(s, id, reason, now), nodeId, executor);
    case Proceed => QueueFrame(s, RecordComponent(s, s.approvals[id], id, s.approvals[id].subjectId.id, now), nodeId, executor);
  }

  lemma {:induction false} ExpireAllQueue(s: Db, ids: seq<nat>, now: Time, nodeId: string, executor: string)
    requires QueueInv(s, nodeId, executor)
    requires forall id | id in ids :: id in s.tasks && s.tasks[id].status.Running?
    ensures QueueInv(ExpireAll(s, ids, now), nodeId, executor)
    ensures QueueMoved(s, ExpireAll(s, ids, now), nodeId, executor, Still)
    ensures forall id | id in s.tasks :: ExpireAll(s, ids, now).tasks[id].status.Pending? <==> s.tasks[id].status.Pending?
  {
    if ids != [] {
      var init, last := ids[..|ids| - 1], ids[|ids| - 1];
      assert last in ids && forall id | id in init :: id in ids;
      ExpireAllQueue(s, init, now, nodeId, executor);
      QueueFrame(ExpireAll(s, init, now), ExpireOne(ExpireAll(s, init, now), last, now), nodeId, executor);
    }
  }

  /** What claim_next_task picks is the front of the queue, and it picks nothing only
      from an empty queue or an unmanaged node. */
  lemma ClaimTakesFront(s: Db, nodeId: string, executor: string, chosen: Option<nat>)
    requires QueueInv(s, nodeId, executor) && CreationTimesIncrease(s) && ClaimChoice(s, nodeId, executor, chosen)
    ensures chosen == if IsManaged(s, nodeId) && Waiting(s, nodeId, executor) != [] then Some(Waiting(s, nodeId, executor)[0]) else None
  {
    var created, claimed := CreatedIds(s.audit, nodeId, executor), ClaimedIds(s.audit, nodeId, executor);
    if |claimed| < |created| {
      var front := created[|claimed|];
      assert front in created && Belongs(s, front, nodeId, executor) && Claimable(s.tasks[front], nodeId, executor);
    }
    if chosen.Some? {
      var id := chosen.value;
      assert Belongs(s, id, nodeId, executor) && id in created;
      var i :| 0 <= i < |created| && created[i] == id;
      assert |claimed| <= i;
    }
  }

  /** A claimed task of another node or executor is no concern of this queue. */
  lemma ForeignClaimQueue(s: Db, s': Db, id: nat, e: AuditEvent, nodeId: string, executor: string)
    requires QueueInv(s, nodeId, executor) && id in s.tasks && !Belongs(s, id, nodeId, executor)
    requires s'.audit == s.audit + [e] && e.TaskEvent? && e.action.Dispatch?
    requires !(e.action.nodeId == nodeId && e.action.executor == executor)
    requires s'.tasks.Keys == s.tasks.Keys && TaskKept(s.tasks[id], s'.tasks[id])
    requires forall other | other in s.tasks && other != id :: s'.tasks[other] == s.tasks[other]
    ensures QueueInv(s', nodeId, executor) && QueueMoved(s, s', nodeId, executor, Still)
  {
    AppendedToQueue(s.audit, e, nodeId, executor);
    assert forall other :: Belongs(s', other, nodeId, executor) <==> Belongs(s, other, nodeId, executor);
  }

  /** Claiming the front moves it from the waiting to the claimed. */
  lemma FrontClaimQueue(s: Db, s': Db, id: nat, e: AuditEvent, nodeId: string, executor: string)
    requires QueueInv(s, nodeId, executor) && id in s.tasks
    requires Waiting(s, nodeId, executor) != [] && Waiting(s, nodeId, executor)[0] == id
    requires s'.audit == s.audit + [e] && e.TaskEvent? && e.taskId == id && e.action.Dispatch?
    requires e.action.nodeId == nodeId && e.action.executor == executor
    requires s'.tasks.Keys == s.tasks.Keys && TaskKept(s.tasks[id], s'.tasks[id]) && !s'.tasks[id].status.Pending?
    requires forall other | other in s.tasks && other != id :: s'.tasks[other] == s.tasks[other]
    ensures QueueInv(s', nodeId, executor) && QueueMoved(s, s', nodeId, executor, Dequeued)
  {
    AppendedToQueue(s.audit, e, nodeId, executor);
    assert forall other :: Belongs(s', other, nodeId, executor) <==> Belongs(s, other, nodeId, executor);
  }

  lemma ClaimQueue(s: Db, op: Op, nodeId: string, executor: string) returns (move: QueueMove)
    requires FreshIds(s) && QueueInv(s, nodeId, executor) && op.ClaimOp? && Permitted(s, op)
    requires op.nodeId == nodeId && op.executor == executor ==> CreationTimesIncrease(s)
    ensures QueueInv(Step(s, op), nodeId, executor)
    ensures QueueMoved(s, Step(s, op), nodeId, executor, move)
    ensures move == if op.nodeId == nodeId && op.executor == executor && op.chosen.Some? then Dequeued else Still
  {
    move := Still;
    if op.chosen.Some? {
      var e := TaskEvent(op.chosen.value, Dispatch(op.nodeId, op.executor, op.leaseSeconds), op.now);
      if op.nodeId == nodeId && op.executor == executor {
        ClaimTakesFront(s, nodeId, executor, op.chosen);
        FrontClaimQueue(s, Step(s, op), op.chosen.value, e, nodeId, executor);
        move := Dequeued;
      } else {
        ForeignClaimQueue(s, Step(s, op), op.chosen.value, e, nodeId, executor);
      }
    }
  }

  /** Steps that touch no task and log no task event leave the queue alone. */
  lemma OtherStepQueue(s: Db, op: Op, nodeId: string, executor: string)
    requires FreshIds(s) && QueueInv(s, nodeId, executor) && Permitted(s, op) && CreationTimesIncrease(s)
    requires op.SetNode? || op.CreateApprovalOp? || op.DecideOp? || op.CompleteOp? || op.RecordRunOp? || op.ApplyOp? || op.UninstallOp?
    ensures QueueInv(Step(s, op), nodeId, executor)
    ensures QueueMoved(s, Step(s, op), nodeId, executor, Still)
  {
    QueueFrame(s, Step(s, op), nodeId, executor);
  }

  /** Every step is a step of the abstract queue. A claim that the node's state allows
      takes the front; nothing else takes anything. */
  lemma StepIsQueueStep(s: Db, op: Op, nodeId: string, executor: string) returns (move: QueueMove)
    requires FreshIds(s) && QueueInv(s, nodeId, executor) && Permitted(s, op) && CreationTimesIncrease(s)
    ensures QueueInv(Step(s, op), nodeId, executor)
    ensures QueueMoved(s, Step(s, op), nodeId, executor, move)
    ensures move.Dequeued? <==>
              (op.ClaimOp? && op.nodeId == nodeId && op.executor == executor &&
               IsManaged(s, nodeId) && Waiting(s, nodeId, executor) != [])
  {
    move := Still;
    match op
    case DispatchTaskOp(id, now) => move := DispatchTaskQueue(s, id, now, nodeId, executor);
    case DispatchComponentOp(id, now) => DispatchComponentQueue(s, id, now, nodeId, executor);
    case ExpireOp(_, now, expired) => ExpireAllQueue(s, expired, now, nodeId, executor);
    case ClaimOp(n, e, _, _, chosen) =>
      if n == nodeId && e == executor { ClaimTakesFront(s, nodeId, executor, chosen); }
      move := ClaimQueue(s, op, nodeId, executor);
    case CreateTaskOp(n, command, risk, actor, e, now) =>
      InsertTaskQueue(s, NewTask(n, command, risk, actor, e, now), now, nodeId, executor);
      move := if n == nodeId && e == executor then Enqueued(s.nextId) else Still;
    case _ => OtherStepQueue(s, op, nodeId, executor);
  }

  /** With increasing creation times, at every moment of any run the claimed ids of a node
      and executor are a prefix of its created ids. */
  lemma {:induction false} ClaimsAreFirstInFirstOut(ops: seq<Op>, nodeId: string, executor: string)
    requires ValidRun(ops) && CreationTimesIncrease(Exec(ops))
    ensures QueueInv(Exec(ops), nodeId, executor)
    ensures ClaimedIds(Exec(ops).audit, nodeId, executor) <= CreatedIds(Exec(ops).audit, nodeId, executor)
    decreases |ops|
  {
    if ops != [] {
      var init := ops[..|ops| - 1];
      AuditLogIsComplete(init);
      StepKeeps(Exec(init), ops[|ops| - 1]);
      ClaimsAreFirstInFirstOut(init, nodeId, executor);
      var _ := StepIsQueueStep(Exec(init), ops[|ops| - 1], nodeId, executor);
    }
  }
}
