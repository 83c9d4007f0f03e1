// What workers print reaches the task table capped, once, and stays: the stored text is
// the best cut of what the one step that ended the task reported.
module StoredOutput {
  import opened Basics
  import opened ControlPlane
  import opened OutputCap
  import opened AuditReplay

  datatype Report = Report(exitCode: int, stdout: string, stderr: string)

  ghost predicate Ends(s: Db, op: Op, id: nat) {
    op.CompleteOp? && op.taskId == id && id in s.tasks && s.tasks[id].status.Running?
  }

  /** The reports that ended a task, in order, as the worker sent them. */
  ghost function Reports(ops: seq<Op>, id: nat): seq<Report>
    requires ValidRun(ops)
  {
    if ops == [] then []
    else
      var init, op := ops[..|ops| - 1], ops[|ops| - 1];
      Reports(init, id) + if Ends(Exec(init), op, id) then [Report(op.exitCode, op.stdout, op.stderr)] else []
  }

  /** A task that no report ended holds no output and no exit code; one that a report
      ended has ended, and holds that report. */
  ghost predicate Holds(t: Task, reports: seq<Report>) {
    if reports == [] then t.stdout == "" && t.stderr == "" && t.exitCode.None?
    else
      && |reports| == 1
      && !t.status.Running? && !t.status.Pending?
      && t.exitCode == Some(reports[0].exitCode)
      && t.stdout == CapTaskOutput(reports[0].stdout) && t.stderr == CapTaskOutput(reports[0].stderr)
  }

  ghost predicate AllHold(ops: seq<Op>)
    requires ValidRun(ops)
  {
    forall id: nat :: Told(Exec(ops), id, Reports(ops, id))
  }

  ghost predicate Told(s: Db, id: nat, reports: seq<Report>) {
    if id in s.tasks then Holds(s.tasks[id], reports) else reports == []
  }

  /** What a task row says about its output. */
  predicate SameOutput(t: Task, t': Task) {
    && t'.stdout == t.stdout && t'.stderr == t.stderr && t'.exitCode == t.exitCode
    && (!t.status.Pending? && !t.status.Running? ==> t'.status == t.status)
  }

  /** A step that ends no task by report leaves all output as it was. */
  ghost predicate OutputKept(s: Db, s': Db) {
    && (forall id | id in s.tasks :: id in s'.tasks && SameOutput(s.tasks[id], s'.tasks[id]))
    && (forall id | id in s'.tasks && id !in s.tasks :: Holds(s'.tasks[id], []))
  }

  lemma {:induction false} ExpireAllKeepsOutput(s: Db, ids: seq<nat>, now: Time)
    requires forall id | id in ids :: id in s.tasks
    ensures OutputKept(s, ExpireAll(s, ids, now))
  {
    if ids != [] {
      assert forall id | id in ids[..|ids| - 1] :: id in ids;
      ExpireAllKeepsOutput(s, ids[..|ids| - 1], now);
    }
  }

  lemma DispatchKeepsOutput(s: Db, id: nat, now: Time)
    requires s.nextId !in s.tasks
    ensures OutputKept(s, DispatchTask(s, id, now)) && OutputKept(s, DispatchComponent(s, id, now))
  {
    match TaskVerdict(s, id) {
      case Ignore =>
      case Refuse(_) =>
      case Proceed =>
    }
    match ComponentVerdict(s, id)
    case Ignore =>
    case Refuse(_) =>
    case Proceed => assert s.approvals[id].subjectId.id in s.runs;
  }

  lemma OtherStepKeepsOutput(s: Db, op: Op)
    requires Permitted(s, op) && (op.CompleteOp? ==> !Ends(s, op, op.taskId)) && s.nextId !in s.tasks
    ensures OutputKept(s, Step(s, op))
  {
    match op
    case ExpireOp(_, now, expired) => ExpireAllKeepsOutput(s, expired, now);
    case DispatchTaskOp(id, now) => DispatchKeepsOutput(s, id, now);
    case DispatchComponentOp(id, now) => DispatchKeepsOutput(s, id, now);
    case _ =>
  }

  /** The step that ends a task stores what it reports, capped. */
  lemma EndingStepStores(s: Db, op: Op)
    requires Permitted(s, op) && op.CompleteOp? && Ends(s, op, op.taskId)
    ensures Step(s, op).tasks == s.tasks[op.taskId := Step(s, op).tasks[op.taskId]]
    ensures s.tasks[op.taskId].exitCode.None? ==> Holds(Step(s, op).tasks[op.taskId], [Report(op.exitCode, op.stdout, op.stderr)])
  {
  }

  lemma HoldsFrame(t: Task, t': Task, reports: seq<Report>)
    requires Holds(t, reports) && SameOutput(t, t')
    ensures Holds(t', reports)
  {
  }

  lemma OtherStepTold(s: Db, op: Op, id: nat, reports: seq<Report>)
    requires Permitted(s, op) && (op.CompleteOp? ==> !Ends(s, op, op.taskId)) && s.nextId !in s.tasks
    requires Told(s, id, reports)
    ensures Told(Step(s, op), id, reports)
  {
    OtherStepKeepsOutput(s, op);
    if id in s.tasks { HoldsFrame(s.tasks[id], Step(s, op).tasks[id], reports); }
  }

  lemma EndingStepTold(s: Db, op: Op, id: nat, reports: seq<Report>)
    requires Permitted(s, op) && op.CompleteOp? && Ends(s, op, op.taskId) && Told(s, id, reports)
    ensures Told(Step(s, op), id, reports + if op.taskId == id then [Report(op.exitCode, op.stdout, op.stderr)] else [])
  {
    EndingStepStores(s, op);
    if op.taskId == id {
      assert reports == [];
      assert reports + [Report(op.exitCode, op.stdout, op.stderr)] == [Report(op.exitCode, op.stdout, op.stderr)];
    } else {
      assert reports + [] == reports;
    }
  }

  lemma StepHolds(ops: seq<Op>, id: nat)
    requires ValidRun(ops) && ops != [] && FreshIds(Exec(ops[..|ops| - 1]))
    requires Told(Exec(ops[..|ops| - 1]), id, Reports(ops[..|ops| - 1], id))
    ensures Told(Exec(ops), id, Reports(ops, id))
  {
    var init, op := ops[..|ops| - 1], ops[|ops| - 1];
    var reports := Reports(init, id);
    if op.CompleteOp? && Ends(Exec(init), op, op.taskId) {
      EndingStepTold(Exec(init), op, id, reports);
    } else {
      OtherStepTold(Exec(init), op, id, reports);
      assert reports + [] == reports;
    }
  }

  lemma {:induction false} ReportsAreHeld(ops: seq<Op>)
    requires ValidRun(ops)
    ensures AllHold(ops)
    decreases |ops|
  {
    if ops != [] {
      ReportsAreHeld(ops[..|ops| - 1]);
      AuditLogIsComplete(ops[..|ops| - 1]);
      forall id: nat ensures Told(Exec(ops), id, Reports(ops, id)) {
        StepHolds(ops, id);
      }
    }
  }

  lemma HeldIsCut(t: Task, reports: seq<Report>)
    requires Holds(t, reports)
    ensures FitsCap(t.stdout) && FitsCap(t.stderr)
    ensures if reports == [] then t.stdout == "" && t.stderr == ""
            else |reports| == 1 && StoredAs(reports[0].stdout, t.stdout) && StoredAs(reports[0].stderr, t.stderr)
  {
    if reports != [] {
      TaskOutputIsBestCut(reports[0].stdout);
      TaskOutputIsBestCut(reports[0].stderr);
    }
  }

  /** In every state any run reaches, a task was ended by at most one report, and what
      it holds is the best cut of that report's output, at most 65536 bytes of UTF-8;
      without a report it holds none. */
  lemma StoredOutputIsTheReport(ops: seq<Op>, id: nat)
    requires ValidRun(ops) && id in Exec(ops).tasks
    ensures var t, reports := Exec(ops).tasks[id], Reports(ops, id);
            && FitsCap(t.stdout) && FitsCap(t.stderr)
            && if reports == [] then t.stdout == "" && t.stderr == ""
               else |reports| == 1 && StoredAs(reports[0].stdout, t.stdout) && StoredAs(reports[0].stderr, t.stderr)
  {
    ReportsAreHeld(ops);
    assert Told(Exec(ops), id, Reports(ops, id));
    HeldIsCut(Exec(ops).tasks[id], Reports(ops, id));
  }
}
