// What the log tells of an approval request. The request's event is one dict in which
// the keys of the details overwrite the row's subject, action and risk, so the log tells
// these columns only where the details do not contradict them.
module RequestLog {
  import opened Basics
  import opened ControlPlane
  import opened AuditReplay
  import opened ApprovalGate

  /** The action that a text names. */
  function ActionOf(text: string): (action: ActionName)
    ensures ActionText(action) == text
  {
    if text == "task.run" then TaskRun
    else if "component." <= text then
      assert text == "component." + text[|"component."|..];
      ComponentAction(text[|"component."|..])
    else OtherAction(text)
  }

  /** The text names no other action. */
  predicate Canonical(action: ActionName) {
    ActionOf(ActionText(action)) == action
  }

  /** How to read a row's action off the dict: component requests log the bare name. */
  function ReadAction(subjectType: SubjectType, told: Told): ActionName {
    if subjectType.ComponentRunSubject? then ComponentAction(told.action) else ActionOf(told.action)
  }

  /** The details of a component request name its action; others name none but their own. */
  predicate ActionAgrees(a: Approval) {
    if a.subjectType.ComponentRunSubject? then a.details.action.Some? && a.action == ComponentAction(a.details.action.value)
    else Canonical(a.action) && (a.details.action.None? || a.details.action.value == ActionText(a.action))
  }

  predicate RiskAgrees(a: Approval) {
    a.details.risk.None? || a.details.risk.value == a.risk
  }

  predicate SubjectAgrees(a: Approval) {
    a.details.subjectId.None? || a.details.subjectId.value == a.subjectId
  }

  predicate DetailsAgree(a: Approval) {
    ActionAgrees(a) && RiskAgrees(a) && SubjectAgrees(a)
  }

  /** The dict tells a column if and only if the details agree with it. */
  lemma ColumnsReadable(a: Approval)
    ensures ReadAction(a.subjectType, ToldBy(a)) == a.action <==> ActionAgrees(a)
    ensures ToldBy(a).risk == a.risk <==> RiskAgrees(a)
    ensures ToldBy(a).subjectId == a.subjectId <==> SubjectAgrees(a)
  {
    if a.subjectType.ComponentRunSubject? && a.details.action.None? { NameIsShorter(a.action); }
  }

  lemma NameIsShorter(action: ActionName)
    ensures ComponentAction(ActionText(action)) != action
  {
    if action.ComponentAction? {
      assert |ActionText(action)| == |"component."| + |action.action|;
    }
  }

  // ----- Over whole runs -----

  predicate Agrees(op: Op) {
    match op
    case CreateApprovalOp(subjectType, subjectId, action, risk, requestedBy, details, now) =>
      DetailsAgree(NewApproval(subjectType, subjectId, action, risk, requestedBy, details, now))
    case _ => true
  }

  ghost predicate AgreeingRun(ops: seq<Op>) {
    ValidRun(ops) && forall i | 0 <= i < |ops| :: Agrees(ops[i])
  }

  ghost predicate AllAgree(s: Db) {
    forall id | id in s.approvals :: DetailsAgree(s.approvals[id])
  }

  lemma KeptAgrees(a: Approval, a': Approval)
    requires ApprovalKept(a, a') && DetailsAgree(a)
    ensures DetailsAgree(a')
  {
    assert a'.details.(dispatchedTaskId := None).action == a.details.(dispatchedTaskId := None).action;
    assert a'.details.(dispatchedTaskId := None).risk == a.details.(dispatchedTaskId := None).risk;
    assert a'.details.(dispatchedTaskId := None).subjectId == a.details.(dispatchedTaskId := None).subjectId;
  }

  lemma DispatchAddsNoRequest(s: Db, id: nat, now: Time)
    ensures DispatchTask(s, id, now).approvals.Keys == s.approvals.Keys
    ensures DispatchComponent(s, id, now).approvals == s.approvals
  {
    match TaskVerdict(s, id) {
      case Ignore =>
      case Refuse(_) =>
      case Proceed =>
    }
    if ComponentVerdict(s, id).Proceed? { assert s.approvals[id].subjectId.id in s.runs; }
  }

  lemma OtherStepAddsNoRequest(s: Db, op: Op)
    requires FreshIds(s) && Permitted(s, op) && !op.CreateApprovalOp?
    ensures Step(s, op).approvals.Keys == s.approvals.Keys
  {
    match op
    case ExpireOp(_, now, expired) => ApprovalGate.ExpireAllKeeps(s, expired, now);
    case DispatchTaskOp(id, now) => DispatchAddsNoRequest(s, id, now);
    case DispatchComponentOp(id, now) => DispatchAddsNoRequest(s, id, now);
    case _ =>
  }

  lemma StepAgrees(s: Db, op: Op)
    requires FreshIds(s) && AllAgree(s) && Permitted(s, op) && Agrees(op)
    ensures AllAgree(Step(s, op))
  {
    var s' := Step(s, op);
    StepKeeps(s, op);
    if !op.CreateApprovalOp? { OtherStepAddsNoRequest(s, op); }
    forall id | id in s'.approvals ensures DetailsAgree(s'.approvals[id]) {
      if id in s.approvals { KeptAgrees(s.approvals[id], s'.approvals[id]); }
    }
  }

  lemma {:induction false} RunAgrees(ops: seq<Op>)
    requires AgreeingRun(ops)
    ensures AllAgree(Exec(ops))
    decreases |ops|
  {
    if ops != [] {
      var init := ops[..|ops| - 1];
      assert forall i | 0 <= i < |init| :: init[i] == ops[i];
      RunAgrees(init);
      AuditLogIsComplete(init);
      StepAgrees(Exec(init), ops[|ops| - 1]);
    }
  }

  /** `a` is what the replay of its row reads as, in every column that the log tells. */
  ghost predicate ReadsAs(v: ApprovalView, a: Approval) {
    && v.subjectType == a.subjectType && v.told.subjectId == a.subjectId && v.told.risk == a.risk
    && ReadAction(v.subjectType, v.told) == a.action
    && v.told.others == a.details.(subjectId := None, action := None, risk := None)
    && v.status == a.status && v.decidedBy == a.decidedBy
  }

  /** In a run whose requests agree with their details, the log tells every request's
      subject, action and risk, open or decided. */
  lemma LogTellsRequests(ops: seq<Op>, id: nat)
    requires AgreeingRun(ops) && id in Exec(ops).approvals
    ensures ReplayApproval(Exec(ops).audit, id).Row? && ReadsAs(ReplayApproval(Exec(ops).audit, id).row, Exec(ops).approvals[id])
  {
    AuditLogIsComplete(ops);
    RunAgrees(ops);
    assert ReplayApproval(Exec(ops).audit, id) == CurrentApproval(Exec(ops), id);
    ColumnsReadable(Exec(ops).approvals[id]);
  }

  /** With or without that, the decision tells subject and risk. */
  lemma DecisionTellsSubjectAndRisk(ops: seq<Op>, id: nat)
    requires ValidRun(ops) && id in Exec(ops).approvals && !Exec(ops).approvals[id].status.Requested?
    ensures var a := Exec(ops).approvals[id];
            ReplayApproval(Exec(ops).audit, id).Row? && ReplayApproval(Exec(ops).audit, id).row.ruling == Some(Ruling(a.subjectId, a.risk))
  {
    AuditLogIsComplete(ops);
    assert ReplayApproval(Exec(ops).audit, id) == CurrentApproval(Exec(ops), id);
  }

  // ----- Where the details contradict the row -----

  function OneRequest(action: string, details: Details, now: Time): Op {
    CreateApprovalOp(ComponentRunSubject, RunId(0), ComponentAction(action), "high", "hmn", details, now)
  }

  lemma AfterOneRequest(action: string, details: Details, now: Time)
    ensures ValidRun([OneRequest(action, details, now)])
    ensures Exec([OneRequest(action, details, now)]) == Step(EMPTY, OneRequest(action, details, now))
  {
    var ops := [OneRequest(action, details, now)];
    assert ops[..|ops| - 1] == [];
  }

  /** A request for an uninstall and one for an apply, both with details that say apply,
      leave the same log and different rows. */
  lemma OverwrittenActionIsLost(details: Details, now: Time)
    requires details.action == Some("apply")
    ensures var uninstall, apply := [OneRequest("uninstall", details, now)], [OneRequest("apply", details, now)];
            && ValidRun(uninstall) && ValidRun(apply)
            && Exec(uninstall).audit == Exec(apply).audit
            && Exec(uninstall).approvals != Exec(apply).approvals
            && (details.dispatchedTaskId.None? ==> GatedRun(uninstall) && GatedRun(apply))
  {
    AfterOneRequest("uninstall", details, now);
    AfterOneRequest("apply", details, now);
    var s, s' := Step(EMPTY, OneRequest("uninstall", details, now)), Step(EMPTY, OneRequest("apply", details, now));
    assert s.approvals[0].action != s'.approvals[0].action by {
      assert "uninstall"[0] != "apply"[0];
    }
  }
}
