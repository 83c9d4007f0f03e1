// The approval gate for components: no high or critical action on a component is recorded,
// and no component row shows one, without an approved request that names it in full.
module ComponentGate {
  import opened ControlPlane
  import opened AuditReplay
  import opened ApprovalGate
  import opened StepEffects

  /** `id` is an approved request for exactly the run, which names whoever approved it. */
  predicate Releases(s: Db, id: nat, runId: nat) {
    && id in s.approvals && runId in s.runs
    && var a := s.approvals[id];
       && a.status == Approved && AboutRun(a, runId, s.runs[runId])
       && s.runs[runId].approvedBy == a.decidedBy
  }

  /** A recorded risky run names an approval, and whatever run names one was released by it. */
  predicate RunReleased(s: Db, runId: nat)
    requires runId in s.runs
  {
    var run := s.runs[runId];
    && (run.status == StateRecorded && run.risk in {"high", "critical"} ==> run.approvalId.Some?)
    && (run.approvalId.Some? ==> run.status == StateRecorded && Releases(s, run.approvalId.value, runId))
    && (run.approvalId.None? ==> run.approvedBy == "")
  }

  /** The row shows the effect of a recorded run on that very component and node. */
  predicate RowFollowsRun(s: Db, key: (string, string))
    requires key in s.components
  {
    && s.components[key].lastRunId in s.runs
    && var run := s.runs[s.components[key].lastRunId];
       && run.status.StateRecorded? && (run.nodeId, run.componentId) == key
       && s.components[key].desiredState == (if run.action == "uninstall" then Absent else Enabled)
  }

  ghost predicate ComponentGate(s: Db) {
    && FreshIds(s)
    && (forall runId | runId in s.runs :: RunReleased(s, runId))
    && (forall key | key in s.components :: RowFollowsRun(s, key))
  }

  lemma ReleaseKept(s: Db, s': Db, id: nat, runId: nat)
    requires Kept(s, s') && Releases(s, id, runId) && runId in s'.runs && s'.runs[runId] == s.runs[runId]
    ensures Releases(s', id, runId)
  {
    assert ApprovalKept(s.approvals[id], s'.approvals[id]);
  }

  /** A run that no step can have released: nobody is named for it. */
  predicate Unreleased(run: ComponentRun) {
    && run.approvalId.None? && run.approvedBy == ""
    && !(run.status == StateRecorded && run.risk in {"high", "critical"})
  }

  /** A step that adds only unreleased runs keeps the gate on the runs. */
  lemma RunsStayReleased(s: Db, s': Db)
    requires ComponentGate(s) && Kept(s, s')
    requires forall runId | runId in s'.runs ::
               (runId in s.runs && s'.runs[runId] == s.runs[runId]) || Unreleased(s'.runs[runId])
    ensures forall runId | runId in s'.runs :: RunReleased(s', runId)
  {
    forall runId | runId in s'.runs ensures RunReleased(s', runId) {
      RunStaysReleased(s, s', runId);
    }
  }

  lemma RunStaysReleased(s: Db, s': Db, runId: nat)
    requires ComponentGate(s) && Kept(s, s') && runId in s'.runs
    requires (runId in s.runs && s'.runs[runId] == s.runs[runId]) || Unreleased(s'.runs[runId])
    ensures RunReleased(s', runId)
  {
    if runId in s.runs && s'.runs[runId] == s.runs[runId] {
      assert RunReleased(s, runId);
      if s.runs[runId].approvalId.Some? {
        ReleaseKept(s, s', s.runs[runId].approvalId.value, runId);
      }
    }
  }

  /** Steps that touch neither runs nor components. */
  lemma FrameKeepsComponentGate(s: Db, s': Db)
    requires ComponentGate(s) && Kept(s, s') && s'.runs == s.runs && s'.components == s.components
    ensures ComponentGate(s')
  {
    RunsStayReleased(s, s');
    forall key | key in s'.components ensures RowFollowsRun(s', key) { assert RowFollowsRun(s, key); }
  }

  /** A direct action: a fresh run that is not risky, and perhaps its row. */
  lemma DirectKeepsComponentGate(s: Db, op: Op)
    requires ComponentGate(s) && Permitted(s, op) && Gated(op) && (op.RecordRunOp? || op.ApplyOp? || op.UninstallOp?)
    ensures ComponentGate(Step(s, op))
  {
    NewRunKeeps(s, op);
    RunsStayReleased(s, Step(s, op));
    DirectRowsFollow(s, op);
  }

  lemma DirectRowsFollow(s: Db, op: Op)
    requires ComponentGate(s) && Permitted(s, op) && (op.RecordRunOp? || op.ApplyOp? || op.UninstallOp?)
    ensures forall key | key in Step(s, op).components :: RowFollowsRun(Step(s, op), key)
  {
    var s' := Step(s, op);
    forall key | key in s'.components ensures RowFollowsRun(s', key) {
      if key in s.components { assert RowFollowsRun(s, key); }
    }
  }

  /** A dispatch records the run its approval names, and says which approval it was. */
  lemma RecordKeepsComponentGate(s: Db, id: nat, now: Time)
    requires ComponentGate(s) && ComponentVerdict(s, id).Proceed?
    ensures ComponentGate(DispatchComponent(s, id, now))
  {
    var s' := DispatchComponent(s, id, now);
    var runId := s.approvals[id].subjectId.id;
    DispatchComponentKeeps(s, id, now);
    MatchIsAbout(s.approvals[id], runId, s.runs[runId]);
    assert RequestedAction(s.approvals[id], s.runs[runId]) == s.runs[runId].action;
    assert Releases(s', id, runId);
    forall other | other in s'.runs ensures RunReleased(s', other) {
      if other != runId { RunStaysReleased(s, s', other); }
    }
    RecordedRowsFollow(s, id, now);
  }

  lemma RecordedRowsFollow(s: Db, id: nat, now: Time)
    requires ComponentGate(s) && ComponentVerdict(s, id).Proceed?
    ensures forall key | key in DispatchComponent(s, id, now).components :: RowFollowsRun(DispatchComponent(s, id, now), key)
  {
    var s' := DispatchComponent(s, id, now);
    var run := s.runs[s.approvals[id].subjectId.id];
    assert RequestedAction(s.approvals[id], run) == run.action;
    forall key | key in s'.components ensures RowFollowsRun(s', key) {
      if key in s.components { assert RowFollowsRun(s, key); }
    }
  }

  lemma DispatchKeepsComponentGate(s: Db, id: nat, now: Time)
    requires ComponentGate(s)
    ensures ComponentGate(DispatchComponent(s, id, now))
  {
    if ComponentVerdict(s, id).Proceed? {
      RecordKeepsComponentGate(s, id, now);
    } else {
      DispatchComponentKeeps(s, id, now);
      FrameKeepsComponentGate(s, DispatchComponent(s, id, now));
    }
  }

  lemma {:induction false} ExpireTouchesNoRun(s: Db, ids: seq<nat>, now: Time)
    requires forall id | id in ids :: id in s.tasks
    ensures ExpireAll(s, ids, now).runs == s.runs && ExpireAll(s, ids, now).components == s.components
  {
    if ids != [] {
      assert forall id | id in ids[..|ids| - 1] :: id in ids;
      ExpireTouchesNoRun(s, ids[..|ids| - 1], now);
    }
  }

  lemma TaskDispatchTouchesNoRun(s: Db, id: nat, now: Time)
    ensures DispatchTask(s, id, now).runs == s.runs && DispatchTask(s, id, now).components == s.components
  {
    match TaskVerdict(s, id)
    case Ignore =>
    case Refuse(_) =>
    case Proceed =>
  }

  lemma OtherStepTouchesNoRun(s: Db, op: Op)
    requires Permitted(s, op) && !op.RecordRunOp? && !op.ApplyOp? && !op.UninstallOp? && !op.DispatchComponentOp?
    ensures Step(s, op).runs == s.runs && Step(s, op).components == s.components
  {
    match op
    case ExpireOp(_, now, expired) => ExpireTouchesNoRun(s, expired, now);
    case DispatchTaskOp(id, now) => TaskDispatchTouchesNoRun(s, id, now);
    case _ =>
  }

  lemma StepKeepsComponentGate(s: Db, op: Op)
    requires ComponentGate(s) && Permitted(s, op) && Gated(op)
    ensures ComponentGate(Step(s, op))
  {
    if op.RecordRunOp? || op.ApplyOp? || op.UninstallOp? {
      DirectKeepsComponentGate(s, op);
    } else if op.DispatchComponentOp? {
      DispatchKeepsComponentGate(s, op.approvalId, op.now);
    } else {
      StepKeeps(s, op);
      OtherStepTouchesNoRun(s, op);
      FrameKeepsComponentGate(s, Step(s, op));
    }
  }

  lemma {:induction false} RunComponentGate(ops: seq<Op>)
    requires GatedRun(ops)
    ensures ComponentGate(Exec(ops))
    decreases |ops|
  {
    if ops != [] {
      var init := ops[..|ops| - 1];
      assert forall i | 0 <= i < |init| :: init[i] == ops[i];
      RunComponentGate(init);
      StepKeepsComponentGate(Exec(init), ops[|ops| - 1]);
    }
  }

  /** Every recorded high or critical run was released by the request it names: approved,
      for a component, about that run, agreeing with it in every column, and decided by
      whom the run names. */
  lemma RiskyRunHasItsApproval(ops: seq<Op>, runId: nat)
    requires GatedRun(ops) && runId in Exec(ops).runs
    requires Exec(ops).runs[runId].status == StateRecorded && Exec(ops).runs[runId].risk in {"high", "critical"}
    ensures Exec(ops).runs[runId].approvalId.Some? && Releases(Exec(ops), Exec(ops).runs[runId].approvalId.value, runId)
  {
    RunComponentGate(ops);
    assert RunReleased(Exec(ops), runId);
  }

  /** What is installed or removed shows a recorded run of that component on that node,
      and if that run is high or critical risk, it was approved. */
  lemma ComponentRowIsApproved(ops: seq<Op>, key: (string, string))
    requires GatedRun(ops) && key in Exec(ops).components
    ensures var s := Exec(ops);
            && RowFollowsRun(s, key)
            && var run := s.runs[s.components[key].lastRunId];
               && (run.risk in {"high", "critical"} ==> run.approvalId.Some?)
               && (run.approvalId.Some? ==> Releases(s, run.approvalId.value, s.components[key].lastRunId))
  {
    RunComponentGate(ops);
    var s := Exec(ops);
    assert RowFollowsRun(s, key) && RunReleased(s, s.components[key].lastRunId);
  }
}
