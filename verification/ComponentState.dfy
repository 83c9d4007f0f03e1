// Component state over whole runs: what is installed on a node is what the last recorded
// action said, a run is recorded once, and a refused dispatch leaves only its audit event.
module ComponentState {
  import opened Basics
  import opened ControlPlane
  import opened AuditReplay
  import opened StepEffects

  predicate Records(e: AuditEvent, key: (string, string)) {
    e.ComponentEvent? && (e.nodeId, e.componentId) == key && e.outcome.StateRecorded?
  }

  /** Position of the last recorded action on a component of a node. */
  ghost predicate LastRecord(log: seq<AuditEvent>, key: (string, string), i: int) {
    0 <= i < |log| && Records(log[i], key) && forall j | i < j < |log| :: !Records(log[j], key)
  }

  lemma {:induction false} ReplayFindsLastRecord(log: seq<AuditEvent>, key: (string, string))
    ensures ReplayComponent(log, key).None? <==> forall i | 0 <= i < |log| :: !Records(log[i], key)
    ensures ReplayComponent(log, key).Some? ==>
              exists i :: LastRecord(log, key, i) && ReplayComponent(log, key).value ==
                ComponentView(if log[i].componentAction == "uninstall" then Absent else Enabled, log[i].runId)
    decreases |log|
  {
    if log != [] {
      var init, last := log[..|log| - 1], |log| - 1;
      ReplayFindsLastRecord(init, key);
      if Records(log[last], key) {
        assert LastRecord(log, key, last);
      } else if ReplayComponent(init, key).Some? {
        var i :| LastRecord(init, key, i) && ReplayComponent(init, key).value ==
          ComponentView(if init[i].componentAction == "uninstall" then Absent else Enabled, init[i].runId);
        assert LastRecord(log, key, i);
      }
    }
  }

  /** A node/component row exists exactly when some action on it was recorded, and it shows
      the last one: absent after an uninstall, enabled otherwise, under that run's id. */
  lemma StateIsLastRecordedAction(ops: seq<Op>, key: (string, string))
    requires ValidRun(ops)
    ensures var s := Exec(ops);
            if key in s.components then
              exists i :: LastRecord(s.audit, key, i)
                && s.components[key].desiredState == (if s.audit[i].componentAction == "uninstall" then Absent else Enabled)
                && s.components[key].lastRunId == s.audit[i].runId
            else forall i | 0 <= i < |s.audit| :: !Records(s.audit[i], key)
  {
    AuditLogIsComplete(ops);
    var s := Exec(ops);
    assert ReplayComponent(s.audit, key) == CurrentComponent(s, key);
    ReplayFindsLastRecord(s.audit, key);
  }

  function CountRecorded(log: seq<AuditEvent>, runId: nat): nat {
    if log == [] then 0
    else
      var e := log[|log| - 1];
      CountRecorded(log[..|log| - 1], runId) +
      if e.ComponentEvent? && e.runId == runId && e.outcome.StateRecorded? then 1 else 0
  }

  lemma {:induction false} ReplayCountsRecords(log: seq<AuditEvent>, runId: nat)
    requires !ReplayRun(log, runId).Corrupt?
    ensures CountRecorded(log, runId) ==
            if ReplayRun(log, runId).Row? && ReplayRun(log, runId).row.status.StateRecorded? then 1 else 0
    decreases |log|
  {
    if log != [] {
      ReplayCountsRecords(log[..|log| - 1], runId);
    }
  }

  /** A run is recorded at most once, however often its approval is dispatched. */
  lemma RunRecordedOnce(ops: seq<Op>, runId: nat)
    requires ValidRun(ops)
    ensures CountRecorded(Exec(ops).audit, runId) ==
            if runId in Exec(ops).runs && Exec(ops).runs[runId].status.StateRecorded? then 1 else 0
  {
    AuditLogIsComplete(ops);
    assert ReplayRun(Exec(ops).audit, runId) == CurrentRun(Exec(ops), runId);
    ReplayCountsRecords(Exec(ops).audit, runId);
  }

  lemma {:induction false} ExpireAllLeavesComponents(s: Db, ids: seq<nat>, now: Time)
    requires forall id | id in ids :: id in s.tasks
    ensures ExpireAll(s, ids, now).components == s.components
  {
    if ids != [] {
      assert forall id | id in ids[..|ids| - 1] :: id in ids;
      ExpireAllLeavesComponents(s, ids[..|ids| - 1], now);
    }
  }

  /** No step removes a component row, and one that leaves it absent keeps the
      configuration, version and driver it had. */
  lemma UninstallKeepsWhatWasInstalled(s: Db, op: Op, key: (string, string))
    requires Permitted(s, op) && key in s.components
    ensures key in Step(s, op).components
    ensures var before, after := s.components[key], Step(s, op).components[key];
            after.desiredState.Absent? ==>
              && after.config == before.config
              && after.installedVersion == before.installedVersion
              && after.driver == before.driver
  {
    match op
    case ExpireOp(_, now, expired) => ExpireAllLeavesComponents(s, expired, now);
    case DispatchComponentOp(id, now) => DispatchInstalls(s, id, now, key);
    case _ =>
  }

  // ----- What is installed, over whole runs -----

  datatype Installed = Installed(config: map<string, string>, version: string, driver: string)

  function InstalledIn(s: Db, key: (string, string)): Option<Installed> {
    if key in s.components then
      Some(Installed(s.components[key].config, s.components[key].installedVersion, s.components[key].driver))
    else None
  }

  function Requested(d: Details): Installed {
    Installed(if d.config == None then map[] else d.config.value, TextOf(d.version), TextOf(d.driver))
  }

  /** What a step sets out to apply on `key`, if it does. */
  function AppliedBy(s: Db, op: Op, key: (string, string)): Option<Installed> {
    match op
    case ApplyOp(component, nodeId, _, _, config, version, driver, _) =>
      if (nodeId, component) == key then Some(Installed(config, version, driver)) else None
    case DispatchComponentOp(id, _) =>
      if DispatchesOn(s, id, key, "apply") then Some(Requested(s.approvals[id].details)) else None
    case _ => None
  }

  /** What a step that uninstalls on `key` notes when nothing was there before. */
  function UninstalledBy(s: Db, op: Op, key: (string, string)): Option<Installed> {
    match op
    case UninstallOp(component, nodeId, _, version, driver, _) =>
      if (nodeId, component) == key then Some(Installed(map[], version, driver)) else None
    case DispatchComponentOp(id, _) =>
      if DispatchesOn(s, id, key, "uninstall") then Some(Requested(s.approvals[id].details)) else None
    case _ => None
  }

  predicate DispatchesOn(s: Db, id: nat, key: (string, string), action: string) {
    && MayDispatchRun(s, id)
    && var run := s.runs[s.approvals[id].subjectId.id];
       (run.nodeId, run.componentId) == key && run.action == action
  }

  /** The last thing a run applied on `key`; failing that, what its first uninstall noted. */
  ghost function LastApplied(ops: seq<Op>, key: (string, string)): Option<Installed>
    requires ValidRun(ops)
  {
    if ops == [] then None
    else
      var init, op := ops[..|ops| - 1], ops[|ops| - 1];
      var s := Exec(init);
      if AppliedBy(s, op, key).Some? then AppliedBy(s, op, key)
      else if LastApplied(init, key).Some? then LastApplied(init, key)
      else UninstalledBy(s, op, key)
  }

  lemma StepInstalls(s: Db, op: Op, key: (string, string))
    requires Permitted(s, op)
    ensures InstalledIn(Step(s, op), key) ==
            if AppliedBy(s, op, key).Some? then AppliedBy(s, op, key)
            else if InstalledIn(s, key).Some? then InstalledIn(s, key)
            else UninstalledBy(s, op, key)
  {
    match op
    case ExpireOp(_, now, expired) => ExpireAllLeavesComponents(s, expired, now);
    case DispatchComponentOp(id, now) => DispatchInstalls(s, id, now, key);
    case _ =>
  }

  lemma DispatchInstalls(s: Db, id: nat, now: Time, key: (string, string))
    ensures var op := DispatchComponentOp(id, now);
            InstalledIn(DispatchComponent(s, id, now), key) ==
            if AppliedBy(s, op, key).Some? then AppliedBy(s, op, key)
            else if InstalledIn(s, key).Some? then InstalledIn(s, key)
            else UninstalledBy(s, op, key)
  {
    DispatchRunEffect(s, id, now);
    if MayDispatchRun(s, id) {
      var run := s.runs[s.approvals[id].subjectId.id];
      assert ShowsPlanned(s, s.approvals[id], s.approvals[id].subjectId.id, run,
                          DispatchComponent(s, id, now).components[(run.nodeId, run.componentId)]);
    }
  }

  /** Through any number of uninstalls, a row keeps the configuration, version and driver
      of the last apply on its component and node. */
  lemma {:induction false} RowShowsLastApply(ops: seq<Op>, key: (string, string))
    requires ValidRun(ops)
    ensures InstalledIn(Exec(ops), key) == LastApplied(ops, key)
    decreases |ops|
  {
    if ops != [] {
      RowShowsLastApply(ops[..|ops| - 1], key);
      StepInstalls(Exec(ops[..|ops| - 1]), ops[|ops| - 1], key);
    }
  }

  // ----- Dispatching a component action -----

  /** Dispatch records a run exactly when the approval is granted, names the run in every
      column, and the run waits for approval with a dispatchable action. */
  lemma ComponentDispatchExact(s: Db, id: nat, runId: nat, now: Time)
    requires id in s.approvals && s.approvals[id].subjectId == RunId(runId) && runId in s.runs
    requires s.runs[runId].status != StateRecorded
    ensures DispatchComponent(s, id, now).runs[runId].status == StateRecorded <==>
              var a, run := s.approvals[id], s.runs[runId];
              a.status == Approved && AboutRun(a, runId, run) && run.status == PendingApproval && run.action in {"apply", "uninstall"}
  {
    MatchIsAbout(s.approvals[id], runId, s.runs[runId]);
  }

  /** A dispatch that records nothing leaves every table as it was and logs at most one event. */
  lemma RefusedDispatchOnlyLogs(s: Db, id: nat, now: Time)
    requires DispatchComponent(s, id, now).runs == s.runs
    ensures DispatchComponent(s, id, now).(audit := s.audit) == s
    ensures |DispatchComponent(s, id, now).audit| <= |s.audit| + 1 && s.audit <= DispatchComponent(s, id, now).audit
  {
  }
}
