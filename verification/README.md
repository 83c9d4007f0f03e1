# Hermes Managed Network: a verified model of the control plane

Hermes Managed Network (HMN) is a control plane for a small fleet of machines. Nodes join with
a short-lived token; workers on them poll for commands; risky commands and component changes
wait for an approval; everything is written to an audit log in one SQLite file. On top sit a
scheduler that leases work to bridge workers, a discovery of the services a node runs, a sync
with the overlay network, and a web console. This project models that behaviour in Dafny and
proves what its design principles promise (README.md of the repository, lines 275-276): that
the audit log tells every change of tasks, approvals and components, and that no risky task
exists and no risky component action is recorded without its approval. It also proves that work
is handed out once and in order, and that the texts on which the queries depend mean what they
should.

`dafny verify dfyconfig.toml` verifies everything.

| modules | what they cover |
|---|---|
| `ControlPlane`, `Store` | tasks, approvals, component runs and the audit log: the steps of the store as functions on its tables, and the store as an object that takes them |
| `StepEffects` | what each step writes, row by row and column by column |
| `AuditReplay`, `RequestLog`, `ApprovalGate`, `ComponentGate`, `WorkerQueue`, `ComponentState`, `StoredOutput` | what every run of those steps keeps |
| `EntryPoints`, `ConsoleRisk` | command line, web console, HTTP API and Telegram as sequences of store calls |
| `Orchestrator`, `OrchestratorInvariant`, `OrchestratorRuns`, `OrchestratorDrain`, `SchedulerEffects`, `OrchestratorService` | the scheduler: its tick, its invariant, its runs against willing, failing and mixed bridges, what becomes of the tasks of dead workers, and its loops |
| `Text`, `Timestamps`, `TextQueries` | decimal text, ISO timestamps, and SQL comparisons of text columns |
| `Utf8`, `OutputCap`, `Base64Url`, `SessionCookie` | the byte limit on task output, and the session cookie |
| `MergeAlgebra`, `ServiceDiscovery`, `ServiceEffects`, `ServiceStore` | merging parsed services, binding proxy routes, planning and applying, field by field |
| `NetworkSync` | linking nodes to the provider's list |
| `JoinTokens`, `JoinNodes`, `JoinService` | the two token stores, joining, confirming, revoking |
| `DocPaths` | names of generated documents |
| `Basics` | options, and SQL's `ORDER BY` |

How it is built:

- Each store method is one atomic step; runs are arbitrary sequences of steps, so every
  interleaving of the methods is covered. Classes record the steps they take in a ghost history,
  and their invariant says that their tables are what that history makes.
- Row keys are counters or given as fresh; the clock, the drawn keys, the bridge's answer, the
  provider's list, the parsed records and the keyed hash are parameters. Times are microseconds;
  `Timestamps` and `TextQueries` connect them to the columns of text.
- What a method writes is promised twice: as the step that the theorems over runs are about, and
  row by row, by relations that share no function with the code (`StepEffects`,
  `SchedulerEffects`, `ServiceEffects`, and the effects in `NetworkSync`, `JoinTokens` and
  `JoinNodes`).
- The worker mode and task policy of a heartbeat are the texts that the code compares: stripped
  and in lower case.
- Where SQL leaves the order of equal rows open, a step may pick any of them.
- A request's log entry is one dict in which the details overwrite subject, action and risk. What
  it still tells is proved exactly (`RequestLog.ColumnsReadable`); the requests that the front
  ends make are told in full (`EntryPoints.GuardedStoreIsTold`).
- A second proxy route to one target replaces the first one's domain; when a domain survives is
  proved exactly (`ServiceDiscovery.DomainKept`).
- Applying discovered services is idempotent for everything that discovery returns
  (`ServiceStore.DiscoveryIsIdempotent`). `ServiceStore.ApplyThenPlan` gives the exact condition
  for any records; only a direct call of `apply_discovered_services` can fail it.
- `create_approval_request` starts a request as `pending`; the model calls that status
  `Requested`, to keep it apart from a pending task.

## Model

| member | source | states |
|---|---|---|
| AuditReplay.AuditLogIsComplete | src/hermes_managed_network/storage.py:995-1707 | In every state that any interleaving of the store's steps reaches, a strict replay of the audit log rebuilds what it tells of every row, and no row more or less. Tasks: node, command, risk, executor, status, attempts, exit code, failure reason, start, claim, lease and completion. Approvals: subject type, status, decider, the task, the one dict of the request in which the details overwrite subject, action and risk, and once decided the row's own subject and risk. Runs: component, node, action, risk, status, approval. Components: desired state, last run. The log never tells who asked for an approval, who created a task directly, what workers printed, or what a direct apply installed. |
| RequestLog.ColumnsReadable | src/hermes_managed_network/storage.py:995-1001 | The dict of a request tells the row's action, risk and subject, each if and only if the details agree with it: a component request names its action in its details, and no other key contradicts its column. |
| RequestLog.LogTellsRequests | src/hermes_managed_network/storage.py:995-1001 | In every run whose requests agree with their details, the log rebuilds subject type, subject, action, risk, the other details, status and decider of every approval, open or decided. |
| RequestLog.DecisionTellsSubjectAndRisk | src/hermes_managed_network/storage.py:1083-1090 | Whatever the details say, the log rebuilds subject and risk of every decided approval. |
| RequestLog.OverwrittenActionIsLost | src/hermes_managed_network/storage.py:995-1001 | At an input where the details contradict the row: a request to uninstall and one to apply, both with details that say apply, leave equal logs and different rows. |
| ApprovalGate.LoggedDispatchesAreTrue | src/hermes_managed_network/storage.py:1417-1447 | Every logged dispatch names a task that is there, with the node, command, risk, executor and creator that the event tells. |
| AuditReplay.TaskHistory | src/hermes_managed_network/storage.py:1578-1707 | A task has at most one `dispatch` event, equal to its attempt count, and at most one terminal event (`task_result` or `watchdog/expire`); status, exit code, completion time and failure reason are those of that event. |
| AuditReplay.ReplayedHistory | src/hermes_managed_network/storage.py:1578-1707 | The same read off any log that replays without a contradiction, whatever produced it. |
| ApprovalGate.FirstDecisionIsFinal | src/hermes_managed_network/storage.py:1070-1094 | Once decided, an approval keeps status, decider and time of decision through every later step; once dispatched, it keeps its task; a rejected one never gets a task. |
| ApprovalGate.RunKeeps | src/hermes_managed_network/storage.py:1070-1464 | Between any two points of a run: ids stay fresh, no approval changes its terms, no task changes its node, command, risk, executor or creation. |
| ApprovalGate.RunGate | src/hermes_managed_network/storage.py:1306-1464 | Over whole gated runs, links from approvals to tasks are one to one, approved and in agreement with their task in node, command, risk, executor and creator, and every risky task has one. |
| ApprovalGate.RiskyTaskHasOneApproval | src/hermes_managed_network/storage.py:1306-1464 | Every task whose risk is not low or medium is the dispatched task of exactly one approval, which is approved and asked for that node, command and risk, and for that executor and creator wherever it named them. |
| ApprovalGate.RequestReachesTask | src/hermes_managed_network/storage.py:1353-1362 | From any point of a gated run on: the task that is ever dispatched for a request has the node, command and risk that the request named then, its executor or else `worker`, and its creator or else the requester. |
| ApprovalGate.UnapprovedHasNoTask | src/hermes_managed_network/storage.py:1306-1328 | An approval that is open or rejected has no task. |
| ApprovalGate.DispatchedAtMostOnce | src/hermes_managed_network/storage.py:1306-1464 | However often approvals are decided and dispatched, the log holds exactly one successful dispatch for an approval with a task and none for one without. |
| ApprovalGate.RedispatchIsNoop | src/hermes_managed_network/storage.py:1306-1352 | Dispatching a request that has just been dispatched changes neither tables nor log. |
| ComponentGate.RunComponentGate | src/hermes_managed_network/cli.py:292-331 | Over whole gated runs, every recorded high or critical run names an approval; every run that names one, of whatever risk, is recorded, was released by it, and names the one who decided it; every component row shows the effect of a recorded run on that very component and node. |
| ComponentGate.RiskyRunHasItsApproval | src/hermes_managed_network/storage.py:1137-1287 | A recorded run of high or critical risk names an approval that is approved, is for a component, is about that run, agrees with it in action, risk, component and node, names no other run or action, and was decided by the one that the run names as its approver. |
| ComponentGate.ComponentRowIsApproved | src/hermes_managed_network/storage.py:1204-1280 | What a component row shows was done by a recorded run on that component and node; a high or critical one was approved, and whatever approval the run names has released it. |
| WorkerQueue.ClaimTakesFront | src/hermes_managed_network/storage.py:1578-1601 | The oldest pending row is the front of the node's queue; nothing is picked exactly if the queue is empty or the node is not managed. |
| WorkerQueue.StepIsQueueStep | src/hermes_managed_network/storage.py:1353-1618 | Every step of the store enqueues at the back, takes the front or leaves the queue of a node and executor alone; only a claim on a managed node takes. |
| WorkerQueue.ClaimsAreFirstInFirstOut | src/hermes_managed_network/storage.py:1466-1618 | With increasing creation times, the claimed ids of a node and executor are at every moment a prefix of its created ids. |
| ComponentState.StateIsLastRecordedAction | src/hermes_managed_network/storage.py:1137-1304 | A component row exists exactly if an action on it was recorded, and shows the last one: absent after an uninstall, enabled otherwise, under that run's id. |
| ComponentState.RunRecordedOnce | src/hermes_managed_network/storage.py:1137-1304 | A component run is recorded exactly once if its status says so and never otherwise. |
| ComponentState.RowShowsLastApply | src/hermes_managed_network/storage.py:1204-1240 | Through any number of uninstalls a row shows the configuration, version and driver of the last apply on its component and node, or what the first uninstall noted if nothing was ever applied. |
| ComponentState.UninstallKeepsWhatWasInstalled | src/hermes_managed_network/storage.py:1204-1240 | One step at a time: no step removes a component row, and one that leaves it absent keeps configuration, version and driver. |
| ComponentState.ComponentDispatchExact | src/hermes_managed_network/storage.py:1118-1203 | Dispatch records a run if and only if the approval is approved, is for a component, names the run in every column, and the run waits for approval with an apply or uninstall. |
| ComponentState.RefusedDispatchOnlyLogs | src/hermes_managed_network/storage.py:1137-1203 | A dispatch that records nothing changes only the log, by at most one event. |
| StepEffects.BlockReasons | src/hermes_managed_network/storage.py:877-896 | Tasks may be sent to a node if and only if it is managed and no fact of its heartbeat speaks against it; each reason is given in exactly its situation, unknown node, status, beacon mode, heartbeat-only policy and polling in that order. |
| StepEffects.DispatchTaskEffect | src/hermes_managed_network/storage.py:1306-1464 | Column by column: the new task is pending since now, with node, command and risk of the request, its executor or `worker`, its creator or requester and nothing else filled in; the request points at it and nothing else of it changes; the log tells creation and dispatch. Otherwise nothing but the refusal is written, and which refusal is spelled out. |
| StepEffects.DispatchRunEffect | src/hermes_managed_network/storage.py:1137-1304 | Column by column: the run is recorded now, in the name of the approval and of its decider; the component row is planned, under the run, with what was asked for, or with what was installed if the action is an uninstall; the log tells it. Otherwise nothing but the refusal is written. |
| StepEffects.StuckAreSwept | src/hermes_managed_network/storage.py:1620-1660 | Exactly the running worker tasks with a lease end no later than the cutoff have failed, now, for an expired lease, each with its event, by lease end and then by age; every other row and column is as it was. |
| StepEffects.ExpiryEntry | src/hermes_managed_network/storage.py:1642-1659 | Each entry of a sweep names its task, node and lease end. |
| StepEffects.ClaimedIsClaim | src/hermes_managed_network/storage.py:1578-1618 | What a claim promises on its rows leaves no step but the claim step. |
| StepEffects.MatchIsAbout | src/hermes_managed_network/storage.py:1137-1203 | The comparison before a dispatch holds if and only if action and risk, component and node of request and run agree, and the details name no other run and no other action. |
| StoredOutput.ReportsAreHeld | src/hermes_managed_network/storage.py:1669-1707 | Over any run with the output as workers send it: a task was ended by at most one report; then it holds that report's exit code and its output as capped, and else it holds none. |
| StoredOutput.StoredOutputIsTheReport | src/hermes_managed_network/storage.py:1662-1707 | What a task row holds is the best cut of what the one completing step reported, at most 65536 bytes of UTF-8. |
| OutputCap.TaskOutputIsCapped | src/hermes_managed_network/storage.py:1664-1667 | The room the code works out from the marker is 65497 bytes. |
| Store.SQLiteStore.CreateTask | src/hermes_managed_network/storage.py:1466-1494 | One more pending task under the next id, with node, command, risk, creator, executor and time as given and every other column empty, and its `create` event; nothing else changes. |
| Store.SQLiteStore.CreateApprovalRequest | src/hermes_managed_network/storage.py:972-1002 | One more open request with the columns as given, and its event, in which subject, action and risk of the details stand before those of the columns; nothing else changes. |
| Store.SQLiteStore.ResolveApprovalRequest | src/hermes_managed_network/storage.py:1070-1094 | An open request carries decision, decider and time, with its event, and if approved is dispatched at once with the effect of that dispatch; a decided or unknown one leaves every table and the log as they are. |
| Store.SQLiteStore.DispatchApprovedTaskRequest | src/hermes_managed_network/storage.py:1306-1464 | The rows and log entries of `StepEffects.DispatchTaskEffect`: executor and creator are those asked for, each refusal is logged; the result is the request's one task, made now or before. |
| Store.SQLiteStore.DispatchApprovedComponentAction | src/hermes_managed_network/storage.py:1137-1304 | The rows and log entries of `StepEffects.DispatchRunEffect`: the run names approval and approver; it returns the run exactly if the approved request's run is recorded now. |
| Store.SQLiteStore.ClaimNextTask | src/hermes_managed_network/storage.py:1578-1618 | On a managed node the oldest pending task of the executor starts to run: started now unless before, claimed now, leased to the given time, one attempt more, with its event, and nothing else changes. Otherwise nothing changes, and then no such task waits or the node is not managed. |
| Store.SQLiteStore.OldestPending | src/hermes_managed_network/storage.py:1586-1591 | Picks a pending row that no other pending row of the node and executor precedes; none only if there is none. |
| Store.SQLiteStore.ExpireStuckTasks | src/hermes_managed_network/storage.py:1620-1660 | Exactly the worker tasks whose lease is over at the cutoff fail, in query order, with completion time, reason and event; no other row changes; their ids are returned. |
| Store.SQLiteStore.CompleteTask | src/hermes_managed_network/storage.py:1669-1707 | Says whether the task was running; if so it ends now as its exit code says, with exit code, reason, event and the best cut of each output given, and nothing else changes; if not, nothing changes. |
| Store.SQLiteStore.RecordComponentRun | src/hermes_managed_network/storage.py:1835-1889 | One more run with the columns as given, not recorded, named by no approval, and its event; nothing else changes. |
| Store.SQLiteStore.ApplyLowRisk | src/hermes_managed_network/cli.py:4037-4109 | One more recorded run with its event, and the component row enabled with state, configuration, version and driver as given, under that run; nothing else changes. |
| Store.SQLiteStore.UninstallLowRisk | src/hermes_managed_network/cli.py:4210-4262 | One more recorded run with its event, and the component row absent and planned under that run, with configuration, version and driver as they were, or as given if there was no row. |
| EntryPoints.GuardedStoreIsGated | src/hermes_managed_network/cli.py:292-331 | In a store reached through the entry points below, every risky task has its one approval, every recorded risky component run was released by the approval it names and names its decider, and every component row shows a recorded run. |
| EntryPoints.GuardedStoreIsTold | src/hermes_managed_network/storage.py:995-1001 | In such a store the log tells every approval's subject, action and risk, because every front end's requests agree with their details. |
| EntryPoints.ConsoleComponentRun | src/hermes_managed_network/web_console.py:548-557 | The console rates every apply and uninstall high, whatever the component's own risk: one new waiting run and one new open request about it in every column, with requester and configuration as given. Any other action is planned at low risk without a request. Tasks and component rows stay. |
| EntryPoints.CreateTaskCommand | src/hermes_managed_network/cli.py:3287-3328 | Refuses exactly unknown nodes, executors and risks; creates exactly the task given for low and medium risk; otherwise leaves one more open request for that very node, command, risk and executor, made by `hmn`. |
| EntryPoints.CreateConsoleTask | src/hermes_managed_network/web_console.py:372-404 | Refuses exactly where no task may be sent; runs at once exactly what the words of the command make low risk; otherwise leaves one more open high-risk request for that very node, command and executor, made by the user. |
| EntryPoints.OpenRequestReachesTask | src/hermes_managed_network/storage.py:1306-1464 | Whatever task a run ever dispatches for an open request is the one asked for: same node, command, risk and creator, and the executor named, `worker` only where none is. |
| EntryPoints.ApproveCommand | src/hermes_managed_network/cli.py:3593-3640 | Tables and log are those of one resolution and one more dispatch of it, each column by column. It reports a task if and only if the request asks for one, is not rejected, and has one already or names a command and a node that may get tasks; the task is the one asked for; it answers a component request as carried out if and only if it is not rejected and its run is recorded already or waits, can be dispatched and is named in every column; an open request carries decision, decider and time; an unknown id changes nothing. |
| EntryPoints.RejectCommand | src/hermes_managed_network/cli.py:3642-3651 | The whole new state: an open request is rejected with decider and event, nothing else changes; a decided or unknown one changes nothing. |
| EntryPoints.DecideOpenRequest | src/hermes_managed_network/api.py:1524-1559 | Answers not found and already decided exactly when they hold, then without a change; otherwise the request carries decision, decider and time, a rejection changes nothing else, an approval has the effect of one resolution and one more dispatch, a task is reported exactly if the decision approves and a task can be made, and an approved component request is answered as resolved exactly if its run is or can be recorded. The console and Telegram decisions (`web_console.py`, `approval_telegram_flow.py`) take the same path. |
| EntryPoints.ComponentCommand | src/hermes_managed_network/cli.py:4037-4262 | A high or critical component waits: one new waiting run and one open request about it in every column, with what to install; any other is recorded at once, with its run, event and exactly its own row changed: an apply writes what is given, an uninstall keeps what was there. |
| EntryPoints.NextTask | src/hermes_managed_network/api.py:1476-1491 | On a managed node: every running worker task with a lease end no later than now has failed now with `worker_lease_expired`; the oldest task that waited for this node and the worker has started, claimed now and leased for 900 seconds, one attempt more, and none exactly if none waited; no other task has changed; the log grew by one `watchdog/expire` a failed task and one `dispatch`. An unmanaged node gets nothing and changes nothing. |
| EntryPoints.SweptThenClaimed | src/hermes_managed_network/api.py:1489-1490 | A sweep makes no task wait and none stop waiting, so the claim behind it finds the tasks that waited before it. |
| ConsoleRisk.RiskIsReadOffWords | src/hermes_managed_network/web_console.py:20-73 | A command is low risk if and only if its words are one of the listed probes, or begin with `systemctl status` and go on in any way at all; white space does not matter. |
| ConsoleRisk.StatusTakesAnything | src/hermes_managed_network/web_console.py:69-73 | Behind `systemctl status` any further words are low risk, and no further word is high risk. |
| ConsoleRisk.StatusThenReboot | src/hermes_managed_network/web_console.py:69-73 | So the text `systemctl status x; reboot` is low risk. |
| ConsoleRisk.GapsPartWords | src/hermes_managed_network/web_console.py:69-73 | The words of a text are read past any amount of white space in front of, between and behind them. |
| ConsoleRisk.SplitJoin | src/hermes_managed_network/web_console.py:69-73 | Joining words and splitting again gives the words back. |
| OrchestratorInvariant.RunsStayConsistent | src/hermes_managed_network/orchestrator.py:561-723 | For arbitrary bridges, clocks and worker changes: a task is leased iff it has exactly one held assignment, its others having expired; assignments match lease reports, attempts match retry plus pause reports, pauses match pause reports; tasks that are not low risk are untouched. |
| OrchestratorInvariant.PausedIsFinal | src/hermes_managed_network/orchestrator.py:598-683 | No task disappears; title, scope, hint, source, priority, creation and risk stand; attempts never fall; paused tasks and tasks that are not low risk never change again. |
| OrchestratorInvariant.RetriesAreBounded | src/hermes_managed_network/orchestrator.py:623-683 | With one retry limit throughout, a task is paused exactly when its attempts reach the limit, and no task exceeds it. |
| OrchestratorRuns.AcceptedTick | src/hermes_managed_network/orchestrator.py:598-723 | One tick with a willing bridge leases the front of the sorted queue and leaves the rest as the queue. |
| OrchestratorRuns.TicksSortTheQueue | src/hermes_managed_network/orchestrator.py:598-723 | n ticks lease exactly the first n low-risk queued tasks in the order priority descending, creation, id. |
| OrchestratorRuns.NextTickIsIdle | src/hermes_managed_network/orchestrator.py:598-607 | After as many ticks as there were tasks the next one dispatches nothing and changes nothing. |
| OrchestratorRuns.DrainLength | src/hermes_managed_network/orchestrator.py:623-683 | A drain takes as many reports as there are attempts left in the queue. |
| OrchestratorRuns.FailedTick | src/hermes_managed_network/orchestrator.py:623-683 | One failed tick touches only the front: it loses one attempt, and pauses if that was the last. |
| OrchestratorRuns.FailingBridgeReports | src/hermes_managed_network/orchestrator.py:623-683 | Against a bridge that always raises, every prefix of a drain leaves the planned reports: each task fails until it pauses, in queue order, and nothing is leased. |
| OrchestratorRuns.FailingBridgeDrains | src/hermes_managed_network/orchestrator.py:623-683 | After exactly the sum of the attempts left, every queued low-risk task is paused at the limit, and no other task has changed. |
| OrchestratorDrain.AnyBridgeSettlesTheQueue | src/hermes_managed_network/orchestrator.py:598-723 | With a worker online and no lease running out, after as many ticks as the queue has attempts left, or more, no low-risk task is queued, whatever the bridge answered to each tick: each is leased, or paused at the limit, and no other task has changed. |
| SchedulerEffects.TickEffect | src/hermes_managed_network/orchestrator.py:561-723 | Row by row, a tick ends exactly the leases that are over and then tries one task: the highest priority, then oldest, then least id, with the online bridge worker heard of last; the answer says which of the five outcomes it was. |
| SchedulerEffects.OverdueIsTakenBack | src/hermes_managed_network/orchestrator.py:571-596 | If an assignment has held a leased task for longer than the timeout, after the tick all assignments it had have expired, and it waits, unless this tick leased it anew or paused it. |
| SchedulerEffects.RunningLeaseStands | src/hermes_managed_network/orchestrator.py:571-596 | If none has, the tick changes neither the task nor its assignments, and gives it no other. |
| SchedulerEffects.DeadWorkerLosesTask | src/hermes_managed_network/orchestrator.py:571-723 | Whatever happened before: once no assignment has leased a task within the timeout, the next tick takes it back from its worker and queues, dispatches or pauses it. |
| SchedulerEffects.LostTasksAreServed | src/hermes_managed_network/orchestrator.py:571-723 | With a worker online and a bridge that accepts, as many ticks as there are tasks that wait or have lost their worker lease all of those, in the order of priority, age and id. |
| OrchestratorService.OrchestratorService.Enqueue | src/hermes_managed_network/orchestrator.py:126-162 | One more queued task with every column as given, no attempts, created and updated now; nothing else changes. |
| OrchestratorService.OrchestratorService.RegisterWorker | src/hermes_managed_network/orchestrator.py:164-188 | The one worker has transport, status and labels as given, updated now; a known one keeps its registration time; nothing else changes. |
| OrchestratorService.OrchestratorService.UpdateWorker | src/hermes_managed_network/orchestrator.py:190-226 | The one worker has the status given, and transport and labels where given or else as they were, or `bridge` and none for a new one; updated now; nothing else changes. |
| OrchestratorService.OrchestratorService.Tick | src/hermes_managed_network/orchestrator.py:561-723 | Exactly the leases that are over run out, and then one task is tried, as `SchedulerEffects.TickEffect` spells out; the same step and answer as the scheduler's theorems are about. |
| OrchestratorService.OrchestratorService.ExpireLeases | src/hermes_managed_network/orchestrator.py:571-596 | Exactly the leased tasks that some assignment has held for longer than the timeout wait again, with attempts and all else kept, and exactly their assignments have ended; every other task, assignment, worker and report is as it was. The loop over rows read once at the start does it in any row order. |
| OrchestratorService.OrchestratorService.Dispatch | src/hermes_managed_network/orchestrator.py:598-723 | Picks among queued low-risk tasks by priority, age and id and among online bridge workers the one heard of last; leases, notes a failure or pauses at the limit, with assignment and report, and nothing else; idle and workerless exactly if there is none. |
| OrchestratorService.ExpireOneMore | src/hermes_managed_network/orchestrator.py:583-596 | Expiring a task again in the same tick changes nothing. |
| Timestamps.CalendarIsTimeline | src/hermes_managed_network/storage.py:332-337 | Comparing two UTC datetimes field by field is comparing them on the time line; different datetimes are different instants. |
| Timestamps.TextOrderIsTimeOrder | src/hermes_managed_network/storage.py:332-337 | For years 1 to 9999, byte order of `isoformat()` texts is time order, in both directions, with or without a fraction; equal texts are equal times. |
| Timestamps.FractionOrder | src/hermes_managed_network/storage.py:332-337 | A fraction that is left out because it is zero sorts as zero. |
| Timestamps.ParseFormat | src/hermes_managed_network/storage.py:332-337 | Reading back a written time gives the same time. |
| Timestamps.IsoLayout | src/hermes_managed_network/storage.py:332-333 | The text of a time, field by field: padded digits parted by `-`, `T` and `:`, six digits of fraction unless it is zero, and `+00:00`. |
| Timestamps.EpochInstant | src/hermes_managed_network/storage.py:332-333 | The time line puts the start of Unix time 719162 days after the first of January of year 1. |
| Timestamps.AtInstant | src/hermes_managed_network/storage.py:332-337 | Every microsecond of years 1 to 9999 is a datetime and so has a text. |
| TextQueries.ExpiryFilterIsTimeFilter | src/hermes_managed_network/storage.py:1625-1633 | The rows with `lease_expires_at <= ?` as text are the rows whose lease is over in time. |
| TextQueries.ExpiryQueryIsTimeQuery | src/hermes_managed_network/storage.py:1625-1633 | Filtered and sorted as text, the watchdog's rows are those, in an order, that the time-based step permits, and conversely. |
| TextQueries.OldestPendingByText | src/hermes_managed_network/storage.py:1586-1589 | The first pending row by text is a first one by time, and conversely. |
| TextQueries.QueueOrderByText | src/hermes_managed_network/orchestrator.py:598-605 | The tick's ORDER BY on text is the scheduler's order. |
| TextQueries.TokenSweepByText | src/hermes_managed_network/storage.py:2116-2123 | The tokens with `expires_at < ?` as text are the tokens that lapsed in time. |
| Utf8.DecodeEncode | src/hermes_managed_network/storage.py:1662-1667 | Decoding inverts encoding (section 3 of RFC 3629). |
| Utf8.EncodedLength | src/hermes_managed_network/storage.py:1662-1667 | A character takes one to four bytes by its code point, the first byte says how many, and the others are continuation bytes (section 3 of RFC 3629). |
| Utf8.StandardCharacters | src/hermes_managed_network/storage.py:1662-1667 | The example characters of section 7 of RFC 3629 have the bytes given there. |
| Utf8.CutCharVanishes | src/hermes_managed_network/storage.py:1667-1667 | A character cut anywhere inside leaves nothing once malformed bytes are ignored. |
| OutputCap.FitIsLongest | src/hermes_managed_network/storage.py:1662-1667 | A character prefix fits the room if and only if it is no longer than the chosen one. |
| OutputCap.CapIsBestCut | src/hermes_managed_network/storage.py:1662-1667 | For any limit and marker: short text is kept; otherwise the result is the longest prefix that fits beside the marker, then the marker, wasting at most 3 bytes. |
| OutputCap.TaskOutputIsBestCut | src/hermes_managed_network/storage.py:16-17 | The same at 65536 bytes with the shipped marker; output is unchanged exactly if it fits. |
| OutputCap.CapIdempotent | src/hermes_managed_network/storage.py:1673-1674 | Capping twice is capping once. |
| Base64Url.Base64RoundTrip | src/hermes_managed_network/api.py:892-897 | Decoding inverts encoding for every byte string (section 5 of RFC 4648). |
| Base64Url.SymbolTable | src/hermes_managed_network/api.py:891-891 | The 64 symbols are capitals, small letters, digits, dash and underscore, in this order (table 2 of RFC 4648). |
| Base64Url.GroupIsBigEndian | src/hermes_managed_network/api.py:891-891 | Three bytes are read as 24 bits, most significant first, and cut into four symbols of six bits. |
| Base64Url.StandardVectors | src/hermes_managed_network/api.py:891-891 | Test vectors of section 10 of RFC 4648, padding included. |
| SessionCookie.ParsePrinted | src/hermes_managed_network/api.py:888-899 | Printing an integer and reading it back gives the integer, and no colon is printed. |
| SessionCookie.CookieRoundTrip | src/hermes_managed_network/api.py:887-900 | For every user name, colons and non-ASCII text included, and every issue time, the cookie decodes to exactly that name, time and signature. |
| SessionCookie.CookieText | src/hermes_managed_network/api.py:887-892 | The cookie is the base64 text of `user:time:signature`, with the signature over `user:time`. |
| SessionCookie.DecodedIsWritten | src/hermes_managed_network/api.py:895-901 | Whatever a cookie is read as stands in it: user, decimal time and signature, parted by its last two colons. |
| SessionCookie.GrantedExactly | src/hermes_managed_network/api.py:903-915 | The console opens if and only if the cookie reads as user, time and signature, is at most twelve hours old, and bears the signature of its own user and time. |
| SessionCookie.CookiesDiffer | src/hermes_managed_network/api.py:887-891 | No two sessions share a cookie: it determines user name and issue time. |
| SessionCookie.CookieLifetime | src/hermes_managed_network/api.py:903-915 | A cookie opens the console if and only if twelve hours have not passed since it was issued. |
| SessionCookie.PayloadInjective | src/hermes_managed_network/api.py:888-888 | The signed text determines user and time. |
| SessionCookie.GrantedIsSigned | src/hermes_managed_network/api.py:903-915 | Unless the hash collides on the two payloads, a cookie let in with the signature of a user and time shows that user and time. |
| MergeAlgebra.MergeInts | src/hermes_managed_network/service_discovery.py:21-22 | The sorted union of two port lists. |
| MergeAlgebra.MergeIntsLaws | src/hermes_managed_network/service_discovery.py:21-22 | Merging ports is commutative and absorbs a repeated merge; a list merged with itself is unchanged exactly if it is strictly increasing. |
| MergeAlgebra.MergeStringsNames | src/hermes_managed_network/service_discovery.py:25-33 | A merged list names exactly the stripped, non-empty names of both sides, once each. |
| MergeAlgebra.MergeStringsLaws | src/hermes_managed_network/service_discovery.py:25-33 | A clean list stays in order at the front of the merge; merging the same names again adds nothing. |
| MergeAlgebra.MergeMetadataLaws | src/hermes_managed_network/service_discovery.py:36-57 | merge(merge(a, b), b) = merge(a, b) and merge(a, a) = a; existing values and existing nested values stand. |
| MergeAlgebra.MergeUniqueStrings | src/hermes_managed_network/service_discovery.py:25-33 | The loop with its `seen` set computes the merge, whose names stand at their first mention (`ServiceEffects.MergedNames`). |
| MergeAlgebra.MergeListenPorts | src/hermes_managed_network/service_discovery.py:39-48 | The marker loop appends exactly the sockets not known yet. |
| MergeAlgebra.MergeEntries | src/hermes_managed_network/service_discovery.py:36-57 | The loop over the incoming entries computes the metadata merge, in any key order. |
| ServiceEffects.StripIsCore | src/hermes_managed_network/service_discovery.py:29-29 | Stripping leaves the text without the white space at its ends. |
| ServiceEffects.MergedNames | src/hermes_managed_network/service_discovery.py:25-33 | A merged list is the stripped non-empty names of both lists, each once, in the order of first mention. |
| ServiceEffects.SocketsMerged | src/hermes_managed_network/service_discovery.py:39-48 | The sockets known stay in front; behind them come exactly the others of the incoming list, in its order, one for each address, port and process. |
| ServiceEffects.MergedEntries | src/hermes_managed_network/service_discovery.py:36-57 | Every entry of the merge: the existing one, else the incoming one; two objects merge entry by entry, existing first, and two socket lists as above. |
| ServiceDiscovery.AggregationIsExact | src/hermes_managed_network/service_discovery.py:71-86 | A service is listed iff some parsed record names it, and its ports are the strictly increasing union of the ports of all its records. |
| ServiceDiscovery.FirstRecordNamesIt | src/hermes_managed_network/service_discovery.py:71-86 | Name, node, kind, runtime, source and status are those of the first record. |
| ServiceEffects.CombinedRecords | src/hermes_managed_network/service_discovery.py:71-86 | Two records of one service, field by field: lists and ports united, the first deploy path and health check that says something, metadata merged, all else from the first. |
| ServiceEffects.AggregateSaysFirst | src/hermes_managed_network/service_discovery.py:71-86 | Over all parsed records: deploy path and health check of a service are those of the first record of it that has one. |
| ServiceEffects.AggregateNames | src/hermes_managed_network/service_discovery.py:71-86 | A listed service names exactly the domains and the config, env and data paths that some record of it names. |
| ServiceEffects.OwnerIsFirst | src/hermes_managed_network/service_discovery.py:313-318 | The owner of a port is the first record in insertion order that has it. |
| ServiceEffects.BoundRecord | src/hermes_managed_network/service_discovery.py:321-337 | A bound record, field by field: the domain added, the health check kept or else the target's, the three metadata objects merged in, all else as it was. |
| ServiceDiscovery.PortIndex | src/hermes_managed_network/service_discovery.py:313-318 | The index maps a port to the first record, in insertion order, that has it. |
| ServiceDiscovery.LastRouteWins | src/hermes_managed_network/service_discovery.py:321-361 | After enrichment a record is its original bound to the last route that reaches it, or unchanged if none does. |
| ServiceDiscovery.EnrichmentKeepsPorts | src/hermes_managed_network/service_discovery.py:321-361 | Enrichment changes neither the set of services nor any port. |
| ServiceDiscovery.DomainKept | src/hermes_managed_network/service_discovery.py:330-345 | A route's domain survives if and only if the target had it before or the last route to that target carries it. |
| ServiceDiscovery.SecondDomainReplacesFirst | src/hermes_managed_network/service_discovery.py:330-345 | A concrete family where it does not survive: two routes to one port. |
| ServiceDiscovery.BindRoutes | src/hermes_managed_network/service_discovery.py:339-361 | The loop over the routes computes the enrichment. |
| ServiceDiscovery.Discover | src/hermes_managed_network/service_discovery.py:364-384 | The result lists ids in strictly increasing order, exactly the parsed ones, each with strictly increasing ports equal to the union of those reported. |
| ServiceStore.SecondPlan | src/hermes_managed_network/service_discovery.py:400-432 | Planning against the saved record again moves nothing but ports, and moves them exactly if the record was new and its ports were not a sorted set. |
| ServiceStore.ApplyThenPlan | src/hermes_managed_network/service_discovery.py:387-464 | For distinct ids: after an apply a record plans as unchanged with an empty diff if and only if it was stored before or its ports are strictly increasing. |
| ServiceStore.UnsortedPortsMoveOnce | src/hermes_managed_network/service_discovery.py:387-464 | The other case at an input: a new record with ports 443 and 80 is planned next as an update that sorts them. |
| ServiceStore.ApplyTwice | src/hermes_managed_network/service_discovery.py:445-464 | Where all plan as unchanged, a second apply leaves every record as it is. |
| ServiceStore.DiscoveryIsIdempotent | src/hermes_managed_network/service_discovery.py:364-464 | Whatever discovery returns plans as unchanged once it has been applied. |
| ServiceStore.NoDiffMeansEqual | src/hermes_managed_network/service_discovery.py:491-499 | A diff is empty if and only if all 17 snapshot fields agree. |
| ServiceStore.PlanKeepsFields | src/hermes_managed_network/service_discovery.py:400-428 | Field by field: of a stored service each of the 14 preferred fields that says something stands and the others are as found, ports are united, metadata merged and the source noted; a new record carries its own fields, with the given node where it names none, and the given source. |
| ServiceStore.ChangeIsTold | src/hermes_managed_network/service_discovery.py:419-441 | The change is `create`, `update` or `unchanged` exactly if the service is new, differs or does not; both snapshots show all 17 fields, and the diff holds exactly the fields that differ, with both values. |
| ServiceStore.AppliedRows | src/hermes_managed_network/service_discovery.py:445-454 | After an apply of distinct records, each has the row of its plan, with the asset fields it lacked and the old creation time, and the rows of all other services are untouched. |
| ServiceStore.PlanIsLogged | src/hermes_managed_network/service_discovery.py:455-471 | The log entry of an apply tells id, kind and diff of each planned change. |
| ServiceStore.SavedRows | src/hermes_managed_network/storage.py:628-691 | Saving a list with distinct ids gives each its row and changes no other. |
| ServiceStore.ServiceStore.SaveServiceRecord | src/hermes_managed_network/storage.py:628-691 | The one row shows the record with the asset fields that it lacked, its asset, the creation time of the row before or now, updated now; no other row changes. |
| ServiceStore.ServiceStore.PlanDiscoveredServices | src/hermes_managed_network/service_discovery.py:387-442 | Every record is planned against the table, field by field, the stored value before the found one, and every change is told with snapshots and diff; the table stays. |
| ServiceStore.ServiceStore.ApplyDiscoveredServices | src/hermes_managed_network/service_discovery.py:445-472 | Every plan is saved, field by field with the stored value before the found one, and returned as saved; other rows stay; one event names node, source and services and tells every change with its diff. |
| NetworkSync.MatchingIsGreedy | src/hermes_managed_network/cli.py:1233-1245 | No node is linked twice, every link fits, and every node that fits an unmatched record was taken by an earlier one. |
| NetworkSync.PickIsFirst | src/hermes_managed_network/cli.py:1234-1237 | If a free node fits, the record gets one listed no later. |
| NetworkSync.EveryRecordCounted | src/hermes_managed_network/cli.py:1238-1244 | Linked plus unmatched is the number of provider records. |
| NetworkSync.WrittenExactly | src/hermes_managed_network/cli.py:1246-1263 | Linked nodes change in their network fields only, to their record's values; the others do not change. |
| NetworkSync.UpdatedCountsChanges | src/hermes_managed_network/cli.py:1246-1263 | The `updated` counter is the number of nodes whose row has changed. |
| NetworkSync.SecondSyncIsIdle | src/hermes_managed_network/cli.py:1224-1273 | A second sync with the same records makes the same links, writes nothing and counts no update. |
| NetworkSync.SyncEffect | src/hermes_managed_network/cli.py:1224-1273 | Row by row: each record in order gets the first node that it is about and no earlier record has; a linked node shows provider, id, address, tags and presence of its record and keeps all else, the others keep everything; the unmatched are listed in order by host name or id, and both counters are exact. |
| NetworkSync.RecordIsServed | src/hermes_managed_network/cli.py:1233-1245 | A record is left without a node exactly if none is available, and else has the first available one. |
| NetworkSync.SyncStore.SyncNetworkNodes | src/hermes_managed_network/cli.py:1224-1273 | The loop with its counters and its set of matched ids has the rows, totals and names of `NetworkSync.SyncEffect`, and logs them. |
| NetworkSync.SyncStore.SyncRecord | src/hermes_managed_network/cli.py:1233-1263 | One turn of the loop links the first free node that fits, and saves it only if its link changed. |
| NetworkSync.SyncStore.FindTarget | src/hermes_managed_network/cli.py:1234-1237 | The search stops at the first free node that fits. |
| JoinTokens.ConsumeAgrees | src/hermes_managed_network/storage.py:2096-2124 | Over any run with a clock that does not run backwards, every `consume` has the same result in the lazy in-memory store and in the swept SQLite table. |
| JoinTokens.RunsLookAlike | src/hermes_managed_network/tokens.py:54-68 | From the last clock reading on, the two stores look the same to every reader. |
| JoinTokens.ConsumedOnceInTime | src/hermes_managed_network/storage.py:2096-2111 | A token is consumed at most once, never after it expires, and names its node for good. |
| JoinTokens.RevokedIsNeverConsumed | src/hermes_managed_network/cli.py:1556-1566 | A revoked token is never consumed. |
| JoinTokens.LazyEffect | src/hermes_managed_network/tokens.py:33-68 | Column by column, what each call does to the in-memory store: a token runs out the given time after now; a pending one that has run out shows as expired; consuming takes exactly a pending one in time, and notes node and time. |
| JoinTokens.SavedEffect | src/hermes_managed_network/storage.py:2096-2127 | The same of the table, where only consume and sweep expire tokens. |
| JoinTokens.JoinTokenStore.Create | src/hermes_managed_network/tokens.py:33-52 | Adds a pending token with the labels given that runs out the given time after now, for the levels A, B and C, and nothing for any other. |
| JoinTokens.JoinTokenStore.Get | src/hermes_managed_network/tokens.py:54-58 | Returns the stored object, expired in place exactly if it is pending and its time is over. |
| JoinTokens.JoinTokenStore.Consume | src/hermes_managed_network/tokens.py:60-68 | Marks a pending token in time as used, now and by this node, in place; a lapsed one expires; else nothing changes and nothing is returned. |
| JoinTokens.TokenTable.ConsumeToken | src/hermes_managed_network/storage.py:2096-2111 | The read-then-write sequence takes exactly a pending token in time, notes node and time, and expires one that has run out; nothing else changes. |
| JoinTokens.TokenTable.ExpirePendingTokens | src/hermes_managed_network/storage.py:2113-2127 | The loop expires exactly the pending tokens with an end before now and returns them, newest first. |
| JoinTokens.TokenTable.RevokeToken | src/hermes_managed_network/cli.py:1556-1566 | A known token is revoked, whatever its status; nothing else of it and no other token changes. |
| JoinNodes.JoinedNodesStayApart | src/hermes_managed_network/api.py:329-338 | Nodes that are not revoked have distinct fingerprints, and none with the same host name share a non-empty address. |
| JoinNodes.DuplicateJoinChangesNothing | src/hermes_managed_network/api.py:1385-1387 | With a known token, a join is refused as duplicate if and only if a live node clashes, and then token and tables stay as they were. |
| JoinNodes.TokensAdmitOneNodeEach | src/hermes_managed_network/api.py:1380-1404 | Consumed tokens and nodes correspond one to one, with the same fingerprint, trust level and labels. |
| JoinNodes.RevokedIsFinal | src/hermes_managed_network/inventory.py:56-69 | A revoked node never changes again; a managed one never waits again; fingerprint, host name, addresses, trust level and labels never change. |
| JoinNodes.AuditKnowsNodes | src/hermes_managed_network/api.py:1409-1423 | Replaying the node events gives every node's fields but its fingerprint. |
| JoinNodes.JoinEffect | src/hermes_managed_network/api.py:1380-1429 | Column by column: unknown token, clash, token that no longer counts (expired in place if it has run out), or a token that is spent on one new node with the fingerprint, host name and addresses of the request, trust level and labels of the token, managed with `observe` and `task` exactly if confirmed automatically, and its event. |
| JoinService.JoinService.Join | src/hermes_managed_network/api.py:1380-1429 | The endpoint has tables, log and answer of `JoinNodes.JoinEffect`, with a duplicate that clashes and that no other clashing node precedes. |
| JoinService.JoinService.FindDuplicateJoinNode | src/hermes_managed_network/api.py:329-338 | The search returns a clashing node that no other clashing one precedes by host name, and nothing only if none clashes. |
| JoinService.JoinService.ConfirmNode | src/hermes_managed_network/cli.py:2308-2324 | Exactly a known node that is not revoked becomes managed with these permissions, with its event; nothing else changes. |
| JoinService.JoinService.RevokeNode | src/hermes_managed_network/cli.py:3257-3272 | Exactly a known node becomes revoked, with its event; nothing else changes. |
| JoinService.NodeRegistry.Confirm | src/hermes_managed_network/inventory.py:56-62 | Changes status and bundles of the one node, unless it is unknown or revoked. |
| JoinService.NodeRegistry.Revoke | src/hermes_managed_network/inventory.py:64-69 | Changes the status of the one node. |
| DocPaths.SegmentIsClean | src/hermes_managed_network/docs_sync.py:675-686 | Every name becomes a non-empty segment of `[A-Za-z0-9._-]` without `..` or `--` and with a letter or digit at both ends. |
| DocPaths.FixedExactlyIfClean | src/hermes_managed_network/docs_sync.py:675-686 | The names left alone are exactly those segments. |
| DocPaths.SegmentIdempotent | src/hermes_managed_network/docs_sync.py:675-686 | Rewriting twice is rewriting once. |
| DocPaths.LettersKept | src/hermes_managed_network/docs_sync.py:675-686 | No ASCII letter or digit is lost or moved; only a name without any falls back to the default. |
| DocPaths.SeparatorsCollide | src/hermes_managed_network/docs_sync.py:675-686 | Names that differ in a slash, a backslash or a dash at one place share their document. |
| DocPaths.DistinctSegments | src/hermes_managed_network/docs_sync.py:675-686 | Names with different letters and digits, and different clean names, never share one. |
| DocPaths.PiecesAreDashed | src/hermes_managed_network/docs_sync.py:675-686 | A name of clean pieces parted by any runs of slashes, dashes and characters that may not stay becomes those pieces with one dash between them. |
| DocPaths.DotsPart | src/hermes_managed_network/docs_sync.py:675-686 | Two dots between pieces become one dash. |
| DocPaths.NamelessFallsBack | src/hermes_managed_network/docs_sync.py:675-686 | A name without a letter or digit becomes `service` or `host`. |
| DocPaths.DocPathsAreOneBelow | src/hermes_managed_network/docs_sync.py:667-672 | Server and service documents lie exactly one segment below their root, in `README.md`. |

## Left out

- WorkerQueue.ClaimsAreFirstInFirstOut: assumes increasing creation times, because SQL leaves the order of equal `created_at` values open.
- RetriesAreBounded: assumes one retry limit for the whole run, because `max_retries` is an argument of each tick.
- ParseFormat: `ParseIso` reads only the two shapes that `isoformat` writes for UTC; other shapes that Python accepts are not modelled.
- SessionCookie.ParsePrinted: `ParseInt` takes an optional sign and ASCII digits, not the spaces, underscores and other digits that Python's `int` also takes.
- DecodeEncode: malformed bytes are dropped one at a time; that this equals Python's grouping of malformed bytes is used only for a cut at the end of well-formed text.
- MergeMetadataLaws: a stored `listen_ports` has to be a list, and JSON numbers are integers; on other values the code raises or converts.
- SecondSyncIsIdle: both syncs list the nodes in the same order; SQL leaves the order of equal host names open.
- ConsumeAgrees: a store call reads the clock once; the in-memory `consume` reads it twice.
- JoinNodes.JoinedNodesStayApart: the endpoint counts as one step; it is several transactions in the code.
- RevokedIsFinal: fingerprint rotation, which may break uniqueness, and node writes outside join, confirm and revoke.
- EntryPoints.ComponentCommand: the monitor verification path, and the two transactions of a direct apply or uninstall, which count as one step.
- EntryPoints.NextTask: worker fingerprints, protocol versions and signatures.
- EntryPoints.CreateTaskCommand: choosing a node by prompt, and waiting for the result.
- EntryPoints.DecideOpenRequest: network ACL dispatch and Telegram messages; the console answers a refused component dispatch like a successful one, where the others report it.
- Approvals of other kinds (network tags and ACLs, backups, deploys): requests and decisions are modelled, their effects outside the store are not.
- SQLite itself: transactions, rollback, JSON columns and migrations; tables are maps and the log is a sequence.
- Nothing is claimed below method granularity for `resolve_approval_request` and `consume_token`, which read and then write without a lock.
- `run_ssh_task` and direct `save_task` writes, which do not follow the worker protocol: a terminal status is not final there.
- The orchestrator's summaries, audit events, snapshot, worktrees and branch backlog; a lease time that is no datetime.
- Parsers of command output and of proxy configuration: models start from parsed records and routes.
- Scoring of service assets: any function from records to scores.
- HMAC, random keys, password hashing, HTTP, HTML, prompts, Telegram, Headscale, Coolify and monitoring clients.
- Backup, restore, migration, onboarding and deploy plans, which only assemble fixed records.
