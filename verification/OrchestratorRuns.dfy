// What whole runs of ticks do to a queue: with a willing bridge they lease it in sorted
// order, and with a failing one they pause it, task by task, in a number of ticks that
// can be read off the table beforehand.
module OrchestratorRuns {
  import opened Basics
  import opened Orchestrator

  /** `q` is the queued low-risk tasks by priority, then age, then id. */
  ghost predicate IsQueue(s: State, q: seq<Id>) {
    OrderedListing(q, ReadyIds(s.tasks), QueueOrder(s.tasks))
  }

  /** The final state and the results of ticks at the given times. */
  ghost function Ticks(s: State, nows: seq<Time>, bridge: Bridge, maxRetries: int, timeoutSeconds: int): (r: (State, seq<TickResult>))
    ensures |r.1| == |nows|
    decreases |nows|
  {
    if nows == [] then (s, [])
    else
      var (mid, result) := Tick(s, nows[0], bridge, maxRetries, timeoutSeconds);
      var (last, results) := Ticks(mid, nows[1..], bridge, maxRetries, timeoutSeconds);
      (last, [result] + results)
  }

  // ----- One tick on a known queue -----

  /** No lease is over at `now`. */
  ghost predicate LeasesFresh(s: State, now: Time, timeoutSeconds: int) {
    forall i | 0 <= i < |s.assignments| ::
      s.assignments[i].status.Held? ==> now - s.assignments[i].leasedAt <= timeoutSeconds * 1_000_000
  }

  lemma SweepIsIdle(s: State, now: Time, timeoutSeconds: int)
    requires Lapsed(s, now, timeoutSeconds) == {}
    ensures ExpireTasks(s, Lapsed(s, now, timeoutSeconds), now) == s
  {
    assert ExpireTasks(s, {}, now).tasks == s.tasks;
    assert ExpireTasks(s, {}, now).assignments == s.assignments;
  }

  lemma FrontIsNext(s: State, q: seq<Id>)
    requires IsQueue(s, q)
    ensures NextReady(s) == if q == [] then None else Some(q[0])
  {
    assert q != [] ==> q[0] in q;
    if NextReady(s).Some? {
      var x := NextReady(s).value;
      assert x in q;
      var i :| 0 <= i < |q| && q[i] == x;
      assert QueueOrder(s.tasks)(q[0], q[0]);
      assert QueueOrder(s.tasks)(q[0], q[i]) && QueueOrder(s.tasks)(x, q[0]);
    }
  }

  /** Taking the front out of the queue leaves the rest in order. */
  lemma RestIsQueue(s: State, s': State, q: seq<Id>)
    requires IsQueue(s, q) && q != [] && q[0] in s.tasks
    requires s'.tasks.Keys == s.tasks.Keys && !Ready(s'.tasks[q[0]])
    requires forall id | id in s.tasks && id != q[0] :: s'.tasks[id] == s.tasks[id]
    ensures IsQueue(s', q[1..])
  {
    TailListing(q, ReadyIds(s.tasks), QueueOrder(s.tasks));
    assert ReadyIds(s'.tasks) == ReadyIds(s.tasks) - {q[0]};
    var rest := q[1..];
    forall i, j | 0 <= i < j < |rest| ensures QueueOrder(s'.tasks)(rest[i], rest[j]) {
      assert rest[i] in rest && rest[j] in rest;
      assert QueueOrder(s.tasks)(rest[i], rest[j]);
    }
  }

  // ----- A willing bridge -----

  lemma AcceptedTick(s: State, q: seq<Id>, now: Time, maxRetries: int, timeoutSeconds: int)
    requires IsQueue(s, q) && q != [] && OnlineIds(s.workers) != {} && LeasesFresh(s, now, timeoutSeconds)
    ensures var (s', result) := Tick(s, now, Accepts, maxRetries, timeoutSeconds);
            && q[0] in s.tasks
            && result.LeasedTo? && result.taskId == q[0]
            && s' == LeaseTask(s, q[0], result.workerId, now)
            && IsQueue(s', q[1..])
  {
    SweepIsIdle(s, now, timeoutSeconds);
    FrontIsNext(s, q);
    assert q[0] in q;
    RestIsQueue(s, Tick(s, now, Accepts, maxRetries, timeoutSeconds).0, q);
  }

  /** `results` lease the first |results| tasks of `q`, in that order, and nothing else changes. */
  ghost predicate LeasedInOrder(s: State, q: seq<Id>, s': State, results: seq<TickResult>) {
    && |results| <= |q|
    && (forall i | 0 <= i < |results| :: results[i].LeasedTo? && results[i].taskId == q[i])
    && s'.tasks.Keys == s.tasks.Keys
    && (forall i | 0 <= i < |results| :: q[i] in s'.tasks && s'.tasks[q[i]].status.Leased?)
    && (forall id | id in s.tasks && id !in q[..|results|] :: s'.tasks[id] == s.tasks[id])
    && IsQueue(s', q[|results|..])
  }

  lemma LeaseThenRest(s: State, q: seq<Id>, now: Time, result: TickResult, s': State, rest: seq<TickResult>)
    requires IsQueue(s, q) && q != [] && q[0] in s.tasks && result.LeasedTo? && result.taskId == q[0]
    requires LeasedInOrder(LeaseTask(s, q[0], result.workerId, now), q[1..], s', rest)
    ensures LeasedInOrder(s, q, s', [result] + rest)
  {
    var mid := LeaseTask(s, q[0], result.workerId, now);
    SplitBehindFront(q, |rest| + 1);
    assert forall id | id in s.tasks && id != q[0] :: mid.tasks[id] == s.tasks[id];
    assert q[0] in mid.tasks && mid.tasks[q[0]].status.Leased? && s'.tasks[q[0]] == mid.tasks[q[0]];
    var results := [result] + rest;
    forall i | 0 <= i < |results|
      ensures results[i].LeasedTo? && results[i].taskId == q[i] && q[i] in s'.tasks && s'.tasks[q[i]].status.Leased?
    {
      if i > 0 { assert results[i] == rest[i - 1] && q[1..][i - 1] == q[i]; }
    }
  }

  lemma SplitBehindFront(q: seq<Id>, n: nat)
    requires 1 <= n && q != []
    requires forall i, j | 0 <= i < j < |q| :: q[i] != q[j]
    ensures n <= |q| ==> q[1..][n - 1..] == q[n..] && q[..n] == [q[0]] + q[1..][..n - 1] && q[0] !in q[1..][..n - 1]
  {
    assert forall i | 0 < i < |q| :: q[1..][i - 1] == q[i] != q[0];
  }

  /** With an online bridge worker, a bridge that accepts and no lease running out before
      `horizon`, n ticks lease exactly the first n of the queue, in the queue's order. */
  lemma {:induction false} TicksSortTheQueue(s: State, q: seq<Id>, nows: seq<Time>, maxRetries: int, timeoutSeconds: int, horizon: Time)
    requires IsQueue(s, q) && |nows| <= |q| && OnlineIds(s.workers) != {}
    requires LeasesFresh(s, horizon, timeoutSeconds)
    requires forall i | 0 <= i < |nows| :: nows[i] <= horizon && horizon - nows[i] <= timeoutSeconds * 1_000_000
    ensures var (s', results) := Ticks(s, nows, Accepts, maxRetries, timeoutSeconds);
            LeasedInOrder(s, q, s', results) && LeasesFresh(s', horizon, timeoutSeconds)
    decreases |nows|
  {
    if nows != [] {
      AcceptedTick(s, q, nows[0], maxRetries, timeoutSeconds);
      var (mid, result) := Tick(s, nows[0], Accepts, maxRetries, timeoutSeconds);
      TicksSortTheQueue(mid, q[1..], nows[1..], maxRetries, timeoutSeconds, horizon);
      var (last, rest) := Ticks(mid, nows[1..], Accepts, maxRetries, timeoutSeconds);
      LeaseThenRest(s, q, nows[0], result, last, rest);
    }
  }

  /** When as many ticks have run as there were tasks, the next one finds nothing to do. */
  lemma NextTickIsIdle(s: State, q: seq<Id>, nows: seq<Time>, maxRetries: int, timeoutSeconds: int, horizon: Time)
    requires IsQueue(s, q) && |nows| == |q| && OnlineIds(s.workers) != {}
    requires LeasesFresh(s, horizon, timeoutSeconds)
    requires forall i | 0 <= i < |nows| :: nows[i] <= horizon && horizon - nows[i] <= timeoutSeconds * 1_000_000
    ensures var s' := Ticks(s, nows, Accepts, maxRetries, timeoutSeconds).0;
            Tick(s', horizon, Accepts, maxRetries, timeoutSeconds) == (s', Idle)
  {
    TicksSortTheQueue(s, q, nows, maxRetries, timeoutSeconds, horizon);
    var s' := Ticks(s, nows, Accepts, maxRetries, timeoutSeconds).0;
    SweepIsIdle(s', horizon, timeoutSeconds);
    FrontIsNext(s', q[|nows|..]);
  }

  // ----- A failing bridge -----

  /** What is reported about a task that fails until its n-th and last allowed attempt. */
  function Failures(id: Id, n: nat): (r: seq<(Id, ReportStatus)>)
    ensures |r| == n
  {
    if n == 0 then [] else if n == 1 then [(id, PauseReport)] else [(id, RetryReport)] + Failures(id, n - 1)
  }

  function AttemptsLeft(tasks: map<Id, OrchTask>, id: Id, maxRetries: nat): nat {
    if id in tasks && tasks[id].attempts < maxRetries then maxRetries - tasks[id].attempts else 0
  }

  /** The reports a drain of `q` leaves: each task fails until it pauses, one after the other. */
  function DrainReports(tasks: map<Id, OrchTask>, q: seq<Id>, maxRetries: nat): seq<(Id, ReportStatus)> {
    if q == [] then []
    else Failures(q[0], AttemptsLeft(tasks, q[0], maxRetries)) + DrainReports(tasks, q[1..], maxRetries)
  }

  function TotalAttemptsLeft(tasks: map<Id, OrchTask>, q: seq<Id>, maxRetries: nat): nat {
    if q == [] then 0 else AttemptsLeft(tasks, q[0], maxRetries) + TotalAttemptsLeft(tasks, q[1..], maxRetries)
  }

  lemma {:induction false} DrainLength(tasks: map<Id, OrchTask>, q: seq<Id>, maxRetries: nat)
    ensures |DrainReports(tasks, q, maxRetries)| == TotalAttemptsLeft(tasks, q, maxRetries)
  {
    if q != [] {
      DrainLength(tasks, q[1..], maxRetries);
    }
  }

  lemma {:induction false} DrainFrame(tasks: map<Id, OrchTask>, tasks': map<Id, OrchTask>, q: seq<Id>, maxRetries: nat)
    requires forall id | id in q :: id in tasks && id in tasks' && tasks'[id].attempts == tasks[id].attempts
    ensures DrainReports(tasks', q, maxRetries) == DrainReports(tasks, q, maxRetries)
  {
    if q != [] {
      assert q[0] in q && forall id | id in q[1..] :: id in q;
      DrainFrame(tasks, tasks', q[1..], maxRetries);
    }
  }

  ghost predicate NothingLeased(s: State) {
    forall id | id in s.tasks :: !s.tasks[id].status.Leased?
  }

  ghost predicate Drainable(s: State, q: seq<Id>, maxRetries: nat) {
    && IsQueue(s, q) && NothingLeased(s) && OnlineIds(s.workers) != {}
    && forall id | id in q :: id in s.tasks && s.tasks[id].attempts < maxRetries
  }

  /** What one failure of the front does to the queue and to the rest of the drain. */
  ghost predicate FrontFailed(s: State, q: seq<Id>, s': State, q': seq<Id>, maxRetries: nat)
    requires q != []
  {
    && q[0] in s.tasks
    && q' == (if s.tasks[q[0]].attempts + 1 >= maxRetries then q[1..] else q)
    && Drainable(s', q', maxRetries)
    && |s'.reports| == |s.reports| + 1
    && DrainReports(s.tasks, q, maxRetries) ==
       [(q[0], s'.reports[|s.reports|].status)] + DrainReports(s'.tasks, q', maxRetries)
  }

  lemma FrontPauses(s: State, q: seq<Id>, now: Time, maxRetries: nat)
    requires Drainable(s, q, maxRetries) && q != [] && q[0] in s.tasks && s.tasks[q[0]].attempts + 1 >= maxRetries
    ensures FrontFailed(s, q, FailTask(s, q[0], maxRetries, now), q[1..], maxRetries)
  {
    assert q[0] in q;
    var s' := FailTask(s, q[0], maxRetries, now);
    assert forall id | id in q[1..] :: id in q && id != q[0];
    DrainFrame(s.tasks, s'.tasks, q[1..], maxRetries);
    RestIsQueue(s, s', q);
  }

  /** A queue whose tasks keep status, risk, priority and creation time stays the queue. */
  lemma SameQueue(s: State, s': State, q: seq<Id>)
    requires IsQueue(s, q) && s'.tasks.Keys == s.tasks.Keys
    requires forall id | id in s.tasks ::
               var t, t' := s.tasks[id], s'.tasks[id];
               t'.status == t.status && t'.risk == t.risk && t'.priority == t.priority && t'.createdAt == t.createdAt
    ensures IsQueue(s', q)
  {
    assert ReadyIds(s'.tasks) == ReadyIds(s.tasks);
    forall i, j | 0 <= i < j < |q| ensures QueueOrder(s'.tasks)(q[i], q[j]) {
      assert q[i] in q && q[j] in q && QueueOrder(s.tasks)(q[i], q[j]);
    }
  }

  lemma OneFailureLess(tasks: map<Id, OrchTask>, tasks': map<Id, OrchTask>, q: seq<Id>, maxRetries: nat)
    requires q != [] && q[0] in tasks && q[0] in tasks' && tasks[q[0]].attempts + 1 < maxRetries
    requires tasks'[q[0]].attempts == tasks[q[0]].attempts + 1
    requires forall id | id in q[1..] :: id in tasks && id in tasks' && tasks'[id].attempts == tasks[id].attempts
    ensures DrainReports(tasks, q, maxRetries) == [(q[0], RetryReport)] + DrainReports(tasks', q, maxRetries)
  {
    DrainFrame(tasks, tasks', q[1..], maxRetries);
    var left := AttemptsLeft(tasks, q[0], maxRetries);
    var rest := DrainReports(tasks, q[1..], maxRetries);
    FailuresStep(q[0], left);
    assert DrainReports(tasks, q, maxRetries) == Failures(q[0], left) + rest;
    assert DrainReports(tasks', q, maxRetries) == Failures(q[0], left - 1) + rest;
    assert ([(q[0], RetryReport)] + Failures(q[0], left - 1)) + rest == [(q[0], RetryReport)] + (Failures(q[0], left - 1) + rest);
  }

  lemma FailuresStep(id: Id, n: nat)
    requires n >= 2
    ensures Failures(id, n) == [(id, RetryReport)] + Failures(id, n - 1)
  {
  }

  lemma FrontStays(s: State, q: seq<Id>, now: Time, maxRetries: nat)
    requires Drainable(s, q, maxRetries) && q != [] && q[0] in s.tasks && s.tasks[q[0]].attempts + 1 < maxRetries
    ensures FrontFailed(s, q, FailTask(s, q[0], maxRetries, now), q, maxRetries)
  {
    assert q[0] in q;
    var s' := FailTask(s, q[0], maxRetries, now);
    assert forall id | id in q[1..] :: id in q && id != q[0];
    SameQueue(s, s', q);
    OneFailureLess(s.tasks, s'.tasks, q, maxRetries);
  }

  lemma FrontFails(s: State, q: seq<Id>, now: Time, maxRetries: nat) returns (q': seq<Id>)
    requires Drainable(s, q, maxRetries) && q != []
    ensures q[0] in s.tasks && FrontFailed(s, q, FailTask(s, q[0], maxRetries, now), q', maxRetries)
  {
    assert q[0] in q;
    if s.tasks[q[0]].attempts + 1 >= maxRetries {
      q' := q[1..];
      FrontPauses(s, q, now, maxRetries);
    } else {
      q' := q;
      FrontStays(s, q, now, maxRetries);
    }
  }

  /** One failed tick: the front loses one attempt, pauses if that was the last, and is
      the only task touched. */
  lemma FailedTick(s: State, q: seq<Id>, now: Time, maxRetries: nat, timeoutSeconds: int) returns (q': seq<Id>)
    requires Drainable(s, q, maxRetries) && q != []
    ensures q[0] in s.tasks
    ensures Tick(s, now, Raises, maxRetries, timeoutSeconds).0 == FailTask(s, q[0], maxRetries, now)
    ensures FrontFailed(s, q, FailTask(s, q[0], maxRetries, now), q', maxRetries)
  {
    assert q[0] in q;
    SweepIsIdle(s, now, timeoutSeconds);
    FrontIsNext(s, q);
    q' := FrontFails(s, q, now, maxRetries);
  }

  function Story(reports: seq<Report>): seq<(Id, ReportStatus)> {
    seq(|reports|, i requires 0 <= i < |reports| => (reports[i].taskId, reports[i].status))
  }

  lemma StoryCons(before: seq<Report>, mid: seq<Report>, last: seq<Report>)
    requires before <= mid <= last && |mid| == |before| + 1
    ensures Story(last[|before|..]) == [(mid[|before|].taskId, mid[|before|].status)] + Story(last[|mid|..])
  {
    assert last[|before|] == mid[|before|];
  }

  /** The first n reports added between `s` and `s'` are those a drain of `q` leaves. */
  ghost predicate ReportedAsPlanned(s: State, q: seq<Id>, s': State, maxRetries: nat, n: nat) {
    && s'.assignments == s.assignments
    && s.reports <= s'.reports
    && n <= |DrainReports(s.tasks, q, maxRetries)|
    && Story(s'.reports[|s.reports|..]) == DrainReports(s.tasks, q, maxRetries)[..n]
  }

  lemma ReportsCompose(s: State, q: seq<Id>, mid: State, q': seq<Id>, s': State, maxRetries: nat, n: nat)
    requires q != [] && FrontFailed(s, q, mid, q', maxRetries)
    requires mid.assignments == s.assignments && s.reports <= mid.reports && mid.reports[|s.reports|].taskId == q[0]
    requires ReportedAsPlanned(mid, q', s', maxRetries, n)
    ensures ReportedAsPlanned(s, q, s', maxRetries, n + 1)
  {
    StoryCons(s.reports, mid.reports, s'.reports);
  }

  /** Against a bridge that always fails, every tick up to the total of the attempts left
      reports what was planned: tasks fail and pause one after the other in the queue's
      order. Nothing is ever leased. */
  lemma {:induction false} FailingBridgeReports(s: State, q: seq<Id>, nows: seq<Time>, maxRetries: nat, timeoutSeconds: int)
    requires Drainable(s, q, maxRetries) && |nows| <= |DrainReports(s.tasks, q, maxRetries)|
    ensures ReportedAsPlanned(s, q, Ticks(s, nows, Raises, maxRetries, timeoutSeconds).0, maxRetries, |nows|)
    decreases |nows|
  {
    if nows != [] {
      assert DrainReports(s.tasks, [], maxRetries) == [];
      var q' := FailedTick(s, q, nows[0], maxRetries, timeoutSeconds);
      var mid := Tick(s, nows[0], Raises, maxRetries, timeoutSeconds).0;
      FailingBridgeReports(mid, q', nows[1..], maxRetries, timeoutSeconds);
      ReportsCompose(s, q, mid, q', Ticks(mid, nows[1..], Raises, maxRetries, timeoutSeconds).0, maxRetries, |nows| - 1);
    }
  }

  /** Every task of `q` is paused at the limit, the queue is empty, no other task changed. */
  ghost predicate Drained(s: State, q: seq<Id>, s': State, maxRetries: nat) {
    && s'.tasks.Keys == s.tasks.Keys
    && ReadyIds(s'.tasks) == {}
    && (forall id | id in q :: id in s'.tasks && s'.tasks[id].status.Paused? && s'.tasks[id].attempts == maxRetries)
    && (forall id | id in s.tasks && id !in q :: s'.tasks[id] == s.tasks[id])
  }

  lemma FailThenRest(s: State, q: seq<Id>, now: Time, q': seq<Id>, s': State, maxRetries: nat)
    requires Drainable(s, q, maxRetries) && q != [] && q[0] in s.tasks
    requires q' == if s.tasks[q[0]].attempts + 1 >= maxRetries then q[1..] else q
    requires Drained(FailTask(s, q[0], maxRetries, now), q', s', maxRetries)
    ensures Drained(s, q, s', maxRetries)
  {
    assert q == [q[0]] + q[1..];
    assert q[0] !in q[1..];
  }

  /** After exactly that many ticks the queue is drained. */
  lemma {:induction false} FailingBridgeDrains(s: State, q: seq<Id>, nows: seq<Time>, maxRetries: nat, timeoutSeconds: int)
    requires Drainable(s, q, maxRetries) && |nows| == TotalAttemptsLeft(s.tasks, q, maxRetries)
    ensures Drained(s, q, Ticks(s, nows, Raises, maxRetries, timeoutSeconds).0, maxRetries)
    decreases |nows|
  {
    assert q != [] ==> q[0] in q;
    if nows != [] {
      var q' := FailedTick(s, q, nows[0], maxRetries, timeoutSeconds);
      var mid := Tick(s, nows[0], Raises, maxRetries, timeoutSeconds).0;
      DrainLength(s.tasks, q, maxRetries);
      DrainLength(mid.tasks, q', maxRetries);
      FailingBridgeDrains(mid, q', nows[1..], maxRetries, timeoutSeconds);
      FailThenRest(s, q, nows[0], q', Ticks(mid, nows[1..], Raises, maxRetries, timeoutSeconds).0, maxRetries);
    }
  }
}
