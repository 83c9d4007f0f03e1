// The queue empties whatever the bridge answers: with a worker online and no lease running
// out, each tick either leases the front or takes one of the attempts it has left.
module OrchestratorDrain {
  import opened Basics
  import opened Orchestrator
  import opened OrchestratorRuns

  /** Ticks with a bridge answer each. */
  ghost function AnsweredTicks(s: State, nows: seq<Time>, answers: seq<Bridge>, maxRetries: int, timeoutSeconds: int): State
    requires |answers| == |nows|
    decreases |nows|
  {
    if nows == [] then s
    else AnsweredTicks(Tick(s, nows[0], answers[0], maxRetries, timeoutSeconds).0, nows[1..], answers[1..], maxRetries, timeoutSeconds)
  }

  /** `q` is the queue, and each of its tasks has attempts left. */
  ghost predicate Live(s: State, q: seq<Id>, maxRetries: nat) {
    && IsQueue(s, q) && OnlineIds(s.workers) != {}
    && forall id | id in q :: id in s.tasks && s.tasks[id].attempts < maxRetries
  }

  /** One tick moved the front on: leased, paused at the limit, or one attempt further. */
  ghost predicate FrontMoved(s: State, q: seq<Id>, s': State, q': seq<Id>, maxRetries: nat)
    requires q != []
  {
    && q[0] in s.tasks && s'.tasks.Keys == s.tasks.Keys
    && (forall id | id in s.tasks && id != q[0] :: s'.tasks[id] == s.tasks[id])
    && Live(s', q', maxRetries)
    && (q' == q || (q' == q[1..] && Left(s'.tasks[q[0]], maxRetries)))
    && TotalAttemptsLeft(s'.tasks, q', maxRetries) < TotalAttemptsLeft(s.tasks, q, maxRetries)
  }

  predicate Left(t: OrchTask, maxRetries: nat) {
    t.status.Leased? || (t.status.Paused? && t.attempts == maxRetries)
  }

  lemma {:induction false} SameAttemptsLeft(tasks: map<Id, OrchTask>, tasks': map<Id, OrchTask>, q: seq<Id>, maxRetries: nat)
    requires forall id | id in q :: id in tasks && id in tasks' && tasks'[id].attempts == tasks[id].attempts
    ensures TotalAttemptsLeft(tasks', q, maxRetries) == TotalAttemptsLeft(tasks, q, maxRetries)
  {
    if q != [] {
      assert q[0] in q && forall id | id in q[1..] :: id in q;
      SameAttemptsLeft(tasks, tasks', q[1..], maxRetries);
    }
  }

  /** The front leaves the queue, leased or paused. */
  lemma FrontLeaves(s: State, q: seq<Id>, s': State, maxRetries: nat)
    requires Live(s, q, maxRetries) && q != [] && q[0] in s.tasks
    requires s'.tasks.Keys == s.tasks.Keys && s'.workers == s.workers && Left(s'.tasks[q[0]], maxRetries)
    requires forall id | id in s.tasks && id != q[0] :: s'.tasks[id] == s.tasks[id]
    ensures FrontMoved(s, q, s', q[1..], maxRetries)
  {
    assert q[0] in q && forall i | 0 < i < |q| :: q[i] != q[0];
    assert forall id | id in q[1..] :: id in q && id != q[0];
    RestIsQueue(s, s', q);
    SameAttemptsLeft(s.tasks, s'.tasks, q[1..], maxRetries);
  }

  /** The front stays, with one attempt less. */
  lemma FrontRetries(s: State, q: seq<Id>, now: Time, maxRetries: nat)
    requires Live(s, q, maxRetries) && q != [] && q[0] in s.tasks && s.tasks[q[0]].attempts + 1 < maxRetries
    ensures FrontMoved(s, q, FailTask(s, q[0], maxRetries, now), q, maxRetries)
  {
    var s' := FailTask(s, q[0], maxRetries, now);
    assert q[0] in q && forall i | 0 < i < |q| :: q[i] != q[0];
    assert forall id | id in q[1..] :: id in q && id != q[0];
    SameQueue(s, s', q);
    SameAttemptsLeft(s.tasks, s'.tasks, q[1..], maxRetries);
  }

  lemma AnsweredTick(s: State, q: seq<Id>, now: Time, answer: Bridge, maxRetries: nat, timeoutSeconds: int) returns (q': seq<Id>)
    requires Live(s, q, maxRetries) && q != [] && LeasesFresh(s, now, timeoutSeconds)
    ensures FrontMoved(s, q, Tick(s, now, answer, maxRetries, timeoutSeconds).0, q', maxRetries)
  {
    assert q[0] in q;
    SweepIsIdle(s, now, timeoutSeconds);
    FrontIsNext(s, q);
    var s' := Tick(s, now, answer, maxRetries, timeoutSeconds).0;
    if answer.Raises? && s.tasks[q[0]].attempts + 1 < maxRetries {
      q' := q;
      FrontRetries(s, q, now, maxRetries);
    } else {
      q' := q[1..];
      FrontLeaves(s, q, s', maxRetries);
    }
  }

  lemma TickStaysFresh(s: State, now: Time, answer: Bridge, maxRetries: nat, timeoutSeconds: int, horizon: Time)
    requires LeasesFresh(s, horizon, timeoutSeconds) && now <= horizon && horizon - now <= timeoutSeconds * 1_000_000
    ensures LeasesFresh(s, now, timeoutSeconds)
    ensures LeasesFresh(Tick(s, now, answer, maxRetries, timeoutSeconds).0, horizon, timeoutSeconds)
  {
    SweepIsIdle(s, now, timeoutSeconds);
  }

  /** Every task of `q` is leased, or paused at the limit; the queue is empty; no other
      task has changed. */
  ghost predicate Settled(s: State, q: seq<Id>, s': State, maxRetries: nat) {
    && s'.tasks.Keys == s.tasks.Keys
    && ReadyIds(s'.tasks) == {}
    && (forall id | id in q :: id in s'.tasks && Left(s'.tasks[id], maxRetries))
    && (forall id | id in s.tasks && id !in q :: s'.tasks[id] == s.tasks[id])
  }

  lemma MoveThenSettle(s: State, q: seq<Id>, mid: State, q': seq<Id>, s': State, maxRetries: nat)
    requires q != [] && FrontMoved(s, q, mid, q', maxRetries) && Settled(mid, q', s', maxRetries)
    requires forall i | 0 < i < |q| :: q[i] != q[0]
    ensures Settled(s, q, s', maxRetries)
  {
    assert q == [q[0]] + q[1..] && q[0] !in q[1..];
    assert forall id | id in q :: id == q[0] || id in q[1..];
  }

  lemma EmptyQueueIsIdle(s: State, now: Time, answer: Bridge, maxRetries: nat, timeoutSeconds: int)
    requires IsQueue(s, []) && LeasesFresh(s, now, timeoutSeconds)
    ensures Tick(s, now, answer, maxRetries, timeoutSeconds) == (s, Idle)
    ensures ReadyIds(s.tasks) == {}
  {
    SweepIsIdle(s, now, timeoutSeconds);
    FrontIsNext(s, []);
  }

  /** After as many ticks as there are attempts left in the queue, or more, no low-risk
      task is queued, whatever the bridge answered to each of them. */
  lemma {:induction false} AnyBridgeSettlesTheQueue(s: State, q: seq<Id>, nows: seq<Time>, answers: seq<Bridge>, maxRetries: nat,
                                                    timeoutSeconds: int, horizon: Time)
    requires Live(s, q, maxRetries) && LeasesFresh(s, horizon, timeoutSeconds)
    requires |answers| == |nows| && |nows| >= TotalAttemptsLeft(s.tasks, q, maxRetries)
    requires forall i | 0 <= i < |nows| :: nows[i] <= horizon && horizon - nows[i] <= timeoutSeconds * 1_000_000
    ensures Settled(s, q, AnsweredTicks(s, nows, answers, maxRetries, timeoutSeconds), maxRetries)
    decreases |nows|
  {
    if q == [] {
      EmptyQueueStays(s, nows, answers, maxRetries, timeoutSeconds, horizon);
    } else {
      assert q[0] in q;
      assert AttemptsLeft(s.tasks, q[0], maxRetries) >= 1;
      TickStaysFresh(s, nows[0], answers[0], maxRetries, timeoutSeconds, horizon);
      var mid := Tick(s, nows[0], answers[0], maxRetries, timeoutSeconds).0;
      var q' := AnsweredTick(s, q, nows[0], answers[0], maxRetries, timeoutSeconds);
      AnyBridgeSettlesTheQueue(mid, q', nows[1..], answers[1..], maxRetries, timeoutSeconds, horizon);
      MoveThenSettle(s, q, mid, q', AnsweredTicks(mid, nows[1..], answers[1..], maxRetries, timeoutSeconds), maxRetries);
    }
  }

  lemma {:induction false} EmptyQueueStays(s: State, nows: seq<Time>, answers: seq<Bridge>, maxRetries: nat, timeoutSeconds: int, horizon: Time)
    requires IsQueue(s, []) && LeasesFresh(s, horizon, timeoutSeconds) && |answers| == |nows|
    requires forall i | 0 <= i < |nows| :: nows[i] <= horizon && horizon - nows[i] <= timeoutSeconds * 1_000_000
    ensures AnsweredTicks(s, nows, answers, maxRetries, timeoutSeconds) == s && ReadyIds(s.tasks) == {}
    decreases |nows|
  {
    if nows == [] {
      FrontIsNext(s, []);
    } else {
      TickStaysFresh(s, nows[0], answers[0], maxRetries, timeoutSeconds, horizon);
      EmptyQueueIsIdle(s, nows[0], answers[0], maxRetries, timeoutSeconds);
      EmptyQueueStays(s, nows[1..], answers[1..], maxRetries, timeoutSeconds, horizon);
    }
  }
}
