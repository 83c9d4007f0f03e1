// The store's queries as SQLite answers them: on text columns. On rows whose times lie
// in years 1 to 9999 each of them means what its counterpart on times means, so what
// the other modules prove about times holds of the queries that run.
module TextQueries {
  import opened Basics
  import opened Text
  import opened Timestamps
  import C = ControlPlane
  import O = Orchestrator
  import T = JoinTokens

  predicate Writable(time: int) {
    0 <= time < END
  }

  ghost function Column(time: int): string {
    if Writable(time) then TextOf(time) else ""
  }

  lemma ColumnOrder(a: int, b: int)
    requires Writable(a) && Writable(b)
    ensures Precedes(Column(a), Column(b)) <==> a < b
    ensures NotAfter(Column(a), Column(b)) <==> a <= b
    ensures Column(a) == Column(b) <==> a == b
  {
    TextOfOrder(a, b);
  }

  ghost predicate TaskTimesWritable(s: C.Db) {
    forall id | id in s.tasks ::
      Writable(s.tasks[id].createdAt) && (s.tasks[id].leaseExpiresAt.Some? ==> Writable(s.tasks[id].leaseExpiresAt.value))
  }

  // ----- SELECT ... WHERE lease_expires_at <= ? ORDER BY lease_expires_at, created_at -----

  ghost predicate LeaseOverByText(t: C.Task, cutoff: int) {
    t.status.Running? && t.executor == "worker" && t.leaseExpiresAt.Some? &&
    NotAfter(Column(t.leaseExpiresAt.value), Column(cutoff))
  }

  ghost function StuckByText(s: C.Db, cutoff: int): set<nat> {
    set id | id in s.tasks && LeaseOverByText(s.tasks[id], cutoff)
  }

  lemma ExpiryFilterIsTimeFilter(s: C.Db, cutoff: int)
    requires TaskTimesWritable(s) && Writable(cutoff)
    ensures StuckByText(s, cutoff) == C.Stuck(s, cutoff)
  {
    forall id | id in s.tasks ensures LeaseOverByText(s.tasks[id], cutoff) <==> C.LeaseOver(s.tasks[id], cutoff) {
      if s.tasks[id].leaseExpiresAt.Some? { ColumnOrder(s.tasks[id].leaseExpiresAt.value, cutoff); }
    }
  }

  ghost predicate ExpiryOrderByText(s: C.Db, a: nat, b: nat) {
    a in s.tasks && b in s.tasks && s.tasks[a].leaseExpiresAt.Some? && s.tasks[b].leaseExpiresAt.Some? &&
    var leaseA, leaseB := Column(s.tasks[a].leaseExpiresAt.value), Column(s.tasks[b].leaseExpiresAt.value);
    Precedes(leaseA, leaseB) ||
    (leaseA == leaseB && NotAfter(Column(s.tasks[a].createdAt), Column(s.tasks[b].createdAt)))
  }

  ghost function ExpiryOrderingByText(s: C.Db): (nat, nat) -> bool {
    (a: nat, b: nat) => ExpiryOrderByText(s, a, b)
  }

  lemma ExpiryOrderIsTimeOrder(s: C.Db, cutoff: int, a: nat, b: nat)
    requires TaskTimesWritable(s) && a in C.Stuck(s, cutoff) && b in C.Stuck(s, cutoff)
    ensures ExpiryOrderingByText(s)(a, b) <==> C.ExpiryOrdering(s)(a, b)
  {
    ColumnOrder(s.tasks[a].leaseExpiresAt.value, s.tasks[b].leaseExpiresAt.value);
    ColumnOrder(s.tasks[a].createdAt, s.tasks[b].createdAt);
  }

  /** The watchdog's rows, filtered and sorted as text, are the rows that the model's step
      allows, in an order that it allows. */
  lemma ExpiryQueryIsTimeQuery(s: C.Db, cutoff: int, xs: seq<nat>)
    requires TaskTimesWritable(s) && Writable(cutoff)
    ensures OrderedListing(xs, StuckByText(s, cutoff), ExpiryOrderingByText(s)) <==>
            OrderedListing(xs, C.Stuck(s, cutoff), C.ExpiryOrdering(s))
  {
    ExpiryFilterIsTimeFilter(s, cutoff);
    if Enumerates(xs, C.Stuck(s, cutoff)) {
      forall i, j | 0 <= i < j < |xs| ensures ExpiryOrderingByText(s)(xs[i], xs[j]) <==> C.ExpiryOrdering(s)(xs[i], xs[j]) {
        assert xs[i] in xs && xs[j] in xs;
        ExpiryOrderIsTimeOrder(s, cutoff, xs[i], xs[j]);
      }
    }
  }

  // ----- SELECT ... WHERE status = 'pending' ORDER BY created_at LIMIT 1 -----

  lemma OldestPendingByText(s: C.Db, nodeId: string, executor: string, id: nat)
    requires TaskTimesWritable(s) && id in s.tasks && C.Claimable(s.tasks[id], nodeId, executor)
    ensures C.FirstClaimable(s, nodeId, executor, id) <==>
              forall other | other in s.tasks && C.Claimable(s.tasks[other], nodeId, executor) ::
                NotAfter(Column(s.tasks[id].createdAt), Column(s.tasks[other].createdAt))
  {
    forall other | other in s.tasks {
      ColumnOrder(s.tasks[id].createdAt, s.tasks[other].createdAt);
    }
  }

  // ----- ORDER BY priority DESC, created_at ASC, task_id ASC -----

  lemma QueueOrderByText(tasks: map<O.Id, O.OrchTask>, a: O.Id, b: O.Id)
    requires a in tasks && b in tasks && Writable(tasks[a].createdAt) && Writable(tasks[b].createdAt)
    ensures O.QueueOrder(tasks)(a, b) <==>
              var x, y := tasks[a], tasks[b];
              || x.priority > y.priority
              || (x.priority == y.priority &&
                  (Precedes(Column(x.createdAt), Column(y.createdAt)) ||
                   (Column(x.createdAt) == Column(y.createdAt) && a <= b)))
  {
    ColumnOrder(tasks[a].createdAt, tasks[b].createdAt);
  }

  // ----- SELECT ... WHERE status = 'pending' AND expires_at < ? -----

  lemma TokenSweepByText(rows: T.Table, now: int)
    requires Writable(now) && forall v | v in rows :: Writable(rows[v].expiresAt)
    ensures T.LapsedValues(rows, now) ==
            set v | v in rows && rows[v].status.Pending? && Precedes(Column(rows[v].expiresAt), Column(now))
  {
    forall v | v in rows ensures Precedes(Column(rows[v].expiresAt), Column(now)) <==> rows[v].expiresAt < now {
      ColumnOrder(rows[v].expiresAt, now);
    }
  }
}
