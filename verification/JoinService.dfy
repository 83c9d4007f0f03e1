// The join endpoint and the node commands as methods over the store's tables, each shown
// to take the step that the join invariants are about.
module JoinService {
  import opened Basics
  import opened Text
  import opened JoinNodes

  class Node {
    const row: NodeRow // as loaded
    var status: NodeStatus
    var permissionBundles: seq<string>

    constructor (row: NodeRow)
      ensures this.row == row && Row() == row
    {
      this.row, status, permissionBundles := row, row.status, row.permissionBundles;
    }

    function Row(): NodeRow
      reads this
    {
      row.(status := status, permissionBundles := permissionBundles)
    }
  }

  class NodeRegistry {
    var nodes: map<string, Node>

    constructor (nodes: map<string, Node>)
      ensures this.nodes == nodes
    {
      this.nodes := nodes;
    }

    method Confirm(id: string, bundles: seq<string>) returns (node: Node?)
      modifies nodes.Values
      ensures unchanged(this)
      ensures node == if id in nodes && !old(nodes[id].status.Revoked?) then nodes[id] else null
      ensures node != null ==> node.Row() == old(nodes[id].Row()).(status := Managed, permissionBundles := bundles)
      ensures forall other | other in nodes.Values && other != node :: unchanged(other)
    {
      if id !in nodes || nodes[id].status.Revoked? {
        return null;
      }
      node := nodes[id];
      node.status := Managed;
      node.permissionBundles := bundles;
    }

    method Revoke(id: string) returns (node: Node?)
      modifies nodes.Values
      ensures unchanged(this)
      ensures node == if id in nodes then nodes[id] else null
      ensures node != null ==> node.Row() == old(nodes[id].Row()).(status := Revoked)
      ensures forall other | other in nodes.Values && other != node :: unchanged(other)
    {
      if id !in nodes {
        return null;
      }
      node := nodes[id];
      node.status := Revoked;
    }
  }

  /** ORDER BY hostname. */
  predicate HostBefore(nodes: map<string, NodeRow>, a: string, b: string) {
    if a in nodes && b in nodes then NotAfter(nodes[a].hostname, nodes[b].hostname) else a in nodes || b !in nodes
  }

  function HostOrder(nodes: map<string, NodeRow>): (string, string) -> bool {
    (a: string, b: string) => HostBefore(nodes, a, b)
  }

  lemma HostOrderIsTotal(nodes: map<string, NodeRow>)
    ensures TotalPreorder(HostOrder(nodes))
  {
    forall a: string, b: string ensures HostBefore(nodes, a, b) || HostBefore(nodes, b, a) {
      if a in nodes && b in nodes { Total(nodes[a].hostname, nodes[b].hostname); }
    }
    forall a: string, b: string, c: string | HostBefore(nodes, a, b) && HostBefore(nodes, b, c) ensures HostBefore(nodes, a, c) {
      if a in nodes && b in nodes && c in nodes &&
         nodes[a].hostname != nodes[b].hostname && nodes[b].hostname != nodes[c].hostname {
        Transitive(nodes[a].hostname, nodes[b].hostname, nodes[c].hostname);
      }
    }
  }

  class JoinService {
    var nodes: map<string, NodeRow>
    const tokens: T.TokenTable
    var audit: seq<NodeEvent>
    ghost var history: seq<Op>

    ghost function View(): State
      reads this, tokens
    {
      State(nodes, tokens.rows, audit)
    }

    ghost predicate Valid()
      reads this, tokens
    {
      ValidRun(history) && View() == Exec(history)
    }

    constructor ()
      ensures Valid() && history == [] && fresh(tokens)
    {
      nodes, audit, history := map[], [], [];
      tokens := new T.TokenTable();
    }

    ghost method Took(op: Op)
      requires ValidRun(history) && Permitted(Exec(history), op) && View() == Step(Exec(history), op)
      modifies this`history
      ensures Valid() && history == old(history) + [op]
    {
      assert (history + [op])[..|history|] == history;
      history := history + [op];
    }

    /** `POST /api/v1/join`; `id` is the key drawn for the node. */
    method Join(request: JoinRequest, id: string, now: T.Time) returns (result: JoinResult)
      requires Valid() && id !in nodes
      modifies this, tokens
      ensures Valid() && |history| == |old(history)| + 1 && old(history) <= history
      ensures var op := history[|old(history)|];
              && op.JoinOp? && op == JoinOp(request, id, op.duplicate, now)
              && result == JoinNodes.Join(old(View()), request, id, op.duplicate, now).1
              && DuplicateChoice(old(nodes), request, op.duplicate)
              && JoinAnswered(old(View()), View(), request, id, op.duplicate, now, result)
    {
      ghost var before := View();
      var duplicate := FindDuplicateJoinNode(request);
      var token := tokens.LoadToken(request.token);
      if token.None? {
        result := TokenNotFound;
      } else if duplicate.Some? {
        result := NodeExists(duplicate.value);
      } else {
        result := Admit(request, id, now);
      }
      JoinEffect(before, request, id, duplicate, now);
      Took(JoinOp(request, id, duplicate, now));
    }

    /** Past the duplicate check: consume the token and register the node. */
    method Admit(request: JoinRequest, id: string, now: T.Time) returns (result: JoinResult)
      requires request.token in tokens.rows && id !in nodes
      modifies this`nodes, this`audit, tokens
      ensures (View(), result) == JoinNodes.Join(old(View()), request, id, None, now)
    {
      var consumed := tokens.ConsumeToken(request.token, request.fingerprint, now);
      if consumed.None? {
        var refreshed := tokens.LoadToken(request.token);
        return TokenIs(refreshed.value.status);
      }
      var row := NodeRow(request.fingerprint, request.hostname, request.addresses, consumed.value.trustLevel,
                         consumed.value.labels, Waiting, []);
      nodes := nodes[id := row];
      if request.autoConfirm {
        row := row.(status := Managed, permissionBundles := ["observe", "task"]);
        nodes := nodes[id := row];
      }
      assert row == NewNode(request, consumed.value);
      assert nodes == old(nodes)[id := row];
      audit := audit + [JoinEvent(id, row.hostname, row.addresses, row.trustLevel, row.labels, request.autoConfirm, row.permissionBundles)];
      result := Joined(id, row.status);
    }

    /** Walks over the nodes by host name and stops at the first that clashes. */
    method FindDuplicateJoinNode(request: JoinRequest) returns (duplicate: Option<string>)
      ensures DuplicateChoice(nodes, request, duplicate)
    {
      HostOrderIsTotal(nodes);
      var listing := OrderBy(nodes.Keys, HostOrder(nodes));
      var i := 0;
      while i < |listing|
        invariant 0 <= i <= |listing|
        invariant forall k | 0 <= k < i :: listing[k] in nodes && !Clashes(nodes[listing[k]], request)
      {
        assert listing[i] in listing;
        var node := nodes[listing[i]];
        var addresses := set a | a in request.addresses && a != "";
        if !node.status.Revoked? {
          if node.fingerprint == request.fingerprint ||
             (node.hostname == request.hostname && exists a | a in node.addresses :: a in addresses) {
            FirstClashIsLeast(nodes, listing, i, request);
            return Some(listing[i]);
          }
        }
        i := i + 1;
      }
      duplicate := None;
      assert forall id | id in nodes :: id in listing;
    }

    /** `hmn node confirm` with a node id. */
    method ConfirmNode(id: string, bundles: seq<string>) returns (ok: bool)
      requires Valid()
      modifies this
      ensures Valid() && history == old(history) + [ConfirmOp(id, bundles)]
      ensures ok <==> id in old(nodes) && old(nodes)[id].status != Revoked
      ensures View() == if ok then State(old(nodes)[id := Redecided(old(nodes)[id], Managed, bundles)], old(View()).tokens,
                                         old(audit) + [ConfirmEvent(id, bundles)])
                        else old(View())
    {
      ok := false;
      if id in nodes {
        var node := new Node(nodes[id]);
        var registry := new NodeRegistry(map[id := node]);
        var updated := registry.Confirm(id, bundles);
        if updated != null {
          nodes := nodes[id := updated.Row()];
          audit := audit + [ConfirmEvent(id, bundles)];
          ok := true;
        }
      }
      Took(ConfirmOp(id, bundles));
    }

    method RevokeNode(id: string) returns (ok: bool)
      requires Valid()
      modifies this
      ensures Valid() && history == old(history) + [RevokeOp(id)] && ok == (id in old(nodes))
      ensures View() == if ok then State(old(nodes)[id := Redecided(old(nodes)[id], Revoked, old(nodes)[id].permissionBundles)],
                                         old(View()).tokens, old(audit) + [RevokeEvent(id)])
                        else old(View())
    {
      ok := false;
      if id in nodes {
        var node := new Node(nodes[id]);
        var registry := new NodeRegistry(map[id := node]);
        var updated := registry.Revoke(id);
        nodes := nodes[id := updated.Row()];
        audit := audit + [RevokeEvent(id)];
        ok := true;
      }
      Took(RevokeOp(id));
    }
  }

  lemma FirstClashIsLeast(nodes: map<string, NodeRow>, listing: seq<string>, i: nat, r: JoinRequest)
    requires OrderedListing(listing, nodes.Keys, HostOrder(nodes)) && i < |listing|
    requires listing[i] in nodes && Clashes(nodes[listing[i]], r)
    requires forall k | 0 <= k < i :: listing[k] in nodes && !Clashes(nodes[listing[k]], r)
    ensures DuplicateChoice(nodes, r, Some(listing[i]))
  {
    forall id | id in nodes && Clashes(nodes[id], r) ensures NotAfter(nodes[listing[i]].hostname, nodes[id].hostname) {
      assert id in listing;
      var k :| 0 <= k < |listing| && listing[k] == id;
      if k > i { assert HostOrder(nodes)(listing[i], listing[k]); }
    }
  }
}
