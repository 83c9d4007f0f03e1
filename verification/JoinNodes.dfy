// Nodes joining with a token, being confirmed and being revoked.
module JoinNodes {
  import opened Basics
  import opened Text
  import T = JoinTokens

  datatype NodeStatus = Waiting | Managed | Revoked

  datatype NodeRow = NodeRow(
    fingerprint: string, hostname: string, addresses: seq<string>, trustLevel: string, labels: seq<string>,
    status: NodeStatus, permissionBundles: seq<string>)

  datatype JoinRequest = JoinRequest(token: string, fingerprint: string, hostname: string, addresses: seq<string>, autoConfirm: bool)

  datatype NodeEvent =
    | JoinEvent(nodeId: string, hostname: string, addresses: seq<string>, trustLevel: string, labels: seq<string>,
                autoConfirm: bool, permissionBundles: seq<string>)
    | ConfirmEvent(nodeId: string, bundles: seq<string>)
    | RevokeEvent(nodeId: string)

  datatype State = State(nodes: map<string, NodeRow>, tokens: T.Table, audit: seq<NodeEvent>)

  datatype JoinResult =
    | TokenNotFound
    | NodeExists(nodeId: string)
    | TokenIs(tokenStatus: T.TokenStatus)
    | Joined(nodeId: string, status: NodeStatus)

  // ----- Duplicates -----

  ghost predicate SharedAddress(a: seq<string>, b: seq<string>) {
    exists address :: address != "" && address in a && address in b
  }

  ghost predicate SameMachine(fingerprint: string, hostname: string, addresses: seq<string>, n: NodeRow) {
    n.fingerprint == fingerprint || (n.hostname == hostname && SharedAddress(addresses, n.addresses))
  }

  ghost predicate Clashes(n: NodeRow, r: JoinRequest) {
    !n.status.Revoked? && SameMachine(r.fingerprint, r.hostname, r.addresses, n)
  }

  /** The duplicate reported is one that no other precedes by host name. */
  ghost predicate DuplicateChoice(nodes: map<string, NodeRow>, r: JoinRequest, duplicate: Option<string>) {
    match duplicate
    case None => forall id | id in nodes :: !Clashes(nodes[id], r)
    case Some(d) =>
      && d in nodes && Clashes(nodes[d], r)
      && forall id | id in nodes && Clashes(nodes[id], r) :: NotAfter(nodes[d].hostname, nodes[id].hostname)
  }

  // ----- Steps -----

  function NewNode(r: JoinRequest, token: T.TokenRow): NodeRow {
    NodeRow(r.fingerprint, r.hostname, r.addresses, token.trustLevel, token.labels,
            if r.autoConfirm then Managed else Waiting, if r.autoConfirm then ["observe", "task"] else [])
  }

  function JoinEventOf(id: string, n: NodeRow, autoConfirm: bool): NodeEvent {
    JoinEvent(id, n.hostname, n.addresses, n.trustLevel, n.labels, autoConfirm, n.permissionBundles)
  }

  /** `id` is the new node's random key. */
  function Join(s: State, r: JoinRequest, id: string, duplicate: Option<string>, now: T.Time): (State, JoinResult) {
    if r.token !in s.tokens then (s, TokenNotFound)
    else if duplicate.Some? then (s, NodeExists(duplicate.value))
    else
      var (tokens, consumed) := T.SavedConsume(s.tokens, r.token, r.fingerprint, now);
      if consumed.None? then (s.(tokens := tokens), TokenIs(tokens[r.token].status))
      else
        var node := NewNode(r, consumed.value);
        (State(s.nodes[id := node], tokens, s.audit + [JoinEventOf(id, node, r.autoConfirm)]), Joined(id, node.status))
  }

  function Confirm(s: State, id: string, bundles: seq<string>): (State, bool) {
    if id !in s.nodes || s.nodes[id].status.Revoked? then (s, false)
    else (s.(nodes := s.nodes[id := s.nodes[id].(status := Managed, permissionBundles := bundles)],
             audit := s.audit + [ConfirmEvent(id, bundles)]), true)
  }

  function RevokeNode(s: State, id: string): (State, bool) {
    if id !in s.nodes then (s, false)
    else (s.(nodes := s.nodes[id := s.nodes[id].(status := Revoked)], audit := s.audit + [RevokeEvent(id)]), true)
  }

  datatype Op =
    | JoinOp(request: JoinRequest, id: string, duplicate: Option<string>, now: T.Time)
    | ConfirmOp(nodeId: string, bundles: seq<string>)
    | RevokeOp(nodeId: string)
    | TokenOp(op: T.Op)

  ghost predicate Permitted(s: State, op: Op) {
    match op
    case JoinOp(r, id, duplicate, _) => id !in s.nodes && DuplicateChoice(s.nodes, r, duplicate)
    case TokenOp(op) => !op.Consume? && (op.Create? ==> op.value !in s.tokens)
    case _ => true
  }

  function Step(s: State, op: Op): State {
    match op
    case JoinOp(r, id, duplicate, now) => Join(s, r, id, duplicate, now).0
    case ConfirmOp(id, bundles) => Confirm(s, id, bundles).0
    case RevokeOp(id) => RevokeNode(s, id).0
    case TokenOp(op) => s.(tokens := T.SavedStep(s.tokens, op).0)
  }

  function Exec(ops: seq<Op>): State {
    if ops == [] then State(map[], map[], []) else Step(Exec(ops[..|ops| - 1]), ops[|ops| - 1])
  }

  ghost predicate ValidRun(ops: seq<Op>) {
    ops == [] || (ValidRun(ops[..|ops| - 1]) && Permitted(Exec(ops[..|ops| - 1]), ops[|ops| - 1]))
  }

  // ----- What a call does, column by column -----

  /** The node of a request that a token let in. */
  predicate LetInAs(r: JoinRequest, t: T.TokenRow, n: NodeRow) {
    && n.fingerprint == r.fingerprint && n.hostname == r.hostname && n.addresses == r.addresses
    && n.trustLevel == t.trustLevel && n.labels == t.labels
    && n.status == (if r.autoConfirm then Managed else Waiting)
    && n.permissionBundles == (if r.autoConfirm then ["observe", "task"] else [])
  }

  /** A join without a token, with a clash, with a token that no longer counts, or with one
      that is spent on the new node. */
  predicate JoinAnswered(s: State, s': State, r: JoinRequest, id: string, duplicate: Option<string>, now: T.Time, result: JoinResult) {
    if r.token !in s.tokens then s' == s && result == TokenNotFound
    else if duplicate.Some? then s' == s && result == NodeExists(duplicate.value)
    else
      var t := s.tokens[r.token];
      if t.status == T.Pending && now <= t.expiresAt then
        && id in s'.nodes && LetInAs(r, t, s'.nodes[id]) && result == Joined(id, s'.nodes[id].status)
        && s'.nodes == s.nodes[id := s'.nodes[id]]
        && s'.tokens == s.tokens[r.token := T.TokenRow(t.trustLevel, t.labels, t.expiresAt, T.Used, t.createdAt, Some(now), Some(r.fingerprint))]
        && s'.audit == s.audit + [JoinEvent(id, r.hostname, r.addresses, t.trustLevel, t.labels, r.autoConfirm,
                                            if r.autoConfirm then ["observe", "task"] else [])]
      else
        var status := if t.status == T.Pending then T.Expired else t.status;
        && result == TokenIs(status) && s'.nodes == s.nodes && s'.audit == s.audit
        && s'.tokens == s.tokens[r.token := T.WithStatus(t, status)]
  }

  lemma JoinEffect(s: State, r: JoinRequest, id: string, duplicate: Option<string>, now: T.Time)
    ensures var (s', result) := Join(s, r, id, duplicate, now); JoinAnswered(s, s', r, id, duplicate, now, result)
  {
    T.SavedEffect(s.tokens, T.Consume(r.token, r.fingerprint, now));
  }

  /** The node with a new status and new permissions, and all else as it was. */
  function Redecided(n: NodeRow, status: NodeStatus, bundles: seq<string>): NodeRow {
    NodeRow(n.fingerprint, n.hostname, n.addresses, n.trustLevel, n.labels, status, bundles)
  }

  // ----- One machine, one node -----

  ghost predicate Apart(a: NodeRow, b: NodeRow) {
    !a.status.Revoked? && !b.status.Revoked? ==> !SameMachine(a.fingerprint, a.hostname, a.addresses, b)
  }

  ghost predicate NodesApart(nodes: map<string, NodeRow>) {
    forall a, b | a in nodes && b in nodes && a != b :: Apart(nodes[a], nodes[b])
  }

  lemma ApartSymmetric(a: NodeRow, b: NodeRow)
    requires Apart(a, b)
    ensures Apart(b, a)
  {
  }

  /** Nodes that are not revoked have different fingerprints, and no two of them have a
      host name and a non-empty address in common. */
  lemma {:induction false} JoinedNodesStayApart(ops: seq<Op>)
    requires ValidRun(ops)
    ensures NodesApart(Exec(ops).nodes)
  {
    if ops != [] {
      var s, op := Exec(ops[..|ops| - 1]), ops[|ops| - 1];
      JoinedNodesStayApart(ops[..|ops| - 1]);
      if op.JoinOp? && Join(s, op.request, op.id, op.duplicate, op.now).1.Joined? {
        NewcomerIsApart(s, op.request, op.id, op.now);
      }
    }
  }

  lemma NewcomerIsApart(s: State, r: JoinRequest, id: string, now: T.Time)
    requires NodesApart(s.nodes) && id !in s.nodes && DuplicateChoice(s.nodes, r, None)
    requires Join(s, r, id, None, now).1.Joined?
    ensures NodesApart(Join(s, r, id, None, now).0.nodes)
  {
    var nodes := Join(s, r, id, None, now).0.nodes;
    forall other | other in s.nodes ensures Apart(nodes[id], nodes[other]) && Apart(nodes[other], nodes[id]) {
      assert !Clashes(s.nodes[other], r);
      assert Apart(nodes[id], nodes[other]);
      ApartSymmetric(nodes[id], nodes[other]);
    }
  }

  /** A duplicate join is turned away and leaves its token as it was; and the check never
      turns away a machine that no live node resembles. */
  lemma DuplicateJoinChangesNothing(s: State, r: JoinRequest, id: string, duplicate: Option<string>, now: T.Time)
    requires DuplicateChoice(s.nodes, r, duplicate) && r.token in s.tokens
    ensures (exists n | n in s.nodes :: Clashes(s.nodes[n], r)) <==> Join(s, r, id, duplicate, now).1.NodeExists?
    ensures Join(s, r, id, duplicate, now).1.NodeExists? ==> Join(s, r, id, duplicate, now).0 == s
  {
    if duplicate.Some? { assert Clashes(s.nodes[duplicate.value], r); }
  }

  // ----- One token, one node -----

  /** The node that each consumed token let in. */
  function Admissions(ops: seq<Op>): map<string, string> {
    if ops == [] then map[]
    else
      var init, op := ops[..|ops| - 1], ops[|ops| - 1];
      if op.JoinOp? && Join(Exec(init), op.request, op.id, op.duplicate, op.now).1.Joined? then
        Admissions(init)[op.request.token := op.id]
      else Admissions(init)
  }

  ghost predicate Admits(s: State, token: string, id: string) {
    && token in s.tokens && s.tokens[token].usedAt.Some? && !s.tokens[token].status.Pending?
    && id in s.nodes
    && s.tokens[token].fingerprint == Some(s.nodes[id].fingerprint)
    && s.nodes[id].trustLevel == s.tokens[token].trustLevel && s.nodes[id].labels == s.tokens[token].labels
  }

  ghost predicate OneToOne(s: State, admissions: map<string, string>) {
    && (forall token | token in s.tokens && s.tokens[token].usedAt.Some? :: token in admissions)
    && (forall token | token in admissions :: Admits(s, token, admissions[token]))
    && (forall id | id in s.nodes :: exists token | token in admissions :: admissions[token] == id)
    && (forall a, b | a in admissions && b in admissions && a != b :: admissions[a] != admissions[b])
  }

  /** Consumed tokens and nodes match one to one: a token lets in at most one node, no
      node exists without a token, and each has the fingerprint, trust level and labels
      its token recorded. */
  lemma {:induction false} TokensAdmitOneNodeEach(ops: seq<Op>)
    requires ValidRun(ops)
    ensures OneToOne(Exec(ops), Admissions(ops))
  {
    if ops != [] {
      var init, op := ops[..|ops| - 1], ops[|ops| - 1];
      TokensAdmitOneNodeEach(init);
      var s := Exec(init);
      if op.JoinOp? && Join(s, op.request, op.id, op.duplicate, op.now).1.Joined? {
        JoinedState(s, op);
        AdmissionAdds(s, Step(s, op), Admissions(init), op.request.token, op.id);
      } else {
        OtherStepsAdmitNobody(s, op);
        AdmissionsKept(s, Step(s, op), Admissions(init));
      }
    }
  }

  /** `s'` is `s` with one more node, let in by `token`. */
  ghost predicate LetsIn(s: State, s': State, token: string, id: string) {
    && id !in s.nodes && id in s'.nodes && s'.nodes == s.nodes[id := s'.nodes[id]]
    && token in s.tokens && s.tokens[token].status.Pending?
    && token in s'.tokens && s'.tokens == s.tokens[token := s'.tokens[token]]
    && Admits(s', token, id)
  }

  lemma JoinedState(s: State, op: Op)
    requires op.JoinOp? && op.id !in s.nodes && Join(s, op.request, op.id, op.duplicate, op.now).1.Joined?
    ensures LetsIn(s, Step(s, op), op.request.token, op.id)
  {
  }

  lemma AdmissionAdds(s: State, s': State, admissions: map<string, string>, token: string, id: string)
    requires OneToOne(s, admissions) && LetsIn(s, s', token, id)
    ensures OneToOne(s', admissions[token := id])
  {
    var more := admissions[token := id];
    assert forall t | t in admissions :: Admits(s, t, admissions[t]) && t != token;
    forall t | t in more ensures Admits(s', t, more[t]) {
      if t != token { assert Admits(s, t, admissions[t]); }
    }
    forall n | n in s'.nodes ensures exists t | t in more :: more[t] == n {
      if n == id {
        assert more[token] == n;
      } else {
        var t :| t in admissions && admissions[t] == n;
        assert more[t] == n;
      }
    }
    forall a, b | a in more && b in more && a != b ensures more[a] != more[b] {
      if a in admissions { assert Admits(s, a, admissions[a]); }
      if b in admissions { assert Admits(s, b, admissions[b]); }
    }
  }

  ghost predicate SameOrigin(n: NodeRow, n': NodeRow) {
    n'.fingerprint == n.fingerprint && n'.trustLevel == n.trustLevel && n'.labels == n.labels
  }

  /** No token is consumed and no node is added. */
  ghost predicate NobodyJoins(s: State, s': State) {
    && s'.nodes.Keys == s.nodes.Keys
    && (forall id | id in s.nodes :: SameOrigin(s.nodes[id], s'.nodes[id]))
    && (forall v | v in s'.tokens && s'.tokens[v].usedAt.Some? :: v in s.tokens && s.tokens[v].usedAt.Some?)
    && (forall v | v in s.tokens && !s.tokens[v].status.Pending? ::
          v in s'.tokens && !s'.tokens[v].status.Pending? && s'.tokens[v] == s.tokens[v].(status := s'.tokens[v].status))
  }

  lemma OtherStepsAdmitNobody(s: State, op: Op)
    requires Permitted(s, op)
    requires op.JoinOp? ==> !Join(s, op.request, op.id, op.duplicate, op.now).1.Joined?
    ensures NobodyJoins(s, Step(s, op))
  {
  }

  lemma AdmissionsKept(s: State, s': State, admissions: map<string, string>)
    requires OneToOne(s, admissions) && NobodyJoins(s, s')
    ensures OneToOne(s', admissions)
  {
    forall token | token in admissions ensures Admits(s', token, admissions[token]) {
      assert Admits(s, token, admissions[token]);
    }
    forall id | id in s'.nodes ensures exists token | token in admissions :: admissions[token] == id {
      assert id in s.nodes;
    }
  }

  // ----- Revoking is final -----

  ghost predicate NodeKept(s: State, s': State, id: string) {
    id in s.nodes ==>
      && id in s'.nodes
      && s'.nodes[id].fingerprint == s.nodes[id].fingerprint && s'.nodes[id].hostname == s.nodes[id].hostname
      && s'.nodes[id].addresses == s.nodes[id].addresses && s'.nodes[id].trustLevel == s.nodes[id].trustLevel
      && s'.nodes[id].labels == s.nodes[id].labels
      && (s.nodes[id].status.Revoked? ==> s'.nodes[id] == s.nodes[id])
      && (s.nodes[id].status.Managed? ==> !s'.nodes[id].status.Waiting?)
  }

  lemma StepKeepsNode(s: State, op: Op, id: string)
    requires Permitted(s, op)
    ensures NodeKept(s, Step(s, op), id)
  {
  }

  lemma {:induction false} RevokedIsFinal(ops: seq<Op>, i: nat, id: string)
    requires ValidRun(ops) && i <= |ops|
    ensures NodeKept(Exec(ops[..i]), Exec(ops), id)
    decreases |ops|
  {
    if i == |ops| {
      assert ops[..i] == ops;
    } else {
      assert ops[..|ops| - 1][..i] == ops[..i];
      RevokedIsFinal(ops[..|ops| - 1], i, id);
      StepKeepsNode(Exec(ops[..|ops| - 1]), ops[|ops| - 1], id);
    }
  }

  // ----- The audit log knows every node -----

  /** All of a node but its fingerprint, read off the log. */
  datatype Known = Known(hostname: string, addresses: seq<string>, trustLevel: string, labels: seq<string>,
                         status: NodeStatus, permissionBundles: seq<string>)

  function Replayed(before: map<string, Known>, event: NodeEvent): map<string, Known> {
    match event
    case JoinEvent(id, hostname, addresses, trustLevel, labels, autoConfirm, bundles) =>
      before[id := Known(hostname, addresses, trustLevel, labels, if autoConfirm then Managed else Waiting, bundles)]
    case ConfirmEvent(id, bundles) =>
      if id in before then before[id := before[id].(status := Managed, permissionBundles := bundles)] else before
    case RevokeEvent(id) => if id in before then before[id := before[id].(status := Revoked)] else before
  }

  function Replay(audit: seq<NodeEvent>): map<string, Known> {
    if audit == [] then map[] else Replayed(Replay(audit[..|audit| - 1]), audit[|audit| - 1])
  }

  function KnownOf(n: NodeRow): Known {
    Known(n.hostname, n.addresses, n.trustLevel, n.labels, n.status, n.permissionBundles)
  }

  function KnownNodes(nodes: map<string, NodeRow>): map<string, Known> {
    map id | id in nodes :: KnownOf(nodes[id])
  }

  /** A step writes at most one event, and that event tells what it did to the nodes. */
  lemma EventTellsStep(s: State, op: Op) returns (events: seq<NodeEvent>)
    requires Permitted(s, op)
    ensures |events| <= 1 && Step(s, op).audit == s.audit + events
    ensures KnownNodes(Step(s, op).nodes) ==
            if events == [] then KnownNodes(s.nodes) else Replayed(KnownNodes(s.nodes), events[0])
  {
    var s' := Step(s, op);
    events := s'.audit[|s.audit|..];
  }

  lemma ReplayAppend(audit: seq<NodeEvent>, event: NodeEvent)
    ensures Replay(audit + [event]) == Replayed(Replay(audit), event)
  {
    assert (audit + [event])[..|audit|] == audit;
  }

  /** The log tells of every node all that the table holds but its fingerprint. */
  lemma {:induction false} AuditKnowsNodes(ops: seq<Op>)
    requires ValidRun(ops)
    ensures Replay(Exec(ops).audit) == KnownNodes(Exec(ops).nodes)
  {
    if ops != [] {
      AuditKnowsNodes(ops[..|ops| - 1]);
      var s := Exec(ops[..|ops| - 1]);
      var events := EventTellsStep(s, ops[|ops| - 1]);
      if events != [] {
        assert events == [events[0]];
        ReplayAppend(s.audit, events[0]);
      } else {
        assert s.audit + events == s.audit;
      }
    }
  }
}
