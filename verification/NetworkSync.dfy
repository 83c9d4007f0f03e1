// Linking the managed nodes to what the network provider lists: a greedy matching by
// name, written back to the nodes it matched.
module NetworkSync {
  import opened Basics

  datatype NetworkRecord = NetworkRecord(providerNodeId: string, hostname: string, ip: string, tags: seq<string>, online: bool)

  datatype Link = Link(provider: string, nodeId: string, ip: string, tags: seq<string>, online: bool)

  // `rest` stands for the columns that the sync does not touch.
  datatype NodeRow = NodeRow(hostname: string, rest: string, link: Link)

  type Table = map<string, NodeRow>

  /** One pick per provider record: the node it is linked to, or None. */
  type Plan = seq<Option<string>>

  predicate Matches(p: NetworkRecord, id: string, hostname: string) {
    var names := {p.hostname, p.providerNodeId};
    hostname in names || id in names
  }

  predicate Fits(p: NetworkRecord, id: string, table: Table) {
    id in table && Matches(p, id, table[id].hostname)
  }

  function Taken(plan: Plan): set<string> {
    set i | 0 <= i < |plan| && plan[i].Some? :: plan[i].value
  }

  /** The first node in `listing` that is free and fits. */
  function Pick(p: NetworkRecord, table: Table, listing: seq<string>, taken: set<string>): (id: Option<string>)
    ensures id.Some? ==> id.value in listing && id.value !in taken && Fits(p, id.value, table)
    ensures id.None? ==> forall other | other in listing && Fits(p, other, table) :: other in taken
  {
    if listing == [] then None
    else if listing[0] !in taken && Fits(p, listing[0], table) then Some(listing[0])
    else Pick(p, table, listing[1..], taken)
  }

  function Matching(ps: seq<NetworkRecord>, table: Table, listing: seq<string>): (plan: Plan)
    ensures |plan| == |ps|
  {
    if ps == [] then []
    else
      var before := Matching(ps[..|ps| - 1], table, listing);
      before + [Pick(ps[|ps| - 1], table, listing, Taken(before))]
  }

  function LinkOf(p: NetworkRecord, provider: string): Link {
    Link(provider, p.providerNodeId, p.ip, p.tags, p.online)
  }

  predicate Targets(plan: Plan, table: Table) {
    forall i | 0 <= i < |plan| && plan[i].Some? :: plan[i].value in table
  }

  /** The table once the picks are written, one after the other. */
  function Written(ps: seq<NetworkRecord>, plan: Plan, table: Table, provider: string): (t: Table)
    requires |plan| == |ps| && Targets(plan, table)
    ensures t.Keys == table.Keys
  {
    if plan == [] then table
    else
      var last := |plan| - 1;
      var t := Written(ps[..last], plan[..last], table, provider);
      match plan[last]
      case None => t
      case Some(id) => assert Targets(plan, table); t[id := t[id].(link := LinkOf(ps[last], provider))]
  }

  function Linked(plan: Plan): nat {
    if plan == [] then 0 else Linked(plan[..|plan| - 1]) + if plan[|plan| - 1].Some? then 1 else 0
  }

  /** How many writes change something. */
  function Updated(ps: seq<NetworkRecord>, plan: Plan, table: Table, provider: string): nat
    requires |plan| == |ps| && Targets(plan, table)
  {
    if plan == [] then 0
    else
      var last := |plan| - 1;
      var t := Written(ps[..last], plan[..last], table, provider);
      Updated(ps[..last], plan[..last], table, provider) +
      match plan[last]
      case None => 0
      case Some(id) => assert Targets(plan, table); if t[id].link == LinkOf(ps[last], provider) then 0 else 1
  }

  function Label(p: NetworkRecord): string {
    if p.hostname != "" then p.hostname else p.providerNodeId
  }

  function Unmatched(ps: seq<NetworkRecord>, plan: Plan): seq<string>
    requires |plan| == |ps|
  {
    if plan == [] then []
    else
      var last := |plan| - 1;
      Unmatched(ps[..last], plan[..last]) + if plan[last].None? then [Label(ps[last])] else []
  }

  // ----- What a greedy matching is -----

  lemma {:induction false} PrefixMatching(ps: seq<NetworkRecord>, table: Table, listing: seq<string>, k: nat)
    requires k <= |ps|
    ensures Matching(ps, table, listing)[..k] == Matching(ps[..k], table, listing)
    decreases |ps|
  {
    if k < |ps| {
      var init := ps[..|ps| - 1];
      PrefixMatching(init, table, listing, k);
      assert init[..k] == ps[..k];
    } else {
      assert ps[..k] == ps;
    }
  }

  lemma PickAt(ps: seq<NetworkRecord>, table: Table, listing: seq<string>, i: nat)
    requires i < |ps|
    ensures Matching(ps, table, listing)[i] == Pick(ps[i], table, listing, Taken(Matching(ps, table, listing)[..i]))
  {
    PrefixMatching(ps, table, listing, i);
    PrefixMatching(ps, table, listing, i + 1);
    assert ps[..i + 1][..i] == ps[..i];
    assert Matching(ps, table, listing)[i] == Matching(ps, table, listing)[..i + 1][i];
  }

  /** No node is picked twice. */
  ghost predicate Injective(plan: Plan) {
    forall i, j | 0 <= i < j < |plan| && plan[i].Some? :: plan[i] != plan[j]
  }

  ghost predicate TakenBefore(plan: Plan, i: nat, id: string)
    requires i <= |plan|
  {
    exists k: int :: 0 <= k < i && plan[k] == Some(id)
  }

  /** No node is linked twice; every link fits; and a record leaves a node that fits it
      only to an earlier record, or - when it has a node already - because of its place
      in the list. */
  lemma MatchingIsGreedy(ps: seq<NetworkRecord>, table: Table, listing: seq<string>)
    requires Enumerates(listing, table.Keys)
    ensures var plan := Matching(ps, table, listing);
            && Targets(plan, table)
            && Injective(plan)
            && (forall i | 0 <= i < |plan| && plan[i].Some? :: Fits(ps[i], plan[i].value, table))
            && (forall i, id | 0 <= i < |plan| && plan[i].None? && Fits(ps[i], id, table) :: TakenBefore(plan, i, id))
  {
    var plan := Matching(ps, table, listing);
    forall i | 0 <= i < |plan| ensures plan[i] == Pick(ps[i], table, listing, Taken(plan[..i])) {
      PickAt(ps, table, listing, i);
    }
    forall i, j | 0 <= i < j < |plan| && plan[i].Some? ensures plan[i] != plan[j] {
      assert plan[..j][i] == plan[i];
      assert plan[i].value in Taken(plan[..j]);
    }
    forall i, id | 0 <= i < |plan| && plan[i].None? && Fits(ps[i], id, table) ensures TakenBefore(plan, i, id) {
      assert id in listing && id in Taken(plan[..i]);
      var k :| 0 <= k < |plan[..i]| && plan[..i][k].Some? && plan[..i][k].value == id;
      assert plan[k] == Some(id);
    }
  }

  /** Of the free nodes that fit, a record gets the one listed first. */
  lemma {:induction false} PickIsFirst(p: NetworkRecord, table: Table, listing: seq<string>, taken: set<string>, k: nat)
    requires k < |listing| && Fits(p, listing[k], table) && listing[k] !in taken
    ensures exists i: int :: 0 <= i <= k && Pick(p, table, listing, taken) == Some(listing[i])
  {
    if listing[0] !in taken && Fits(p, listing[0], table) {
      assert Pick(p, table, listing, taken) == Some(listing[0]);
    } else {
      PickIsFirst(p, table, listing[1..], taken, k - 1);
      var i: int :| 0 <= i <= k - 1 && Pick(p, table, listing[1..], taken) == Some(listing[1..][i]);
      assert listing[1..][i] == listing[i + 1];
    }
  }

  lemma {:induction false} EveryRecordCounted(ps: seq<NetworkRecord>, plan: Plan)
    requires |plan| == |ps|
    ensures Linked(plan) + |Unmatched(ps, plan)| == |ps|
  {
    if plan != [] {
      EveryRecordCounted(ps[..|ps| - 1], plan[..|plan| - 1]);
    }
  }

  // ----- What is written -----

  lemma TakenGrows(plan: Plan, k: nat)
    requires k <= |plan|
    ensures Taken(plan[..k]) <= Taken(plan)
  {
    forall id | id in Taken(plan[..k]) ensures id in Taken(plan) {
      var i :| 0 <= i < k && plan[..k][i].Some? && plan[..k][i].value == id;
      assert plan[i] == plan[..k][i];
    }
  }

  /** Linked nodes carry their record's link and keep all else; the others keep all. */
  lemma {:induction false} WrittenExactly(ps: seq<NetworkRecord>, plan: Plan, table: Table, provider: string)
    requires |plan| == |ps| && Targets(plan, table) && Injective(plan)
    ensures var t := Written(ps, plan, table, provider);
            && (forall i | 0 <= i < |plan| && plan[i].Some? ::
                  t[plan[i].value] == table[plan[i].value].(link := LinkOf(ps[i], provider)))
            && (forall id | id in table && id !in Taken(plan) :: t[id] == table[id])
  {
    if plan != [] {
      var last := |plan| - 1;
      var init := plan[..last];
      WrittenExactly(ps[..last], init, table, provider);
      forall i | 0 <= i < last ensures init[i] == plan[i] && ps[..last][i] == ps[i] {}
      TakenGrows(plan, last);
      if plan[last].Some? {
        var id := plan[last].value;
        assert id !in Taken(init);
        assert id in Taken(plan);
      }
    }
  }

  function ChangedIds(t: Table, t': Table): set<string> {
    set id | id in t && id in t' && t'[id] != t[id]
  }

  /** `updated` counts the nodes whose row has changed. */
  lemma {:induction false} UpdatedCountsChanges(ps: seq<NetworkRecord>, plan: Plan, table: Table, provider: string)
    requires |plan| == |ps| && Targets(plan, table) && Injective(plan)
    ensures Updated(ps, plan, table, provider) == |ChangedIds(table, Written(ps, plan, table, provider))|
  {
    if plan == [] {
      assert ChangedIds(table, table) == {};
    } else {
      var last := |plan| - 1;
      var init := plan[..last];
      UpdatedCountsChanges(ps[..last], init, table, provider);
      WrittenExactly(ps[..last], init, table, provider);
      if plan[last].Some? {
        var id := plan[last].value;
        var t := Written(ps[..last], init, table, provider);
        assert id !in Taken(init) && t[id] == table[id];
        ChangeCounted(table, t, id, LinkOf(ps[last], provider));
      }
    }
  }

  lemma ChangeCounted(table: Table, t: Table, id: string, link: Link)
    requires t.Keys == table.Keys && id in table && t[id] == table[id]
    ensures |ChangedIds(table, t[id := t[id].(link := link)])| == |ChangedIds(table, t)| + if t[id].link == link then 0 else 1
  {
    var t' := t[id := t[id].(link := link)];
    if t[id].link == link {
      assert t' == t;
    } else {
      assert ChangedIds(table, t') == ChangedIds(table, t) + {id};
    }
  }

  // ----- A second sync -----

  ghost predicate SameNames(t: Table, t': Table) {
    t.Keys == t'.Keys && forall id | id in t :: t'[id].hostname == t[id].hostname
  }

  lemma {:induction false} WritesKeepNames(ps: seq<NetworkRecord>, plan: Plan, table: Table, provider: string)
    requires |plan| == |ps| && Targets(plan, table)
    ensures SameNames(table, Written(ps, plan, table, provider))
  {
    if plan != [] {
      WritesKeepNames(ps[..|ps| - 1], plan[..|plan| - 1], table, provider);
    }
  }

  lemma {:induction false} PickSameNames(p: NetworkRecord, t: Table, t': Table, listing: seq<string>, taken: set<string>)
    requires SameNames(t, t')
    ensures Pick(p, t', listing, taken) == Pick(p, t, listing, taken)
  {
    if listing != [] {
      PickSameNames(p, t, t', listing[1..], taken);
    }
  }

  lemma {:induction false} MatchingSameNames(ps: seq<NetworkRecord>, t: Table, t': Table, listing: seq<string>)
    requires SameNames(t, t')
    ensures Matching(ps, t', listing) == Matching(ps, t, listing)
  {
    if ps != [] {
      var init := ps[..|ps| - 1];
      MatchingSameNames(init, t, t', listing);
      PickSameNames(ps[|ps| - 1], t, t', listing, Taken(Matching(init, t, listing)));
    }
  }

  /** Writing links that are there already changes nothing. */
  lemma {:induction false} RewriteIsIdle(ps: seq<NetworkRecord>, plan: Plan, table: Table, provider: string)
    requires |plan| == |ps| && Targets(plan, table)
    requires forall i | 0 <= i < |plan| && plan[i].Some? :: table[plan[i].value].link == LinkOf(ps[i], provider)
    ensures Written(ps, plan, table, provider) == table && Updated(ps, plan, table, provider) == 0
  {
    if plan != [] {
      var last := |plan| - 1;
      forall i | 0 <= i < last ensures plan[..last][i] == plan[i] && ps[..last][i] == ps[i] {}
      RewriteIsIdle(ps[..last], plan[..last], table, provider);
    }
  }

  /** Syncing again with the same records links the same nodes, leaves the same records
      unmatched and updates nothing. */
  lemma SecondSyncIsIdle(ps: seq<NetworkRecord>, table: Table, listing: seq<string>, provider: string)
    requires Enumerates(listing, table.Keys)
    ensures var plan := Matching(ps, table, listing);
            && Targets(plan, table)
            && var t := Written(ps, plan, table, provider);
               && Matching(ps, t, listing) == plan
               && Written(ps, plan, t, provider) == t
               && Updated(ps, plan, t, provider) == 0
  {
    var plan := Matching(ps, table, listing);
    MatchingIsGreedy(ps, table, listing);
    WrittenExactly(ps, plan, table, provider);
    WritesKeepNames(ps, plan, table, provider);
    var t := Written(ps, plan, table, provider);
    MatchingSameNames(ps, table, t, listing);
    RewriteIsIdle(ps, plan, t, provider);
  }

  // ----- What a sync does, node by node -----

  /** A record is about a node if its host name or its provider's id is the node's host name
      or the node's id. */
  predicate AboutNode(p: NetworkRecord, id: string, hostname: string) {
    hostname == p.hostname || hostname == p.providerNodeId || id == p.hostname || id == p.providerNodeId
  }

  /** The node at place `k` of the list could be linked to record `i`. */
  ghost predicate Available(ps: seq<NetworkRecord>, table: Table, listing: seq<string>, plan: Plan, i: nat, k: int)
    requires i < |ps| == |plan|
  {
    && 0 <= k < |listing| && listing[k] in table
    && AboutNode(ps[i], listing[k], table[listing[k]].hostname) && !TakenBefore(plan, i, listing[k])
  }

  /** Each record, in order, gets the first node of the list that it is about and that no
      earlier record has; or none if there is none. */
  ghost predicate FirstComeFirstServed(ps: seq<NetworkRecord>, table: Table, listing: seq<string>, plan: Plan) {
    && |plan| == |ps|
    && forall i: nat | i < |ps| ::
         match plan[i]
         case None => forall k :: !Available(ps, table, listing, plan, i, k)
         case Some(id) => exists k ::
           && Available(ps, table, listing, plan, i, k) && listing[k] == id
           && forall j | 0 <= j < k :: !Available(ps, table, listing, plan, i, j)
  }

  /** A linked node shows provider, id, address, tags and presence of its record, and keeps
      host name and all else; a node without a record keeps everything. */
  ghost predicate NodesLinked(ps: seq<NetworkRecord>, plan: Plan, table: Table, provider: string, t: Table)
    requires |plan| == |ps|
  {
    && t.Keys == table.Keys
    && (forall i | 0 <= i < |plan| && plan[i].Some? ::
          && plan[i].value in table
          && t[plan[i].value] == NodeRow(table[plan[i].value].hostname, table[plan[i].value].rest,
                                         Link(provider, ps[i].providerNodeId, ps[i].ip, ps[i].tags, ps[i].online)))
    && (forall id | id in table && !TakenBefore(plan, |plan|, id) :: t[id] == table[id])
  }

  /** `names` are the records without a node, in order, by host name or else by their id. */
  ghost predicate LeftOver(ps: seq<NetworkRecord>, plan: Plan, names: seq<string>, places: seq<nat>)
    requires |plan| == |ps|
  {
    && |names| == |places|
    && (forall k: nat | k < |places| :: LeftAt(ps, plan, names[k], places[k]))
    && (forall k, l | 0 <= k < l < |places| :: places[k] < places[l])
    && (forall i: nat | i < |plan| && plan[i].None? :: i in places)
  }

  predicate LeftAt(ps: seq<NetworkRecord>, plan: Plan, name: string, place: nat) {
    && place < |plan| == |ps| && plan[place].None?
    && name == if ps[place].hostname != "" then ps[place].hostname else ps[place].providerNodeId
  }

  /** One sync: matching, table and the reported totals. */
  ghost predicate Synced(ps: seq<NetworkRecord>, listing: seq<string>, provider: string, table: Table, t: Table, result: SyncResult) {
    exists plan, places ::
      && FirstComeFirstServed(ps, table, listing, plan)
      && NodesLinked(ps, plan, table, provider, t)
      && LeftOver(ps, plan, result.unmatched, places)
      && result.provider == provider
      && result.linked + |result.unmatched| == |ps|
      && result.updated == |ChangedIds(table, t)|
  }

  lemma TakenIsBefore(plan: Plan, i: nat, id: string)
    requires i <= |plan|
    ensures id in Taken(plan[..i]) <==> TakenBefore(plan, i, id)
  {
    if id in Taken(plan[..i]) {
      var k :| 0 <= k < i && plan[..i][k].Some? && plan[..i][k].value == id;
      assert plan[k] == Some(id);
    }
    if TakenBefore(plan, i, id) {
      var k: int :| 0 <= k < i && plan[k] == Some(id);
      assert plan[..i][k] == Some(id);
    }
  }

  lemma AvailableIs(ps: seq<NetworkRecord>, table: Table, listing: seq<string>, plan: Plan, i: nat, k: int)
    requires i < |ps| == |plan| && 0 <= k < |listing|
    ensures Available(ps, table, listing, plan, i, k) <==> Fits(ps[i], listing[k], table) && listing[k] !in Taken(plan[..i])
  {
    TakenIsBefore(plan, i, listing[k]);
  }

  lemma {:induction false} PickedFirst(p: NetworkRecord, table: Table, listing: seq<string>, taken: set<string>)
    ensures match Pick(p, table, listing, taken)
            case None => forall k | 0 <= k < |listing| :: !(Fits(p, listing[k], table) && listing[k] !in taken)
            case Some(id) => exists k :: FirstFit(p, table, listing, taken, k) && listing[k] == id
  {
    if listing != [] && listing[0] !in taken && Fits(p, listing[0], table) {
      assert FirstFit(p, table, listing, taken, 0);
    } else if listing != [] {
      PickedFirst(p, table, listing[1..], taken);
      assert forall j | 0 < j < |listing| :: listing[1..][j - 1] == listing[j];
      if Pick(p, table, listing[1..], taken).Some? {
        var k :| FirstFit(p, table, listing[1..], taken, k) && listing[1..][k] == Pick(p, table, listing[1..], taken).value;
        assert FirstFit(p, table, listing, taken, k + 1);
      }
    }
  }

  predicate FirstFit(p: NetworkRecord, table: Table, listing: seq<string>, taken: set<string>, k: int) {
    && 0 <= k < |listing| && Fits(p, listing[k], table) && listing[k] !in taken
    && forall j | 0 <= j < k :: !(Fits(p, listing[j], table) && listing[j] !in taken)
  }

  lemma RecordIsServed(ps: seq<NetworkRecord>, table: Table, listing: seq<string>, i: nat)
    requires i < |ps|
    ensures var plan := Matching(ps, table, listing);
            match plan[i]
            case None => forall k :: !Available(ps, table, listing, plan, i, k)
            case Some(id) => exists k ::
              && Available(ps, table, listing, plan, i, k) && listing[k] == id
              && forall j | 0 <= j < k :: !Available(ps, table, listing, plan, i, j)
  {
    var plan := Matching(ps, table, listing);
    PickAt(ps, table, listing, i);
    PickedFirst(ps[i], table, listing, Taken(plan[..i]));
    forall k | 0 <= k < |listing|
      ensures Available(ps, table, listing, plan, i, k) <==> Fits(ps[i], listing[k], table) && listing[k] !in Taken(plan[..i])
    {
      AvailableIs(ps, table, listing, plan, i, k);
    }
    if plan[i].Some? {
      var k :| FirstFit(ps[i], table, listing, Taken(plan[..i]), k) && listing[k] == plan[i].value;
      assert Available(ps, table, listing, plan, i, k);
    }
  }

  lemma {:induction false} UnmatchedIsLeftOver(ps: seq<NetworkRecord>, plan: Plan) returns (places: seq<nat>)
    requires |plan| == |ps|
    ensures LeftOver(ps, plan, Unmatched(ps, plan), places)
  {
    if plan == [] {
      places := [];
    } else {
      var last := |plan| - 1;
      var before := UnmatchedIsLeftOver(ps[..last], plan[..last]);
      places := before + if plan[last].None? then [last] else [];
      LeftOverStep(ps, plan, Unmatched(ps[..last], plan[..last]), before);
    }
  }

  lemma LeftOverStep(ps: seq<NetworkRecord>, plan: Plan, names: seq<string>, before: seq<nat>)
    requires |plan| == |ps| && plan != [] && LeftOver(ps[..|ps| - 1], plan[..|plan| - 1], names, before)
    ensures var last := |plan| - 1;
            LeftOver(ps, plan, names + (if plan[last].None? then [Label(ps[last])] else []), before + if plan[last].None? then [last] else [])
  {
    var last := |plan| - 1;
    var names', places := names + (if plan[last].None? then [Label(ps[last])] else []), before + if plan[last].None? then [last] else [];
    forall k: nat | k < |before| ensures before[k] < last && LeftAt(ps, plan, names[k], before[k]) {
      assert LeftAt(ps[..last], plan[..last], names[k], before[k]);
    }
    assert forall k: nat | k < |places| :: LeftAt(ps, plan, names'[k], places[k]);
    forall i: nat | i < |plan| && plan[i].None? ensures i in places {
      if i < last {
        assert plan[..last][i] == plan[i];
        assert i in before;
      } else {
        assert places[|before|] == last;
      }
    }
  }

  lemma SyncEffect(ps: seq<NetworkRecord>, table: Table, listing: seq<string>, provider: string)
    requires Enumerates(listing, table.Keys)
    ensures var plan := Matching(ps, table, listing);
            && Targets(plan, table)
            && Synced(ps, listing, provider, table, Written(ps, plan, table, provider),
                      SyncResult(provider, Linked(plan), Updated(ps, plan, table, provider), Unmatched(ps, plan)))
  {
    var plan := Matching(ps, table, listing);
    MatchingIsGreedy(ps, table, listing);
    forall i: nat | i < |ps|
      ensures match plan[i]
              case None => forall k :: !Available(ps, table, listing, plan, i, k)
              case Some(id) => exists k ::
                && Available(ps, table, listing, plan, i, k) && listing[k] == id
                && forall j | 0 <= j < k :: !Available(ps, table, listing, plan, i, j)
    {
      RecordIsServed(ps, table, listing, i);
    }
    WrittenExactly(ps, plan, table, provider);
    forall id | id in table && !TakenBefore(plan, |plan|, id) ensures id !in Taken(plan) {
      TakenIsBefore(plan, |plan|, id);
      assert plan[..|plan|] == plan;
    }
    var places := UnmatchedIsLeftOver(ps, plan);
    EveryRecordCounted(ps, plan);
    UpdatedCountsChanges(ps, plan, table, provider);
    assert FirstComeFirstServed(ps, table, listing, plan);
    assert NodesLinked(ps, plan, table, provider, Written(ps, plan, table, provider));
  }

  // ----- The command -----

  class HmnNode {
    const nodeId: string
    const hostname: string
    const rest: string
    var link: Link

    constructor (nodeId: string, row: NodeRow)
      ensures this.nodeId == nodeId && Row() == row
    {
      this.nodeId, hostname, rest, link := nodeId, row.hostname, row.rest, row.link;
    }

    function Row(): NodeRow
      reads this
    {
      NodeRow(hostname, rest, link)
    }
  }

  datatype SyncResult = SyncResult(provider: string, linked: nat, updated: nat, unmatched: seq<string>)

  class SyncStore {
    var rows: Table
    var audit: seq<SyncResult>

    /** Fresh objects, one a row, in the order of `listing`. */
    method Load(listing: seq<string>) returns (nodes: seq<HmnNode>)
      requires Enumerates(listing, rows.Keys)
      ensures fresh(nodes)
      ensures Mirrors(nodes, listing, rows)
    {
      nodes := [];
      var i := 0;
      while i < |listing|
        invariant 0 <= i <= |listing| && fresh(nodes)
        invariant Mirrors(nodes, listing[..i], rows)
      {
        assert listing[i] in listing;
        var node := new HmnNode(listing[i], rows[listing[i]]);
        nodes := nodes + [node];
        i := i + 1;
      }
      assert listing[..i] == listing;
    }

    /** `listing`: the node ids as `ORDER BY hostname` gives them. */
    method SyncNetworkNodes(records: seq<NetworkRecord>, provider: string, listing: seq<string>) returns (result: SyncResult)
      requires Enumerates(listing, rows.Keys)
      modifies this
      ensures var plan := Matching(records, old(rows), listing);
              && Targets(plan, old(rows))
              && rows == Written(records, plan, old(rows), provider)
              && result == SyncResult(provider, Linked(plan), Updated(records, plan, old(rows), provider), Unmatched(records, plan))
      ensures Synced(records, listing, provider, old(rows), rows, result)
      ensures audit == old(audit) + [result]
    {
      SyncEffect(records, rows, listing, provider);
      result := LinkAll(records, provider, listing);
      audit := audit + [result];
    }

    /** The loop over the provider's records. */
    method LinkAll(records: seq<NetworkRecord>, provider: string, listing: seq<string>) returns (result: SyncResult)
      requires Enumerates(listing, rows.Keys)
      modifies this`rows
      ensures var plan := Matching(records, old(rows), listing);
              && Targets(plan, old(rows))
              && rows == Written(records, plan, old(rows), provider)
              && result == SyncResult(provider, Linked(plan), Updated(records, plan, old(rows), provider), Unmatched(records, plan))
    {
      ghost var before := rows;
      var nodes := Load(listing);
      var linked, updated, unmatched := 0, 0, [];
      var matched: set<string> := {};
      ghost var plan := Matching(records, before, listing);
      assert Targets(plan, before) by { MatchingIsGreedy(records, before, listing); }
      var i := 0;
      while i < |records|
        invariant 0 <= i <= |records|
        invariant fresh(nodes) && Mirrors(nodes, listing, rows)
        invariant SameNames(before, rows)
        invariant Targets(plan[..i], before)
        invariant Tally(linked, updated, unmatched, matched, rows) == TallyOf(records[..i], plan[..i], before, provider)
      {
        NextRecord(records, before, rows, listing, provider, i);
        linked, updated, unmatched, matched := CountRecord(nodes, listing, records[i], provider, linked, updated, unmatched, matched);
        i := i + 1;
      }
      assert plan[..i] == plan && records[..i] == records;
      result := SyncResult(provider, linked, updated, unmatched);
    }

    /** One turn of the loop, with its counters. */
    method CountRecord(nodes: seq<HmnNode>, listing: seq<string>, record: NetworkRecord, provider: string,
                       linked: nat, updated: nat, unmatched: seq<string>, matched: set<string>)
      returns (linked': nat, updated': nat, unmatched': seq<string>, matched': set<string>)
      requires Mirrors(nodes, listing, rows)
      modifies this`rows, nodes
      ensures Mirrors(nodes, listing, rows) && SameNames(old(rows), rows)
      ensures var pick := Pick(record, old(rows), listing, matched);
              Tally(linked', updated', unmatched', matched', rows) ==
              Advance(Tally(linked, updated, unmatched, matched, old(rows)), record, pick, provider)
    {
      linked', updated', unmatched', matched' := linked, updated, unmatched, matched;
      var pick, changed := SyncRecord(nodes, listing, record, provider, matched);
      if pick.None? {
        unmatched' := unmatched + [Label(record)];
      } else {
        matched' := matched + {pick.value};
        linked' := linked + 1;
        if changed {
          updated' := updated + 1;
        }
      }
    }

    /** Find the record's node, relink it, and save it if that changed anything. */
    method SyncRecord(nodes: seq<HmnNode>, listing: seq<string>, record: NetworkRecord, provider: string, matched: set<string>)
      returns (pick: Option<string>, changed: bool)
      requires Mirrors(nodes, listing, rows)
      modifies this`rows, nodes
      ensures Mirrors(nodes, listing, rows) && SameNames(old(rows), rows)
      ensures pick == Pick(record, old(rows), listing, matched)
      ensures rows == if pick.None? then old(rows)
                      else old(rows)[pick.value := old(rows)[pick.value].(link := LinkOf(record, provider))]
      ensures changed <==> pick.Some? && old(rows)[pick.value].link != LinkOf(record, provider)
    {
      var found := FindTarget(nodes, listing, record, matched);
      if found.None? {
        return None, false;
      }
      var target := nodes[found.value];
      pick := Some(target.nodeId);
      changed := Relink(target, record, provider);
      if changed {
        rows := rows[target.nodeId := target.Row()];
      }
      assert rows == old(rows)[target.nodeId := target.Row()];
      assert forall i | 0 <= i < |nodes| && i != found.value :: nodes[i].nodeId != target.nodeId;
    }

    method Relink(target: HmnNode, record: NetworkRecord, provider: string) returns (changed: bool)
      modifies target
      ensures target.Row() == old(target.Row()).(link := LinkOf(record, provider))
      ensures changed <==> target.Row() != old(target.Row())
    {
      var before := target.link;
      target.link := Link(provider, record.providerNodeId, record.ip, record.tags, record.online);
      changed := before != target.link;
    }

    method FindTarget(nodes: seq<HmnNode>, listing: seq<string>, record: NetworkRecord, matched: set<string>) returns (found: Option<nat>)
      requires Mirrors(nodes, listing, rows)
      ensures found.Some? ==> found.value < |nodes|
      ensures Pick(record, rows, listing, matched) == if found.None? then None else Some(nodes[found.value].nodeId)
    {
      var i := 0;
      assert listing[i..] == listing;
      while i < |nodes|
        invariant 0 <= i <= |nodes|
        invariant Pick(record, rows, listing, matched) == Pick(record, rows, listing[i..], matched)
      {
        if nodes[i].nodeId !in matched && Matches(record, nodes[i].nodeId, nodes[i].hostname) {
          return Some(i);
        }
        assert listing[i..][1..] == listing[i + 1..];
        i := i + 1;
      }
      found := None;
    }
  }

  /** The objects stand for the rows, in order. */
  ghost predicate Mirrors(nodes: seq<HmnNode>, listing: seq<string>, rows: Table)
    reads nodes
  {
    && |nodes| == |listing|
    && (forall i | 0 <= i < |nodes| :: nodes[i].nodeId == listing[i] && listing[i] in rows && nodes[i].Row() == rows[listing[i]])
    && (forall i, j | 0 <= i < j < |listing| :: listing[i] != listing[j])
  }

  /** The sync's running totals and the table. */
  datatype Tally = Tally(linked: nat, updated: nat, unmatched: seq<string>, matched: set<string>, rows: Table)

  function TallyOf(ps: seq<NetworkRecord>, plan: Plan, table: Table, provider: string): Tally
    requires |plan| == |ps| && Targets(plan, table)
  {
    Tally(Linked(plan), Updated(ps, plan, table, provider), Unmatched(ps, plan), Taken(plan), Written(ps, plan, table, provider))
  }

  function Advance(t: Tally, p: NetworkRecord, pick: Option<string>, provider: string): Tally
    requires pick.Some? ==> pick.value in t.rows
  {
    match pick
    case None => t.(unmatched := t.unmatched + [Label(p)])
    case Some(id) =>
      Tally(t.linked + 1, t.updated + (if t.rows[id].link == LinkOf(p, provider) then 0 else 1), t.unmatched,
            t.matched + {id}, t.rows[id := t.rows[id].(link := LinkOf(p, provider))])
  }

  /** One more record, spelled out. */
  lemma StepForward(ps: seq<NetworkRecord>, plan: Plan, table: Table, provider: string, i: nat)
    requires |plan| == |ps| && i < |ps| && Targets(plan, table)
    ensures Targets(plan[..i], table) && Targets(plan[..i + 1], table)
    ensures plan[i].Some? ==> plan[i].value in table
    ensures TallyOf(ps[..i + 1], plan[..i + 1], table, provider) ==
            Advance(TallyOf(ps[..i], plan[..i], table, provider), ps[i], plan[i], provider)
  {
    assert plan[..i + 1][..i] == plan[..i] && ps[..i + 1][..i] == ps[..i];
    TakenStep(plan, i);
  }

  lemma NextRecord(ps: seq<NetworkRecord>, table: Table, rows: Table, listing: seq<string>, provider: string, i: nat)
    requires i < |ps| && Targets(Matching(ps, table, listing), table) && SameNames(table, rows)
    ensures var plan := Matching(ps, table, listing);
            && Targets(plan[..i], table) && Targets(plan[..i + 1], table)
            && plan[i] == Pick(ps[i], rows, listing, Taken(plan[..i]))
            && (plan[i].Some? ==> plan[i].value in table)
            && TallyOf(ps[..i + 1], plan[..i + 1], table, provider) ==
               Advance(TallyOf(ps[..i], plan[..i], table, provider), ps[i], plan[i], provider)
  {
    var plan := Matching(ps, table, listing);
    PickAt(ps, table, listing, i);
    PickSameNames(ps[i], table, rows, listing, Taken(plan[..i]));
    StepForward(ps, plan, table, provider, i);
  }

  lemma TakenStep(plan: Plan, i: nat)
    requires i < |plan|
    ensures Taken(plan[..i + 1]) == Taken(plan[..i]) + if plan[i].Some? then {plan[i].value} else {}
  {
    var more := plan[..i + 1];
    assert more[..i] == plan[..i];
    TakenGrows(more, i);
    forall id | id in Taken(more) ensures id in Taken(plan[..i]) || plan[i] == Some(id) {
      var k :| 0 <= k < |more| && more[k].Some? && more[k].value == id;
      if k < i { assert plan[..i][k] == more[k]; }
    }
    if plan[i].Some? { assert more[i].value in Taken(more); }
  }
}
