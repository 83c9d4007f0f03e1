// From parsed records to the list of services on a node: records of one service are
// merged, then the reverse-proxy routes are bound to whoever owns their port.
module ServiceDiscovery {
  import opened Basics
  import opened Text
  import opened MergeAlgebra

  datatype ServiceRecord = ServiceRecord(
    serviceId: string, name: string, nodeId: string, kind: string, runtime: string, domains: seq<string>,
    ports: seq<int>, deployPath: string, configPaths: seq<string>, envPaths: seq<string>, dataPaths: seq<string>,
    healthCheckUrl: string, monitorEnabled: bool, docsPath: string, source: string, status: string, metadata: Metadata)

  type Records = map<string, ServiceRecord>

  // A Python dict: its keys in order of insertion, and its values.
  datatype Dict = Dict(order: seq<string>, rows: Records)

  const EMPTY := Dict([], map[])

  ghost predicate WellFormed(d: Dict) {
    && Enumerates(d.order, d.rows.Keys)
    && forall id | id in d.rows :: d.rows[id].serviceId == id && PortsListed(d.rows[id].metadata)
  }

  // ----- Merging -----

  function Combine(existing: ServiceRecord, record: ServiceRecord): ServiceRecord
    requires PortsListed(existing.metadata)
  {
    existing.(domains := MergeStrings(existing.domains, record.domains),
              ports := MergeInts(existing.ports, record.ports),
              deployPath := Prefer(existing.deployPath, record.deployPath, ""),
              configPaths := MergeStrings(existing.configPaths, record.configPaths),
              envPaths := MergeStrings(existing.envPaths, record.envPaths),
              dataPaths := MergeStrings(existing.dataPaths, record.dataPaths),
              healthCheckUrl := Prefer(existing.healthCheckUrl, record.healthCheckUrl, ""),
              metadata := MergeMetadata(existing.metadata, record.metadata))
  }

  function AddOrMerge(d: Dict, record: ServiceRecord): Dict
    requires record.serviceId in d.rows ==> PortsListed(d.rows[record.serviceId].metadata)
  {
    if record.serviceId !in d.rows then Dict(d.order + [record.serviceId], d.rows[record.serviceId := record])
    else d.(rows := d.rows[record.serviceId := Combine(d.rows[record.serviceId], record)])
  }

  /** A parser lists a record's listening sockets, and lists its ports sorted and once. */
  predicate Parsed(r: ServiceRecord) {
    PortsListed(r.metadata) && StrictlyIncreasing(r.ports)
  }

  predicate AllParsed(parsed: seq<ServiceRecord>) {
    forall i | 0 <= i < |parsed| :: Parsed(parsed[i])
  }

  ghost function Aggregate(parsed: seq<ServiceRecord>): (d: Dict)
    requires AllParsed(parsed)
    ensures WellFormed(d)
  {
    if parsed == [] then EMPTY
    else
      assert Parsed(parsed[|parsed| - 1]);
      var before := Aggregate(parsed[..|parsed| - 1]);
      AddKeepsWellFormed(before, parsed[|parsed| - 1]);
      AddOrMerge(before, parsed[|parsed| - 1])
  }

  lemma AddKeepsWellFormed(d: Dict, record: ServiceRecord)
    requires WellFormed(d) && Parsed(record)
    ensures WellFormed(AddOrMerge(d, record))
  {
  }

  // ----- Aggregation is exact -----

  ghost predicate Reported(parsed: seq<ServiceRecord>, id: string, port: int) {
    exists i :: 0 <= i < |parsed| && parsed[i].serviceId == id && port in parsed[i].ports
  }

  ghost predicate Lists(records: seq<ServiceRecord>, id: string) {
    exists i :: 0 <= i < |records| && records[i].serviceId == id
  }

  ghost predicate FirstOf(parsed: seq<ServiceRecord>, i: int) {
    0 <= i < |parsed| && forall k | 0 <= k < i :: parsed[k].serviceId != parsed[i].serviceId
  }

  ghost predicate SameIdentity(a: ServiceRecord, b: ServiceRecord) {
    a.name == b.name && a.nodeId == b.nodeId && a.kind == b.kind && a.runtime == b.runtime &&
    a.monitorEnabled == b.monitorEnabled && a.docsPath == b.docsPath && a.source == b.source && a.status == b.status
  }

  /** A service is listed once some record names it; its ports are the sorted union of
      the ports of all its records; the rest is what the first of them said. */
  lemma {:induction false} AggregationIsExact(parsed: seq<ServiceRecord>, id: string)
    requires AllParsed(parsed)
    ensures id in Aggregate(parsed).rows <==> Lists(parsed, id)
    ensures id in Aggregate(parsed).rows ==>
              && StrictlyIncreasing(Aggregate(parsed).rows[id].ports)
              && (forall port :: port in Aggregate(parsed).rows[id].ports <==> Reported(parsed, id, port))
  {
    if parsed != [] {
      var last := |parsed| - 1;
      var init := parsed[..last];
      AggregationIsExact(init, id);
      forall port
        ensures Reported(parsed, id, port) <==>
                  Reported(init, id, port) || (parsed[last].serviceId == id && port in parsed[last].ports)
      {
        ReportedStep(parsed, id, port);
      }
      ListsStep(parsed, id);
      if id !in Aggregate(init).rows {
        assert forall port :: !Reported(init, id, port);
      }
    }
  }

  lemma ListsStep(parsed: seq<ServiceRecord>, id: string)
    requires parsed != []
    ensures var last := |parsed| - 1; Lists(parsed, id) <==> Lists(parsed[..last], id) || parsed[last].serviceId == id
  {
    var last := |parsed| - 1;
    if Lists(parsed[..last], id) {
      var i :| 0 <= i < last && parsed[..last][i].serviceId == id;
      assert parsed[i].serviceId == id;
    }
    if Lists(parsed, id) {
      var i :| 0 <= i < |parsed| && parsed[i].serviceId == id;
      if i < last { assert parsed[..last][i].serviceId == id; }
    }
  }

  lemma ReportedStep(parsed: seq<ServiceRecord>, id: string, port: int)
    requires parsed != []
    ensures var last := |parsed| - 1;
            Reported(parsed, id, port) <==>
              Reported(parsed[..last], id, port) || (parsed[last].serviceId == id && port in parsed[last].ports)
  {
    var last := |parsed| - 1;
    if Reported(parsed[..last], id, port) {
      var i :| 0 <= i < last && parsed[..last][i].serviceId == id && port in parsed[..last][i].ports;
      assert parsed[i] == parsed[..last][i];
    }
    if Reported(parsed, id, port) {
      var i :| 0 <= i < |parsed| && parsed[i].serviceId == id && port in parsed[i].ports;
      if i < last { assert parsed[..last][i] == parsed[i]; }
    }
  }

  /** What is known so far keeps its identity; a newcomer brings its own. */
  ghost predicate Identified(d: Dict, r: ServiceRecord) {
    r.serviceId in d.rows && SameIdentity(d.rows[r.serviceId], r)
  }

  lemma AddKeepsIdentity(d: Dict, record: ServiceRecord, r: ServiceRecord)
    requires WellFormed(d) && Parsed(record)
    requires Identified(d, r) || (r == record && r.serviceId !in d.rows)
    ensures Identified(AddOrMerge(d, record), r)
  {
  }

  lemma {:induction false} FirstRecordNamesIt(parsed: seq<ServiceRecord>, i: nat)
    requires AllParsed(parsed) && i < |parsed| && FirstOf(parsed, i)
    ensures Identified(Aggregate(parsed), parsed[i])
    decreases |parsed|
  {
    var last := |parsed| - 1;
    var init := parsed[..last];
    if i < last {
      FirstOfPrefix(parsed, i, last);
      FirstRecordNamesIt(init, i);
    } else {
      FirstIsNew(parsed);
    }
    assert Parsed(parsed[last]);
    AddKeepsIdentity(Aggregate(init), parsed[last], parsed[i]);
  }

  lemma FirstOfPrefix(parsed: seq<ServiceRecord>, i: nat, k: nat)
    requires i < k <= |parsed| && FirstOf(parsed, i)
    ensures FirstOf(parsed[..k], i) && parsed[..k][i] == parsed[i]
  {
    assert forall j | 0 <= j < k :: parsed[..k][j] == parsed[j];
  }

  lemma FirstIsNew(parsed: seq<ServiceRecord>)
    requires AllParsed(parsed) && parsed != [] && FirstOf(parsed, |parsed| - 1)
    ensures parsed[|parsed| - 1].serviceId !in Aggregate(parsed[..|parsed| - 1]).rows
  {
    var init, id := parsed[..|parsed| - 1], parsed[|parsed| - 1].serviceId;
    AggregationIsExact(init, id);
    assert forall k | 0 <= k < |init| :: init[k] == parsed[k];
  }

  // ----- Reverse-proxy routes -----

  datatype Route = Route(domain: string, port: int, url: string, source: string, scope: string)

  /** The first record, in dict order, that has the port. */
  function Owner(order: seq<string>, rows: Records, port: int): (id: Option<string>)
    requires forall i | 0 <= i < |order| :: order[i] in rows
    ensures id.Some? ==> id.value in order && id.value in rows && port in rows[id.value].ports
    ensures id.None? ==> forall other | other in order :: port !in rows[other].ports
  {
    if order == [] then None
    else if port in rows[order[0]].ports then Some(order[0])
    else Owner(order[1..], rows, port)
  }

  function OwnerIn(d: Dict, port: int): Option<string> {
    if forall i | 0 <= i < |d.order| :: d.order[i] in d.rows then Owner(d.order, d.rows, port) else None
  }

  function BindMetadata(m: Metadata, r: Route): Metadata
    requires PortsListed(m)
  {
    var proxied := MergeMetadata(m, map[
      "reverse_proxy" := JObject(map["source" := JString(r.source), "domain" := JString(r.domain), "target_port" := JInt(r.port)]),
      "exposure" := JObject(map["scope" := JString(r.scope)])]);
    if r.url == "" then proxied
    else MergeMetadata(proxied, map["health_check" := JObject(map["source" := JString(r.source)])])
  }

  function Bound(record: ServiceRecord, r: Route): ServiceRecord
    requires PortsListed(record.metadata)
  {
    record.(domains := MergeStrings(record.domains, [r.domain]),
            healthCheckUrl := Prefer(record.healthCheckUrl, r.url, ""),
            metadata := BindMetadata(record.metadata, r))
  }

  /** Every route is bound to the record as it was before the first of them. */
  ghost function Enriched(d: Dict, routes: seq<Route>): (rows: Records)
    requires WellFormed(d)
    ensures rows.Keys == d.rows.Keys
  {
    if routes == [] then d.rows
    else
      var rows, r := Enriched(d, routes[..|routes| - 1]), routes[|routes| - 1];
      match OwnerIn(d, r.port)
      case None => rows
      case Some(id) => OwnerKnown(d, r.port); rows[id := Bound(d.rows[id], r)]
  }

  lemma OwnerKnown(d: Dict, port: int)
    ensures OwnerIn(d, port).Some? ==> OwnerIn(d, port).value in d.rows
  {
  }

  ghost function LastRouteTo(d: Dict, routes: seq<Route>, id: string): Option<Route> {
    if routes == [] then None
    else if OwnerIn(d, routes[|routes| - 1].port) == Some(id) then Some(routes[|routes| - 1])
    else LastRouteTo(d, routes[..|routes| - 1], id)
  }

  /** A record ends as its last route left it: earlier routes to it are lost. */
  lemma {:induction false} LastRouteWins(d: Dict, routes: seq<Route>, id: string)
    requires WellFormed(d) && id in d.rows
    ensures Enriched(d, routes)[id] ==
            match LastRouteTo(d, routes, id)
            case None => d.rows[id]
            case Some(r) => Bound(d.rows[id], r)
  {
    if routes != [] {
      LastRouteWins(d, routes[..|routes| - 1], id);
    }
  }

  /** Enrichment adds no service, drops none, and moves no port. */
  lemma EnrichmentKeepsPorts(d: Dict, routes: seq<Route>, id: string)
    requires WellFormed(d) && id in d.rows
    ensures Enriched(d, routes).Keys == d.rows.Keys
    ensures Enriched(d, routes)[id].serviceId == id && Enriched(d, routes)[id].ports == d.rows[id].ports
    ensures SameIdentity(Enriched(d, routes)[id], d.rows[id]) && PortsListed(Enriched(d, routes)[id].metadata)
  {
    LastRouteWins(d, routes, id);
  }

  /** A route's domain ends up on its target exactly if the target had it before or the
      last route to that target carries it too. */
  lemma DomainKept(d: Dict, routes: seq<Route>, i: nat, id: string)
    requires WellFormed(d) && i < |routes| && OwnerIn(d, routes[i].port) == Some(id) && Stripped(routes[i].domain)
    ensures id in d.rows && LastRouteTo(d, routes, id).Some?
    ensures routes[i].domain in Enriched(d, routes)[id].domains <==>
              Names(d.rows[id].domains, routes[i].domain) || Strip(LastRouteTo(d, routes, id).value.domain) == routes[i].domain
  {
    OwnerKnown(d, routes[i].port);
    LastRouteExists(d, routes, i, id);
    LastRouteWins(d, routes, id);
    var last := LastRouteTo(d, routes, id).value;
    MergeStringsNames(d.rows[id].domains, [last.domain], routes[i].domain);
    if Strip(last.domain) == routes[i].domain { assert Strip([last.domain][0]) == routes[i].domain; }
  }

  lemma {:induction false} LastRouteExists(d: Dict, routes: seq<Route>, i: nat, id: string)
    requires i < |routes| && OwnerIn(d, routes[i].port) == Some(id)
    ensures LastRouteTo(d, routes, id).Some?
  {
    if i < |routes| - 1 {
      LastRouteExists(d, routes[..|routes| - 1], i, id);
    }
  }

  /** Two routes to one port: the second domain replaces the first. */
  lemma SecondDomainReplacesFirst(record: ServiceRecord, port: int, first: Route, second: Route)
    requires Parsed(record) && record.ports == [port] && record.domains == []
    requires first.port == port && second.port == port && Stripped(first.domain) && Stripped(second.domain)
    requires first.domain != second.domain
    ensures AllParsed([record])
    ensures record.serviceId in Enriched(Aggregate([record]), [first, second])
    ensures Enriched(Aggregate([record]), [first, second])[record.serviceId].domains == [second.domain]
  {
    var d := Aggregate([record]);
    AggregateOne(record);
    assert port in record.ports;
    LastRouteWins(d, [first, second], record.serviceId);
    assert LastRouteTo(d, [first, second], record.serviceId) == Some(second);
    OneName(second.domain);
  }

  lemma AggregateOne(record: ServiceRecord)
    requires Parsed(record)
    ensures Aggregate([record]) == Dict([record.serviceId], map[record.serviceId := record])
  {
    var parsed := [record];
    assert parsed[..|parsed| - 1] == [];
  }

  lemma OneName(name: string)
    requires Stripped(name)
    ensures MergeStrings([], [name]) == [name]
  {
    var names := [] + [name];
    assert names == [name] && names[..|names| - 1] == [];
    StripStrips(name);
    assert Strip(names[|names| - 1]) == name && Distinct(names[..|names| - 1]) == [];
  }

  // ----- Discovery as the code runs it -----

  /** `dict.setdefault` over the records and their ports. */
  method PortIndex(d: Dict) returns (index: map<int, string>)
    requires WellFormed(d)
    ensures forall port :: (if port in index then Some(index[port]) else None) == OwnerIn(d, port)
  {
    index := map[];
    var i := 0;
    assert d.order[..0] == [];
    assert forall k | 0 <= k < |d.order| :: d.order[k] in d.order;
    while i < |d.order|
      invariant 0 <= i <= |d.order|
      invariant forall port :: (if port in index then Some(index[port]) else None) == Owner(d.order[..i], d.rows, port)
    {
      var id := d.order[i];
      index := AddPorts(index, id, d.rows[id].ports);
      forall port ensures (if port in index then Some(index[port]) else None) == Owner(d.order[..i + 1], d.rows, port) {
        OwnerAppend(d.order[..i], id, d.rows, port);
        assert d.order[..i + 1] == d.order[..i] + [id];
      }
      i := i + 1;
    }
    assert d.order[..i] == d.order;
  }

  /** The ports of one record: a port that is taken stays with its owner. */
  method AddPorts(before: map<int, string>, id: string, ports: seq<int>) returns (index: map<int, string>)
    ensures forall port :: port in index <==> port in before || port in ports
    ensures forall port | port in index :: index[port] == if port in before then before[port] else id
  {
    index := before;
    var k := 0;
    while k < |ports|
      invariant 0 <= k <= |ports|
      invariant forall port :: port in index <==> port in before || port in ports[..k]
      invariant forall port | port in index :: index[port] == if port in before then before[port] else id
    {
      if ports[k] !in index {
        index := index[ports[k] := id];
      }
      k := k + 1;
    }
    assert ports[..k] == ports;
  }

  lemma {:induction false} OwnerAppend(order: seq<string>, id: string, rows: Records, port: int)
    requires (forall i | 0 <= i < |order| :: order[i] in rows) && id in rows
    ensures Owner(order + [id], rows, port) ==
            if Owner(order, rows, port).Some? then Owner(order, rows, port)
            else if port in rows[id].ports then Some(id) else None
  {
    var more := order + [id];
    if order == [] {
      assert more[0] == id && more[1..] == [];
    } else {
      assert more[0] == order[0] && more[1..] == order[1..] + [id];
      OwnerAppend(order[1..], id, rows, port);
    }
  }

  /** `discover_services_from_text`, given what the parsers and the route patterns found. */
  method Discover(parsed: seq<ServiceRecord>, routes: seq<Route>) returns (found: seq<ServiceRecord>)
    requires AllParsed(parsed)
    ensures Discovered(parsed, routes, found)
  {
    var records := AggregateRecords(parsed);
    var rows := BindRoutes(records, routes);
    ByIdIsTotal();
    var ids := OrderBy(rows.Keys, ById);
    found := [];
    var i := 0;
    while i < |ids|
      invariant 0 <= i <= |ids| && |found| == i
      invariant forall k | 0 <= k < i :: ids[k] in rows && found[k] == rows[ids[k]]
    {
      assert ids[i] in ids;
      found := found + [rows[ids[i]]];
      i := i + 1;
    }
    IdsAscend(ids, rows.Keys);
    ListingIsDiscovery(parsed, routes, ids, found);
  }

  method AggregateRecords(parsed: seq<ServiceRecord>) returns (records: Dict)
    requires AllParsed(parsed)
    ensures records == Aggregate(parsed)
  {
    records := EMPTY;
    var i := 0;
    while i < |parsed|
      invariant 0 <= i <= |parsed|
      invariant records == Aggregate(parsed[..i])
    {
      assert parsed[..i + 1][..i] == parsed[..i];
      records := AddOrMerge(records, parsed[i]);
      i := i + 1;
    }
    assert parsed[..i] == parsed;
  }

  method BindRoutes(records: Dict, routes: seq<Route>) returns (rows: Records)
    requires WellFormed(records)
    ensures rows == Enriched(records, routes)
  {
    var index := PortIndex(records);
    rows := records.rows;
    var i := 0;
    while i < |routes|
      invariant 0 <= i <= |routes|
      invariant rows == Enriched(records, routes[..i])
    {
      EnrichedStep(records, routes, i);
      if routes[i].port in index {
        var target := records.rows[index[routes[i].port]];
        rows := rows[target.serviceId := Bound(target, routes[i])];
      }
      i := i + 1;
    }
    assert routes[..i] == routes;
  }

  lemma EnrichedStep(d: Dict, routes: seq<Route>, i: nat)
    requires WellFormed(d) && i < |routes|
    ensures var owner := OwnerIn(d, routes[i].port);
            && (owner.Some? ==> owner.value in d.rows && d.rows[owner.value].serviceId == owner.value)
            && Enriched(d, routes[..i + 1]) ==
                 if owner.None? then Enriched(d, routes[..i])
                 else Enriched(d, routes[..i])[owner.value := Bound(d.rows[owner.value], routes[i])]
  {
    assert routes[..i + 1][..i] == routes[..i];
    OwnerKnown(d, routes[i].port);
  }

  predicate ById(a: string, b: string) {
    NotAfter(a, b)
  }

  /** The ids ascend strictly, they are the parsed ids, and each record has the ports that
      were reported for it, strictly increasing. */
  ghost predicate Discovered(parsed: seq<ServiceRecord>, routes: seq<Route>, found: seq<ServiceRecord>)
    requires AllParsed(parsed)
  {
    && (forall i, j | 0 <= i < j < |found| :: Precedes(found[i].serviceId, found[j].serviceId))
    && (forall id :: Lists(found, id) <==> Lists(parsed, id))
    && (forall i | 0 <= i < |found| :: Parsed(found[i]))
    && (forall i, port | 0 <= i < |found| :: port in found[i].ports <==> Reported(parsed, found[i].serviceId, port))
    && (forall i | 0 <= i < |found| ::
          found[i].serviceId in Aggregate(parsed).rows &&
          found[i] == Enriched(Aggregate(parsed), routes)[found[i].serviceId])
  }

  lemma ByIdIsTotal()
    ensures TotalPreorder(ById)
  {
    forall a, b ensures ById(a, b) || ById(b, a) { Total(a, b); }
    forall a, b, c | ById(a, b) && ById(b, c) ensures ById(a, c) {
      if a != b && b != c { Transitive(a, b, c); }
    }
  }

  lemma IdsAscend(ids: seq<string>, keys: set<string>)
    requires OrderedListing(ids, keys, ById)
    ensures forall i, j | 0 <= i < j < |ids| :: Precedes(ids[i], ids[j])
  {
    forall i, j | 0 <= i < j < |ids| ensures Precedes(ids[i], ids[j]) { assert ById(ids[i], ids[j]); }
  }

  lemma ListingIsDiscovery(parsed: seq<ServiceRecord>, routes: seq<Route>, ids: seq<string>, found: seq<ServiceRecord>)
    requires AllParsed(parsed)
    requires forall i, j | 0 <= i < j < |ids| :: Precedes(ids[i], ids[j])
    requires forall id :: id in ids <==> id in Aggregate(parsed).rows
    requires |found| == |ids|
    requires forall i | 0 <= i < |ids| :: ids[i] in Aggregate(parsed).rows && found[i] == Enriched(Aggregate(parsed), routes)[ids[i]]
    ensures Discovered(parsed, routes, found)
  {
    var d := Aggregate(parsed);
    forall i | 0 <= i < |found| ensures found[i].serviceId == ids[i] && Parsed(found[i])
      ensures forall port :: port in found[i].ports <==> Reported(parsed, found[i].serviceId, port)
    {
      EnrichmentKeepsPorts(d, routes, ids[i]);
      AggregationIsExact(parsed, ids[i]);
    }
    forall id ensures Lists(found, id) <==> Lists(parsed, id) {
      AggregationIsExact(parsed, id);
      if id in ids {
        var i :| 0 <= i < |ids| && ids[i] == id;
        assert found[i].serviceId == id;
      }
      if Lists(found, id) {
        var i :| 0 <= i < |found| && found[i].serviceId == id;
        assert ids[i] in ids;
      }
    }
  }
}
