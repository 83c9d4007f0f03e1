// Planning and applying discovered services against the `services` table. Applying twice
// is applying once, and the second plan says so.
module ServiceStore {
  import opened Basics
  import opened Text
  import opened MergeAlgebra
  import opened ServiceDiscovery
  import opened ServiceEffects

  type Time = int // microseconds on the UTC clock

  datatype Asset = Asset(score: int, category: string, why: seq<string>)

  // How the store scores a service; any function will do.
  type Classifier = ServiceRecord -> Asset

  datatype Row = Row(record: ServiceRecord, asset: Asset, createdAt: Time, updatedAt: Time)

  type Table = map<string, Row>

  const SOURCE_KEY := "discovery_source"

  predicate TableOk(t: Table) {
    forall id | id in t :: t[id].record.serviceId == id && PortsListed(t[id].record.metadata)
  }

  function LoadFrom(t: Table, id: string): Option<ServiceRecord> {
    if id in t then Some(t[id].record) else None
  }

  // ----- Saving -----

  function AssetFields(asset: Asset): Metadata {
    map["asset_score" := JInt(asset.score),
        "asset_category" := JString(asset.category),
        "why_asset" := JList(seq(|asset.why|, i requires 0 <= i < |asset.why| => JString(asset.why[i])))]
  }

  /** `setdefault` for the three asset keys. */
  function WithDefaults(m: Metadata, asset: Asset): Metadata {
    AssetFields(asset) + m
  }

  function SavedRecord(service: ServiceRecord, classify: Classifier): ServiceRecord {
    service.(metadata := WithDefaults(service.metadata, classify(service)))
  }

  function Save(t: Table, service: ServiceRecord, classify: Classifier, now: Time): Table {
    var createdAt := if service.serviceId in t then t[service.serviceId].createdAt else now;
    t[service.serviceId := Row(SavedRecord(service, classify), classify(service), createdAt, now)]
  }

  // ----- Planning -----

  datatype Field =
    | ServiceId | Name | NodeId | Kind | Runtime | Domains | Ports | DeployPath | ConfigPaths | EnvPaths | DataPaths
    | HealthCheckUrl | MonitorEnabled | DocsPath | Source | Status | Meta

  datatype Value =
    | TextValue(text: string) | ListValue(texts: seq<string>) | PortsValue(ports: seq<int>) | FlagValue(flag: bool)
    | MetaValue(meta: Metadata)

  type Snapshot = map<Field, Value>

  function FieldOf(r: ServiceRecord, f: Field): Value {
    match f
    case ServiceId => TextValue(r.serviceId)
    case Name => TextValue(r.name)
    case NodeId => TextValue(r.nodeId)
    case Kind => TextValue(r.kind)
    case Runtime => TextValue(r.runtime)
    case Domains => ListValue(r.domains)
    case Ports => PortsValue(r.ports)
    case DeployPath => TextValue(r.deployPath)
    case ConfigPaths => ListValue(r.configPaths)
    case EnvPaths => ListValue(r.envPaths)
    case DataPaths => ListValue(r.dataPaths)
    case HealthCheckUrl => TextValue(r.healthCheckUrl)
    case MonitorEnabled => FlagValue(r.monitorEnabled)
    case DocsPath => TextValue(r.docsPath)
    case Source => TextValue(r.source)
    case Status => TextValue(r.status)
    case Meta => MetaValue(r.metadata)
  }

  function SnapshotOf(r: ServiceRecord): Snapshot {
    map f: Field | true :: f := FieldOf(r, f)
  }

  datatype Delta = Delta(before: Option<Value>, after: Value)

  predicate Differs(before: Option<ServiceRecord>, after: ServiceRecord, f: Field) {
    before.None? || FieldOf(before.value, f) != FieldOf(after, f)
  }

  function Diff(before: Option<ServiceRecord>, after: ServiceRecord): map<Field, Delta> {
    map f: Field | Differs(before, after, f) ::
      f := Delta(if before.None? then None else Some(FieldOf(before.value, f)), FieldOf(after, f))
  }

  lemma SameTexts(a: ServiceRecord, b: ServiceRecord)
    requires forall f :: FieldOf(a, f) == FieldOf(b, f)
    ensures a.serviceId == b.serviceId && a.name == b.name && a.nodeId == b.nodeId && a.kind == b.kind && a.runtime == b.runtime
    ensures a.deployPath == b.deployPath && a.healthCheckUrl == b.healthCheckUrl && a.docsPath == b.docsPath
  {
    assert FieldOf(a, ServiceId) == FieldOf(b, ServiceId) && FieldOf(a, Name) == FieldOf(b, Name);
    assert FieldOf(a, NodeId) == FieldOf(b, NodeId) && FieldOf(a, Kind) == FieldOf(b, Kind);
    assert FieldOf(a, Runtime) == FieldOf(b, Runtime) && FieldOf(a, DeployPath) == FieldOf(b, DeployPath);
    assert FieldOf(a, HealthCheckUrl) == FieldOf(b, HealthCheckUrl) && FieldOf(a, DocsPath) == FieldOf(b, DocsPath);
  }

  lemma SameOthers(a: ServiceRecord, b: ServiceRecord)
    requires forall f :: FieldOf(a, f) == FieldOf(b, f)
    ensures a.domains == b.domains && a.ports == b.ports && a.configPaths == b.configPaths && a.envPaths == b.envPaths
    ensures a.dataPaths == b.dataPaths && a.monitorEnabled == b.monitorEnabled && a.source == b.source && a.status == b.status
    ensures a.metadata == b.metadata
  {
    assert FieldOf(a, Domains) == FieldOf(b, Domains) && FieldOf(a, Ports) == FieldOf(b, Ports);
    assert FieldOf(a, ConfigPaths) == FieldOf(b, ConfigPaths) && FieldOf(a, EnvPaths) == FieldOf(b, EnvPaths);
    assert FieldOf(a, DataPaths) == FieldOf(b, DataPaths) && FieldOf(a, MonitorEnabled) == FieldOf(b, MonitorEnabled);
    assert FieldOf(a, Source) == FieldOf(b, Source) && FieldOf(a, Status) == FieldOf(b, Status);
    assert FieldOf(a, Meta) == FieldOf(b, Meta);
  }

  /** A record has no diff against another exactly if it is the other. */
  lemma NoDiffMeansEqual(before: ServiceRecord, after: ServiceRecord)
    ensures Diff(Some(before), after) == map[] <==> before == after
  {
    if Diff(Some(before), after) == map[] {
      forall f: Field ensures FieldOf(before, f) == FieldOf(after, f) {
        assert f !in Diff(Some(before), after);
        assert !Differs(Some(before), after, f);
      }
      SameTexts(before, after);
      SameOthers(before, after);
    } else {
      var f :| f in Diff(Some(before), after);
      assert Differs(Some(before), after, f);
    }
  }

  datatype ChangeType = Create | Update | Unchanged

  datatype Change = Change(serviceId: string, change: ChangeType, before: Option<Snapshot>, after: Snapshot, diff: map<Field, Delta>)

  function OnNode(record: ServiceRecord, nodeId: string, source: string): ServiceRecord {
    record.(nodeId := if record.nodeId != "" then record.nodeId else nodeId, source := source)
  }

  /** What the table says stands, unless it says nothing; ports and metadata are merged. */
  function MergedService(existing: ServiceRecord, discovered: ServiceRecord, source: string): ServiceRecord
    requires PortsListed(existing.metadata)
  {
    existing.(
      name := Prefer(existing.name, discovered.name, ""),
      nodeId := Prefer(existing.nodeId, discovered.nodeId, ""),
      kind := Prefer(existing.kind, discovered.kind, ""),
      runtime := Prefer(existing.runtime, discovered.runtime, ""),
      domains := Prefer(existing.domains, discovered.domains, []),
      ports := MergeInts(existing.ports, discovered.ports),
      deployPath := Prefer(existing.deployPath, discovered.deployPath, ""),
      configPaths := Prefer(existing.configPaths, discovered.configPaths, []),
      envPaths := Prefer(existing.envPaths, discovered.envPaths, []),
      dataPaths := Prefer(existing.dataPaths, discovered.dataPaths, []),
      healthCheckUrl := Prefer(existing.healthCheckUrl, discovered.healthCheckUrl, ""),
      monitorEnabled := Prefer(existing.monitorEnabled, discovered.monitorEnabled, false),
      docsPath := Prefer(existing.docsPath, discovered.docsPath, ""),
      source := Prefer(existing.source, discovered.source, ""),
      status := Prefer(existing.status, discovered.status, ""),
      metadata := MergeMetadata(existing.metadata, discovered.metadata)[SOURCE_KEY := JString(source)])
  }

  function PlannedService(t: Table, record: ServiceRecord, nodeId: string, source: string): ServiceRecord
    requires record.serviceId in t ==> PortsListed(t[record.serviceId].record.metadata)
  {
    var discovered := OnNode(record, nodeId, source);
    match LoadFrom(t, record.serviceId)
    case Some(existing) => MergedService(existing, discovered, source)
    case None => discovered.(metadata := discovered.metadata[SOURCE_KEY := JString(source)])
  }

  function ChangeOf(existing: Option<ServiceRecord>, service: ServiceRecord): Change {
    var kind := if existing.None? then Create else if Diff(existing, service) != map[] then Update else Unchanged;
    Change(service.serviceId, kind, if existing.None? then None else Some(SnapshotOf(existing.value)),
           SnapshotOf(service), Diff(existing, service))
  }

  function PlannedChange(t: Table, record: ServiceRecord, nodeId: string, source: string): Change
    requires record.serviceId in t ==> PortsListed(t[record.serviceId].record.metadata)
  {
    ChangeOf(LoadFrom(t, record.serviceId), PlannedService(t, record, nodeId, source))
  }

  /** The plan of `records`, made against `t`. */
  function Planned(t: Table, records: seq<ServiceRecord>, nodeId: string, source: string): (services: seq<ServiceRecord>)
    requires TableOk(t)
    ensures |services| == |records|
    ensures forall i | 0 <= i < |services| :: services[i].serviceId == records[i].serviceId
  {
    seq(|records|, i requires 0 <= i < |records| => PlannedService(t, records[i], nodeId, source))
  }

  function PlannedChanges(t: Table, records: seq<ServiceRecord>, nodeId: string, source: string): (changes: seq<Change>)
    requires TableOk(t)
    ensures |changes| == |records|
  {
    seq(|records|, i requires 0 <= i < |records| => PlannedChange(t, records[i], nodeId, source))
  }

  function SavedRecords(services: seq<ServiceRecord>, classify: Classifier): seq<ServiceRecord> {
    seq(|services|, i requires 0 <= i < |services| => SavedRecord(services[i], classify))
  }

  function SavedAll(t: Table, services: seq<ServiceRecord>, classify: Classifier, now: Time): Table {
    if services == [] then t
    else Save(SavedAll(t, services[..|services| - 1], classify, now), services[|services| - 1], classify, now)
  }

  /** The table after saving the plan of `records` made against `t`. */
  function Applied(t: Table, records: seq<ServiceRecord>, nodeId: string, source: string, classify: Classifier, now: Time): Table
    requires TableOk(t)
  {
    SavedAll(t, Planned(t, records, nodeId, source), classify, now)
  }

  // ----- The merge settles -----

  ghost predicate DistinctIds(records: seq<ServiceRecord>) {
    forall i, j | 0 <= i < j < |records| :: records[i].serviceId != records[j].serviceId
  }

  predicate AllPortsListed(records: seq<ServiceRecord>) {
    forall i | 0 <= i < |records| :: PortsListed(records[i].metadata)
  }

  lemma DefaultsKeepAbsorbed(m: Metadata, incoming: Metadata, source: string, asset: Asset)
    requires Absorbs(m, incoming)
    ensures Absorbs(WithDefaults(m[SOURCE_KEY := JString(source)], asset), incoming)
  {
    assert SOURCE_KEY[0] != PORTS[0];
    assert "asset_score"[0] != PORTS[0] && "asset_category"[0] != PORTS[0] && "why_asset"[0] != PORTS[0];
  }

  /** Saved metadata takes in nothing new from the record it was made of. */
  lemma SavedMetadataSettles(m: Metadata, incoming: Metadata, source: string, asset: Asset)
    requires Absorbs(m, incoming)
    ensures var saved := WithDefaults(m[SOURCE_KEY := JString(source)], asset);
            PortsListed(saved) && MergeMetadata(saved, incoming)[SOURCE_KEY := JString(source)] == saved
  {
    var saved := WithDefaults(m[SOURCE_KEY := JString(source)], asset);
    DefaultsKeepAbsorbed(m, incoming, source, asset);
    AbsorbedAddsNothing(saved, incoming);
    assert saved[SOURCE_KEY] == JString(source);
  }

  lemma SelfAbsorbs(m: Metadata)
    requires PortsListed(m)
    ensures Absorbs(m, m)
  {
  }

  /** Planning against the saved record again: nothing but the ports can move, and they
      move exactly if the record was new and its ports were not a sorted set. */
  lemma SecondPlan(t: Table, record: ServiceRecord, nodeId: string, source: string, classify: Classifier)
    requires TableOk(t) && PortsListed(record.metadata)
    ensures var saved := SavedRecord(PlannedService(t, record, nodeId, source), classify);
            && PortsListed(saved.metadata)
            && var again := MergedService(saved, OnNode(record, nodeId, source), source);
               && again.(ports := saved.ports) == saved
               && (again == saved <==> record.serviceId in t || StrictlyIncreasing(record.ports))
  {
    var d := OnNode(record, nodeId, source);
    var planned := PlannedService(t, record, nodeId, source);
    var saved := SavedRecord(planned, classify);
    if record.serviceId in t {
      var e := t[record.serviceId].record;
      MergeAbsorbs(e.metadata, d.metadata);
      SavedMetadataSettles(MergeMetadata(e.metadata, d.metadata), d.metadata, source, classify(planned));
      MergeIntsLaws(e.ports, d.ports);
    } else {
      SelfAbsorbs(d.metadata);
      SavedMetadataSettles(d.metadata, d.metadata, source, classify(planned));
      MergeIntsLaws(d.ports, d.ports);
    }
  }

  /** Every saved service has its row, and no other row changes. */
  lemma {:induction false} SavedRows(t: Table, services: seq<ServiceRecord>, classify: Classifier, now: Time, id: string)
    requires DistinctIds(services)
    ensures forall i | 0 <= i < |services| && services[i].serviceId == id ::
              id in SavedAll(t, services, classify, now) &&
              SavedAll(t, services, classify, now)[id].record == SavedRecord(services[i], classify)
    ensures (forall i | 0 <= i < |services| :: services[i].serviceId != id) ==>
              LoadFrom(SavedAll(t, services, classify, now), id) == LoadFrom(t, id)
  {
    if services != [] {
      var last := |services| - 1;
      var init := services[..last];
      assert forall i | 0 <= i < last :: init[i] == services[i];
      SavedRows(t, init, classify, now, id);
    }
  }

  /** After an apply, planning the same records again finds a record unchanged, with an
      empty diff, exactly if it was in the table before or came with sorted, distinct
      ports; and no plan touches anything but ports. */
  lemma ApplyThenPlan(t: Table, records: seq<ServiceRecord>, nodeId: string, source: string, classify: Classifier, now: Time, i: nat)
    requires TableOk(t) && DistinctIds(records) && AllPortsListed(records) && i < |records|
    ensures var t' := Applied(t, records, nodeId, source, classify, now);
            var id := records[i].serviceId;
            && id in t' && PortsListed(t'[id].record.metadata)
            && var change := PlannedChange(t', records[i], nodeId, source);
               && (change.change.Unchanged? <==> id in t || StrictlyIncreasing(records[i].ports))
               && (change.diff == map[] <==> change.change.Unchanged?)
               && change.diff.Keys <= {Ports}
  {
    var t' := Applied(t, records, nodeId, source, classify, now);
    var services := Planned(t, records, nodeId, source);
    SavedRows(t, services, classify, now, services[i].serviceId);
    SecondPlan(t, records[i], nodeId, source, classify);
    var saved := t'[records[i].serviceId].record;
    OnlyPortsDiffer(saved, MergedService(saved, OnNode(records[i], nodeId, source), source));
  }

  /** The case that is left: a new record whose ports are [443, 80]. Its next plan is an
      update that sorts them. */
  lemma UnsortedPortsMoveOnce(record: ServiceRecord, nodeId: string, source: string, classify: Classifier, now: Time)
    requires record.ports == [443, 80] && record.metadata == map[]
    ensures var t' := Applied(map[], [record], nodeId, source, classify, now);
            && record.serviceId in t' && PortsListed(t'[record.serviceId].record.metadata)
            && var change := PlannedChange(t', record, nodeId, source);
               && change.change.Update?
               && change.diff == map[Ports := Delta(Some(PortsValue([443, 80])), PortsValue([80, 443]))]
  {
    var records := [record];
    ApplyThenPlan(map[], records, nodeId, source, classify, now, 0);
    var t' := Applied(map[], records, nodeId, source, classify, now);
    var services := Planned(map[], records, nodeId, source);
    SavedRows(map[], services, classify, now, record.serviceId);
    var saved := t'[record.serviceId].record;
    assert saved.ports == record.ports;
    var sorted := [80, 443];
    forall z ensures z in sorted <==> z in record.ports {}
    SortedListingUnique(MergeInts(saved.ports, record.ports), sorted);
    var again := MergedService(saved, OnNode(record, nodeId, source), source);
    assert again.ports == sorted;
    OnlyPortsIn(saved, again);
    assert PlannedChange(t', record, nodeId, source).diff == Diff(Some(saved), again);
    assert Ports in Diff(Some(saved), again);
  }

  lemma OnlyPortsIn(saved: ServiceRecord, again: ServiceRecord)
    requires Diff(Some(saved), again).Keys <= {Ports} && saved.ports != again.ports
    ensures Diff(Some(saved), again) == map[Ports := Delta(Some(PortsValue(saved.ports)), PortsValue(again.ports))]
  {
    assert Differs(Some(saved), again, Ports);
  }

  lemma OnlyPortsDiffer(saved: ServiceRecord, again: ServiceRecord)
    requires again.(ports := saved.ports) == saved
    ensures Diff(Some(saved), again) == map[] <==> saved == again
    ensures Diff(Some(saved), again).Keys <= {Ports}
  {
    NoDiffMeansEqual(saved, again);
    forall f: Field | f != Ports ensures !Differs(Some(saved), again, f) {}
  }

  /** An apply that finds everything unchanged leaves every record as it is. */
  lemma ApplyTwice(t: Table, records: seq<ServiceRecord>, nodeId: string, source: string, classify: Classifier,
                   now: Time, later: Time, id: string)
    requires TableOk(t) && DistinctIds(records) && AllPortsListed(records)
    requires forall i | 0 <= i < |records| :: records[i].serviceId in t || StrictlyIncreasing(records[i].ports)
    ensures var t' := Applied(t, records, nodeId, source, classify, now);
            TableOk(t') && LoadFrom(Applied(t', records, nodeId, source, classify, later), id) == LoadFrom(t', id)
  {
    var t' := Applied(t, records, nodeId, source, classify, now);
    AppliedKeepsOk(t, records, nodeId, source, classify, now);
    var services, again := Planned(t, records, nodeId, source), Planned(t', records, nodeId, source);
    SavedRows(t, services, classify, now, id);
    SavedRows(t', again, classify, later, id);
    if i :| 0 <= i < |records| && services[i].serviceId == id {
      SecondPlan(t, records[i], nodeId, source, classify);
      SavedTwice(services[i], classify);
      assert again[i] == SavedRecord(services[i], classify);
    }
  }

  lemma SavedTwice(service: ServiceRecord, classify: Classifier)
    ensures SavedRecord(SavedRecord(service, classify), classify) == SavedRecord(service, classify)
  {
    var m := WithDefaults(service.metadata, classify(service));
    assert WithDefaults(m, classify(SavedRecord(service, classify))) == m;
  }

  lemma PlannedIsListed(t: Table, record: ServiceRecord, nodeId: string, source: string, classify: Classifier)
    requires TableOk(t) && PortsListed(record.metadata)
    ensures PortsListed(SavedRecord(PlannedService(t, record, nodeId, source), classify).metadata)
  {
    SecondPlan(t, record, nodeId, source, classify);
  }

  lemma {:induction false} SavedAllKeepsOk(t: Table, services: seq<ServiceRecord>, classify: Classifier, now: Time)
    requires TableOk(t)
    requires forall i | 0 <= i < |services| :: PortsListed(SavedRecord(services[i], classify).metadata)
    ensures TableOk(SavedAll(t, services, classify, now))
  {
    if services != [] {
      SavedAllKeepsOk(t, services[..|services| - 1], classify, now);
    }
  }

  lemma AppliedKeepsOk(t: Table, records: seq<ServiceRecord>, nodeId: string, source: string, classify: Classifier, now: Time)
    requires TableOk(t) && AllPortsListed(records)
    ensures TableOk(Applied(t, records, nodeId, source, classify, now))
  {
    forall i | 0 <= i < |records| ensures PortsListed(SavedRecord(Planned(t, records, nodeId, source)[i], classify).metadata) {
      PlannedIsListed(t, records[i], nodeId, source, classify);
    }
    SavedAllKeepsOk(t, Planned(t, records, nodeId, source), classify, now);
  }

  /** What discovery finds can always be applied: the next plan of it is all unchanged. */
  lemma DiscoveryIsIdempotent(parsed: seq<ServiceRecord>, routes: seq<Route>, found: seq<ServiceRecord>, t: Table,
                              nodeId: string, source: string, classify: Classifier, now: Time, i: nat)
    requires AllParsed(parsed) && Discovered(parsed, routes, found) && TableOk(t) && i < |found|
    ensures var t' := Applied(t, found, nodeId, source, classify, now);
            && found[i].serviceId in t' && PortsListed(t'[found[i].serviceId].record.metadata)
            && PlannedChange(t', found[i], nodeId, source).change.Unchanged?
            && PlannedChange(t', found[i], nodeId, source).diff == map[]
  {
    forall j, k | 0 <= j < k < |found| ensures found[j].serviceId != found[k].serviceId {
      assert Precedes(found[j].serviceId, found[k].serviceId);
      Irreflexive(found[j].serviceId);
    }
    assert forall k | 0 <= k < |found| :: Parsed(found[k]);
    ApplyThenPlan(t, found, nodeId, source, classify, now, i);
  }

  // ----- What is planned and saved, field by field -----

  /** The plan of a record against the table: kept fields for a stored service, its own for
      a new one. */
  ghost predicate PlannedFor(t: Table, record: ServiceRecord, nodeId: string, source: string, planned: ServiceRecord) {
    if record.serviceId in t then KnownPlanned(t[record.serviceId].record, record, nodeId, source, planned)
    else NewPlanned(record, nodeId, source, planned)
  }

  lemma PlanKeepsFields(t: Table, record: ServiceRecord, nodeId: string, source: string)
    requires TableOk(t)
    ensures PlannedFor(t, record, nodeId, source, PlannedService(t, record, nodeId, source))
  {
    if record.serviceId in t {
      MergedEntries(t[record.serviceId].record.metadata, record.metadata);
    }
  }

  /** The snapshot shows every field of the record under its name. */
  ghost predicate Shows(shown: Snapshot, r: ServiceRecord) {
    (forall f: Field :: f in shown) && ShowsTexts(shown, r) && ShowsOthers(shown, r)
  }

  ghost predicate ShowsTexts(shown: Snapshot, r: ServiceRecord)
    requires forall f: Field :: f in shown
  {
    && shown[ServiceId] == TextValue(r.serviceId) && shown[Name] == TextValue(r.name) && shown[NodeId] == TextValue(r.nodeId)
    && shown[Kind] == TextValue(r.kind) && shown[Runtime] == TextValue(r.runtime) && shown[DeployPath] == TextValue(r.deployPath)
    && shown[HealthCheckUrl] == TextValue(r.healthCheckUrl) && shown[DocsPath] == TextValue(r.docsPath)
    && shown[Source] == TextValue(r.source) && shown[Status] == TextValue(r.status)
  }

  ghost predicate ShowsOthers(shown: Snapshot, r: ServiceRecord)
    requires forall f: Field :: f in shown
  {
    && shown[Domains] == ListValue(r.domains) && shown[Ports] == PortsValue(r.ports)
    && shown[ConfigPaths] == ListValue(r.configPaths) && shown[EnvPaths] == ListValue(r.envPaths)
    && shown[DataPaths] == ListValue(r.dataPaths)
    && shown[MonitorEnabled] == FlagValue(r.monitorEnabled) && shown[Meta] == MetaValue(r.metadata)
  }

  /** What the plan says of a service: created if it was not stored, unchanged if it stays as
      it is, and else updated; with both snapshots, and a diff of exactly the fields that
      change. */
  ghost predicate ChangeTold(stored: Option<ServiceRecord>, planned: ServiceRecord, c: Change) {
    && c.serviceId == planned.serviceId && Shows(c.after, planned)
    && if stored.None? then
         && c.change == Create && c.before == None
         && forall f: Field :: f in c.diff && f in c.after && c.diff[f] == Delta(None, c.after[f])
       else
         && c.change == (if planned == stored.value then Unchanged else Update)
         && c.before.Some? && Shows(c.before.value, stored.value)
         && (forall f: Field :: f in c.after && f in c.before.value && (f in c.diff <==> c.before.value[f] != c.after[f]))
         && forall f | f in c.diff :: c.diff[f] == Delta(Some(c.before.value[f]), c.after[f])
  }

  lemma SnapshotAt(r: ServiceRecord, f: Field)
    ensures f in SnapshotOf(r) && SnapshotOf(r)[f] == FieldOf(r, f)
  {
  }

  lemma SnapshotShows(r: ServiceRecord)
    ensures Shows(SnapshotOf(r), r)
  {
    var shown := SnapshotOf(r);
    forall f: Field ensures f in shown && shown[f] == FieldOf(r, f) { SnapshotAt(r, f); }
    TextsShown(r, shown);
    OthersShown(r, shown);
  }

  lemma TextsShown(r: ServiceRecord, shown: Snapshot)
    requires forall f: Field :: f in shown && shown[f] == FieldOf(r, f)
    ensures ShowsTexts(shown, r)
  {
  }

  lemma OthersShown(r: ServiceRecord, shown: Snapshot)
    requires forall f: Field :: f in shown && shown[f] == FieldOf(r, f)
    ensures ShowsOthers(shown, r)
  {
  }

  lemma DiffTells(stored: Option<ServiceRecord>, planned: ServiceRecord, f: Field)
    ensures f in Diff(stored, planned) <==> stored.None? || SnapshotOf(stored.value)[f] != SnapshotOf(planned)[f]
    ensures f in Diff(stored, planned) ==>
              Diff(stored, planned)[f] == Delta(if stored.None? then None else Some(SnapshotOf(stored.value)[f]), SnapshotOf(planned)[f])
  {
  }

  lemma ChangeIsTold(stored: Option<ServiceRecord>, planned: ServiceRecord)
    ensures ChangeTold(stored, planned, ChangeOf(stored, planned))
  {
    SnapshotShows(planned);
    if stored.Some? {
      SnapshotShows(stored.value);
      NoDiffMeansEqual(stored.value, planned);
    }
    forall f: Field ensures f in Diff(stored, planned) <==> stored.None? || SnapshotOf(stored.value)[f] != SnapshotOf(planned)[f]
      ensures f in Diff(stored, planned) ==>
                Diff(stored, planned)[f] == Delta(if stored.None? then None else Some(SnapshotOf(stored.value)[f]), SnapshotOf(planned)[f])
    {
      DiffTells(stored, planned, f);
    }
  }

  /** The row of a saved service: the record with the asset fields it lacked, its asset, and
      the creation time of the row that was there. */
  predicate SavedFor(t: Table, service: ServiceRecord, asset: Asset, now: Time, row: Row) {
    && row.asset == asset && row.updatedAt == now
    && row.createdAt == (if service.serviceId in t then t[service.serviceId].createdAt else now)
    && row.record == service.(metadata := row.record.metadata)
    && row.record.metadata.Keys == service.metadata.Keys + {"asset_score", "asset_category", "why_asset"}
    && (forall key | key in service.metadata :: row.record.metadata[key] == service.metadata[key])
    && ("asset_score" !in service.metadata ==> row.record.metadata["asset_score"] == JInt(asset.score))
    && ("asset_category" !in service.metadata ==> row.record.metadata["asset_category"] == JString(asset.category))
    && ("why_asset" !in service.metadata ==>
          var why := row.record.metadata["why_asset"];
          && why.JList? && |why.items| == |asset.why|
          && forall i | 0 <= i < |asset.why| :: why.items[i] == JString(asset.why[i]))
  }

  lemma SaveFillsDefaults(t: Table, service: ServiceRecord, classify: Classifier, now: Time)
    ensures var t' := Save(t, service, classify, now);
            && service.serviceId in t' && t' == t[service.serviceId := t'[service.serviceId]]
            && SavedFor(t, service, classify(service), now, t'[service.serviceId])
            && t'[service.serviceId].record == SavedRecord(service, classify)
  {
    KeysDiffer();
  }

  lemma KeysDiffer()
    ensures "asset_score" != "asset_category" && "asset_score" != "why_asset" && "asset_category" != "why_asset"
  {
    assert "asset_score"[6] != "asset_category"[6] && "asset_score"[0] != "why_asset"[0] && "asset_category"[0] != "why_asset"[0];
  }

  /** After an apply, the row of every record shows what was planned for it, and the rows of
      other services are as they were. */
  ghost predicate AppliedFor(t: Table, t': Table, record: ServiceRecord, nodeId: string, source: string, classify: Classifier, now: Time) {
    exists planned ::
      && PlannedFor(t, record, nodeId, source, planned)
      && record.serviceId in t' && SavedFor(t, planned, classify(planned), now, t'[record.serviceId])
  }

  lemma {:induction false} SavedRowAt(t: Table, services: seq<ServiceRecord>, classify: Classifier, now: Time, id: string)
    requires DistinctIds(services)
    ensures forall i | 0 <= i < |services| && services[i].serviceId == id ::
              && id in SavedAll(t, services, classify, now)
              && SavedAll(t, services, classify, now)[id] == Save(t, services[i], classify, now)[id]
    ensures (forall i | 0 <= i < |services| :: services[i].serviceId != id) ==>
              && (id in SavedAll(t, services, classify, now) <==> id in t)
              && (id in t ==> SavedAll(t, services, classify, now)[id] == t[id])
  {
    if services != [] {
      var last := |services| - 1;
      var init := services[..last];
      assert forall i | 0 <= i < last :: init[i] == services[i];
      SavedRowAt(t, init, classify, now, id);
    }
  }

  ghost predicate AllApplied(t: Table, t': Table, records: seq<ServiceRecord>, nodeId: string, source: string, classify: Classifier, now: Time) {
    && (forall i | 0 <= i < |records| :: AppliedFor(t, t', records[i], nodeId, source, classify, now))
    && forall id | forall i | 0 <= i < |records| :: records[i].serviceId != id ::
         (id in t' <==> id in t) && (id in t ==> t'[id] == t[id])
  }

  lemma AppliedRows(t: Table, records: seq<ServiceRecord>, nodeId: string, source: string, classify: Classifier, now: Time)
    requires TableOk(t) && DistinctIds(records)
    ensures AllApplied(t, Applied(t, records, nodeId, source, classify, now), records, nodeId, source, classify, now)
  {
    var t' := Applied(t, records, nodeId, source, classify, now);
    var services := Planned(t, records, nodeId, source);
    forall i | 0 <= i < |records| ensures AppliedFor(t, t', records[i], nodeId, source, classify, now) {
      SavedRowAt(t, services, classify, now, records[i].serviceId);
      PlanKeepsFields(t, records[i], nodeId, source);
      SaveFillsDefaults(t, services[i], classify, now);
    }
    forall id | forall i | 0 <= i < |records| :: records[i].serviceId != id
      ensures (id in t' <==> id in t) && (id in t ==> t'[id] == t[id])
    {
      SavedRowAt(t, services, classify, now, id);
    }
  }

  // ----- The store -----

  datatype LoggedChange = LoggedChange(serviceId: string, change: ChangeType, diff: map<Field, Delta>)

  datatype DiscoveryEvent = DiscoveryEvent(nodeId: string, source: string, serviceIds: seq<string>, changes: seq<LoggedChange>)

  function Logged(c: Change): LoggedChange {
    LoggedChange(c.serviceId, c.change, c.diff)
  }

  /** Every record is planned against the table, and every plan is told. */
  ghost predicate AllPlanned(t: Table, records: seq<ServiceRecord>, nodeId: string, source: string,
                             planned: seq<ServiceRecord>, changes: seq<Change>)
  {
    && |planned| == |changes| == |records|
    && forall i | 0 <= i < |records| ::
         PlannedFor(t, records[i], nodeId, source, planned[i]) && ChangeTold(LoadFrom(t, records[i].serviceId), planned[i], changes[i])
  }

  lemma PlansAreTold(t: Table, records: seq<ServiceRecord>, nodeId: string, source: string,
                     planned: seq<ServiceRecord>, changes: seq<Change>)
    requires TableOk(t) && |planned| == |changes| == |records|
    requires forall i | 0 <= i < |records| ::
               planned[i] == PlannedService(t, records[i], nodeId, source) && changes[i] == PlannedChange(t, records[i], nodeId, source)
    ensures AllPlanned(t, records, nodeId, source, planned, changes)
  {
    forall i | 0 <= i < |records|
      ensures PlannedFor(t, records[i], nodeId, source, planned[i])
      ensures ChangeTold(LoadFrom(t, records[i].serviceId), planned[i], changes[i])
    {
      PlanKeepsFields(t, records[i], nodeId, source);
      ChangeIsTold(LoadFrom(t, records[i].serviceId), planned[i]);
    }
  }

  /** The log entry tells id, kind of change and diff of the plan. */
  ghost predicate LoggedFor(t: Table, record: ServiceRecord, nodeId: string, source: string, entry: LoggedChange) {
    exists planned, change :: PlannedAndTold(t, record, nodeId, source, planned, change, entry)
  }

  ghost predicate PlannedAndTold(t: Table, record: ServiceRecord, nodeId: string, source: string, planned: ServiceRecord,
                                 change: Change, entry: LoggedChange)
  {
    && PlannedFor(t, record, nodeId, source, planned)
    && ChangeTold(LoadFrom(t, record.serviceId), planned, change)
    && entry == LoggedChange(record.serviceId, change.change, change.diff)
  }

  lemma PlanIsLogged(t: Table, record: ServiceRecord, nodeId: string, source: string)
    requires TableOk(t)
    ensures LoggedFor(t, record, nodeId, source, Logged(PlannedChange(t, record, nodeId, source)))
  {
    var planned, change := PlannedService(t, record, nodeId, source), PlannedChange(t, record, nodeId, source);
    PlanKeepsFields(t, record, nodeId, source);
    ChangeIsTold(LoadFrom(t, record.serviceId), planned);
    assert PlannedAndTold(t, record, nodeId, source, planned, change, Logged(change));
  }

  /** The event names node, source and services, and tells every change. */
  ghost predicate EventTells(t: Table, records: seq<ServiceRecord>, nodeId: string, source: string, event: DiscoveryEvent) {
    && event.nodeId == nodeId && event.source == source
    && |event.serviceIds| == |event.changes| == |records|
    && forall i | 0 <= i < |records| ::
         event.serviceIds[i] == records[i].serviceId && LoggedFor(t, records[i], nodeId, source, event.changes[i])
  }

  function EventOf(t: Table, records: seq<ServiceRecord>, nodeId: string, source: string, classify: Classifier): DiscoveryEvent
    requires TableOk(t)
  {
    DiscoveryEvent(nodeId, source, IdsOf(SavedRecords(Planned(t, records, nodeId, source), classify)),
                   LoggedAll(PlannedChanges(t, records, nodeId, source)))
  }

  lemma EventIsTold(t: Table, records: seq<ServiceRecord>, nodeId: string, source: string, classify: Classifier)
    requires TableOk(t)
    ensures EventTells(t, records, nodeId, source, EventOf(t, records, nodeId, source, classify))
  {
    var services, changes := Planned(t, records, nodeId, source), LoggedAll(PlannedChanges(t, records, nodeId, source));
    forall i | 0 <= i < |records| ensures LoggedFor(t, records[i], nodeId, source, changes[i]) {
      PlanIsLogged(t, records[i], nodeId, source);
    }
  }

  /** The table holds each saved record under its id. */
  ghost predicate Shown(t: Table, records: seq<ServiceRecord>, saved: seq<ServiceRecord>) {
    && |saved| == |records|
    && forall i | 0 <= i < |records| :: records[i].serviceId in t && t[records[i].serviceId].record == saved[i]
  }

  lemma ApplyEffect(t: Table, records: seq<ServiceRecord>, nodeId: string, source: string, classify: Classifier, now: Time)
    requires TableOk(t)
    ensures AllPortsListed(records) ==> TableOk(Applied(t, records, nodeId, source, classify, now))
    ensures DistinctIds(records) ==> AllApplied(t, Applied(t, records, nodeId, source, classify, now), records, nodeId, source, classify, now)
    ensures var t', saved := Applied(t, records, nodeId, source, classify, now), SavedRecords(Planned(t, records, nodeId, source), classify);
            DistinctIds(records) ==> Shown(t', records, saved)
  {
    var t' := Applied(t, records, nodeId, source, classify, now);
    if AllPortsListed(records) { AppliedKeepsOk(t, records, nodeId, source, classify, now); }
    if DistinctIds(records) {
      AppliedRows(t, records, nodeId, source, classify, now);
      forall i | 0 <= i < |records|
        ensures records[i].serviceId in t'
        ensures t'[records[i].serviceId].record == SavedRecords(Planned(t, records, nodeId, source), classify)[i]
      {
        SavedRows(t, Planned(t, records, nodeId, source), classify, now, records[i].serviceId);
      }
    }
  }

  function IdsOf(services: seq<ServiceRecord>): seq<string> {
    seq(|services|, i requires 0 <= i < |services| => services[i].serviceId)
  }

  function LoggedAll(changes: seq<Change>): seq<LoggedChange> {
    seq(|changes|, i requires 0 <= i < |changes| => Logged(changes[i]))
  }

  class ServiceStore {
    const classify: Classifier
    var rows: Table
    var audit: seq<DiscoveryEvent>

    constructor (classify: Classifier)
      ensures this.classify == classify && rows == map[] && audit == [] && TableOk(rows)
    {
      this.classify, rows, audit := classify, map[], [];
    }

    method LoadServiceRecord(id: string) returns (record: Option<ServiceRecord>)
      ensures record == LoadFrom(rows, id)
    {
      record := if id in rows then Some(rows[id].record) else None;
    }

    method SaveServiceRecord(service: ServiceRecord, now: Time) returns (saved: ServiceRecord)
      modifies this`rows
      ensures rows == Save(old(rows), service, classify, now) && saved == SavedRecord(service, classify)
      ensures var id := service.serviceId;
              && id in rows && rows == old(rows)[id := rows[id]] && rows[id].record == saved
              && SavedFor(old(rows), service, classify(service), now, rows[id])
    {
      SaveFillsDefaults(rows, service, classify, now);
      saved := WriteRow(service, now);
    }

    /** INSERT ... ON CONFLICT DO UPDATE, with the asset fields filled in. */
    method WriteRow(service: ServiceRecord, now: Time) returns (saved: ServiceRecord)
      modifies this`rows
      ensures rows == Save(old(rows), service, classify, now) && saved == SavedRecord(service, classify)
    {
      var asset := classify(service);
      var metadata := service.metadata;
      if "asset_score" !in metadata {
        metadata := metadata["asset_score" := JInt(asset.score)];
      }
      if "asset_category" !in metadata {
        metadata := metadata["asset_category" := JString(asset.category)];
      }
      if "why_asset" !in metadata {
        metadata := metadata["why_asset" := JList(seq(|asset.why|, i requires 0 <= i < |asset.why| => JString(asset.why[i])))];
      }
      DefaultsOneByOne(service.metadata, metadata, asset);
      saved := service.(metadata := metadata);
      var createdAt := if service.serviceId in rows then rows[service.serviceId].createdAt else now;
      rows := rows[service.serviceId := Row(saved, asset, createdAt, now)];
    }

    method PlanDiscoveredServices(nodeId: string, records: seq<ServiceRecord>, source: string)
      returns (planned: seq<ServiceRecord>, changes: seq<Change>)
      requires TableOk(rows)
      ensures planned == Planned(rows, records, nodeId, source) && changes == PlannedChanges(rows, records, nodeId, source)
      ensures AllPlanned(rows, records, nodeId, source, planned, changes)
    {
      planned, changes := PlanEach(nodeId, records, source);
      PlansAreTold(rows, records, nodeId, source, planned, changes);
    }

    /** The loop over the records. */
    method PlanEach(nodeId: string, records: seq<ServiceRecord>, source: string)
      returns (planned: seq<ServiceRecord>, changes: seq<Change>)
      requires TableOk(rows)
      ensures planned == Planned(rows, records, nodeId, source) && changes == PlannedChanges(rows, records, nodeId, source)
    {
      planned, changes := [], [];
      var i := 0;
      while i < |records|
        invariant 0 <= i <= |records| && |planned| == |changes| == i
        invariant forall k | 0 <= k < i ::
                    && planned[k] == PlannedService(rows, records[k], nodeId, source)
                    && changes[k] == PlannedChange(rows, records[k], nodeId, source)
      {
        var discovered := OnNode(records[i], nodeId, source);
        var existing := LoadServiceRecord(discovered.serviceId);
        var service;
        if existing.Some? {
          service := MergedService(existing.value, discovered, source);
        } else {
          service := discovered.(metadata := discovered.metadata[SOURCE_KEY := JString(source)]);
        }
        planned := planned + [service];
        changes := changes + [ChangeOf(existing, service)];
        i := i + 1;
      }
    }

    method SaveAll(services: seq<ServiceRecord>, now: Time) returns (saved: seq<ServiceRecord>)
      modifies this`rows
      ensures rows == SavedAll(old(rows), services, classify, now)
      ensures saved == SavedRecords(services, classify)
    {
      saved := [];
      var i := 0;
      while i < |services|
        invariant 0 <= i <= |services| && |saved| == i
        invariant forall k | 0 <= k < i :: saved[k] == SavedRecord(services[k], classify)
        invariant rows == SavedAll(old(rows), services[..i], classify, now)
      {
        assert services[..i + 1][..i] == services[..i];
        var one := WriteRow(services[i], now);
        saved := saved + [one];
        i := i + 1;
      }
      assert services[..i] == services;
    }

    method ApplyDiscoveredServices(nodeId: string, records: seq<ServiceRecord>, source: string, now: Time)
      returns (saved: seq<ServiceRecord>)
      requires TableOk(rows)
      modifies this
      ensures rows == Applied(old(rows), records, nodeId, source, classify, now)
      ensures AllPortsListed(records) ==> TableOk(rows)
      ensures DistinctIds(records) ==> AllApplied(old(rows), rows, records, nodeId, source, classify, now)
      ensures saved == SavedRecords(Planned(old(rows), records, nodeId, source), classify)
      ensures DistinctIds(records) ==> Shown(rows, records, saved)
      ensures exists event :: EventTells(old(rows), records, nodeId, source, event) && audit == old(audit) + [event]
    {
      saved := SavePlan(nodeId, records, source, now);
      ApplyEffect(old(rows), records, nodeId, source, classify, now);
      EventIsTold(old(rows), records, nodeId, source, classify);
    }

    /** Plan, save, log. */
    method SavePlan(nodeId: string, records: seq<ServiceRecord>, source: string, now: Time) returns (saved: seq<ServiceRecord>)
      requires TableOk(rows)
      modifies this
      ensures rows == Applied(old(rows), records, nodeId, source, classify, now)
      ensures saved == SavedRecords(Planned(old(rows), records, nodeId, source), classify)
      ensures audit == old(audit) + [EventOf(old(rows), records, nodeId, source, classify)]
    {
      var planned, changes := PlanEach(nodeId, records, source);
      saved := SaveAll(planned, now);
      audit := audit + [DiscoveryEvent(nodeId, source, IdsOf(saved), LoggedAll(changes))];
    }
  }

  lemma DefaultsOneByOne(m: Metadata, filled: Metadata, asset: Asset)
    requires var a := if "asset_score" !in m then m["asset_score" := JInt(asset.score)] else m;
             var b := if "asset_category" !in a then a["asset_category" := JString(asset.category)] else a;
             filled == if "why_asset" !in b
                       then b["why_asset" := JList(seq(|asset.why|, i requires 0 <= i < |asset.why| => JString(asset.why[i])))]
                       else b
    ensures filled == WithDefaults(m, asset)
  {
    assert "asset_score"[6] != "asset_category"[6] && "asset_score"[0] != "why_asset"[0] && "asset_category"[0] != "why_asset"[0];
  }
}
