// What merging, binding, planning and saving services write, field by field, stated without
// the functions that compute it.
module ServiceEffects {
  import opened Text
  import opened ConsoleRisk
  import opened MergeAlgebra
  import opened ServiceDiscovery

  // ----- Text and lists of names -----

  predicate Blank(s: string) {
    forall i | 0 <= i < |s| :: IsSpace(s[i])
  }

  /** `core` is `s` without the white space around it. */
  ghost predicate CoreOf(s: string, core: string) {
    exists before, after :: Between(s, before, core, after)
  }

  predicate Between(s: string, before: string, core: string, after: string) {
    && Blank(before) && Blank(after) && s == before + core + after
    && (core == "" || (!IsSpace(core[0]) && !IsSpace(core[|core| - 1])))
  }

  lemma {:induction false} LeftIsBlank(s: string) returns (before: string)
    ensures Blank(before) && s == before + StripLeft(s, IsSpace)
  {
    if s != "" && IsSpace(s[0]) {
      var rest := LeftIsBlank(s[1..]);
      before := [s[0]] + rest;
      assert s == [s[0]] + s[1..];
    } else {
      before := "";
    }
  }

  lemma {:induction false} RightIsBlank(s: string) returns (after: string)
    ensures Blank(after) && s == StripRight(s, IsSpace) + after
  {
    if s != "" && IsSpace(s[|s| - 1]) {
      var init := s[..|s| - 1];
      var rest := RightIsBlank(init);
      after := rest + [s[|s| - 1]];
      assert s == init + [s[|s| - 1]];
    } else {
      after := "";
    }
  }

  lemma CoreFound(s: string, before: string, left: string, core: string, after: string)
    requires Blank(before) && s == before + left && Blank(after) && left == core + after
    requires core == "" || (!IsSpace(core[0]) && !IsSpace(core[|core| - 1]))
    ensures CoreOf(s, core)
  {
    assert s == before + core + after;
    assert Between(s, before, core, after);
  }

  lemma StripIsCore(s: string)
    ensures CoreOf(s, Strip(s))
  {
    var left := StripLeft(s, IsSpace);
    var before := LeftIsBlank(s);
    var after := RightIsBlank(left);
    StripStrips(s);
    CoreFound(s, before, left, Strip(s), after);
  }

  /** `merged` lists the non-empty ones of `names`, each at the place of its first mention;
      `picks` are those places. */
  ghost predicate FirstMentions(names: seq<string>, merged: seq<string>, picks: seq<nat>) {
    && |picks| == |merged|
    && (forall k: nat | k < |picks| :: MentionAt(names, merged, picks, k))
    && (forall k, l | 0 <= k < l < |picks| :: picks[k] < picks[l] && merged[k] != merged[l])
    && (forall i: nat | i < |names| :: Covered(names, merged, picks, i))
  }

  predicate MentionAt(names: seq<string>, merged: seq<string>, picks: seq<nat>, k: nat) {
    k < |picks| == |merged| && picks[k] < |names| && merged[k] != "" && merged[k] == names[picks[k]]
  }

  ghost predicate Covered(names: seq<string>, merged: seq<string>, picks: seq<nat>, i: nat) {
    i < |names| && (names[i] == "" || MentionedBy(names[i], i, merged, picks))
  }

  ghost predicate MentionedBy(item: string, i: nat, merged: seq<string>, picks: seq<nat>) {
    exists k :: 0 <= k < |picks| && k < |merged| && picks[k] <= i && item == merged[k]
  }

  lemma NewMention(names: seq<string>, merged: seq<string>, before: seq<nat>, item: string)
    requires FirstMentions(names, merged, before) && item != "" && item !in merged
    ensures FirstMentions(names + [item], merged + [item], before + [|names|])
  {
    var names', merged', picks := names + [item], merged + [item], before + [|names|];
    forall k: nat | k < |picks| ensures MentionAt(names', merged', picks, k) {
      if k < |before| { assert MentionAt(names, merged, before, k); }
    }
    forall k, l | 0 <= k < l < |picks| ensures picks[k] < picks[l] && merged'[k] != merged'[l] {
      assert MentionAt(names, merged, before, k);
      if l == |before| { assert merged[k] in merged; }
    }
    forall i: nat | i < |names'| ensures Covered(names', merged', picks, i) {
      if i < |names| {
        assert Covered(names, merged, before, i);
        MentionStays(names[i], i, merged, before, item, |names|);
      } else {
        assert picks[|before|] <= i && merged'[|before|] == item;
      }
    }
  }

  lemma MentionStays(name: string, i: nat, merged: seq<string>, before: seq<nat>, item: string, place: nat)
    requires name == "" || MentionedBy(name, i, merged, before)
    requires |merged| == |before|
    ensures name == "" || MentionedBy(name, i, merged + [item], before + [place])
  {
    if name != "" {
      var k :| 0 <= k < |before| && k < |merged| && before[k] <= i && name == merged[k];
      assert (before + [place])[k] == before[k] && (merged + [item])[k] == merged[k];
    }
  }

  lemma NoNewMention(names: seq<string>, merged: seq<string>, before: seq<nat>, item: string)
    requires FirstMentions(names, merged, before) && (item == "" || item in merged)
    ensures FirstMentions(names + [item], merged, before)
  {
    var names' := names + [item];
    forall k: nat | k < |before| ensures MentionAt(names', merged, before, k) {
      assert MentionAt(names, merged, before, k);
    }
    forall i: nat | i < |names'| ensures Covered(names', merged, before, i) {
      if i < |names| {
        assert Covered(names, merged, before, i);
      } else if item != "" {
        var k: nat :| k < |merged| && merged[k] == item;
        assert MentionAt(names, merged, before, k);
        assert before[k] <= i && item == merged[k];
      }
    }
  }

  function Cores(xs: seq<string>): seq<string> {
    seq(|xs|, i requires 0 <= i < |xs| => Strip(xs[i]))
  }

  lemma {:induction false} DistinctMentions(xs: seq<string>) returns (picks: seq<nat>)
    ensures FirstMentions(Cores(xs), Distinct(xs), picks)
  {
    if xs == [] {
      picks := [];
    } else {
      var init, last := xs[..|xs| - 1], |xs| - 1;
      var before := DistinctMentions(init);
      var merged, item := Distinct(init), Strip(xs[last]);
      assert Cores(xs) == Cores(init) + [item];
      if item != "" && item !in merged {
        picks := before + [|Cores(init)|];
        NewMention(Cores(init), merged, before, item);
      } else {
        picks := before;
        NoNewMention(Cores(init), merged, before, item);
      }
    }
  }

  /** The names of both lists without the white space around them, each once, in the order
      in which they are first mentioned. */
  ghost predicate NamesMerged(left: seq<string>, right: seq<string>, merged: seq<string>) {
    exists picks :: FirstMentions(Cores(left + right), merged, picks)
  }

  lemma MergedNames(left: seq<string>, right: seq<string>)
    ensures NamesMerged(left, right, MergeStrings(left, right))
  {
    var picks := DistinctMentions(left + right);
  }

  /** The ports of both lists, sorted, each once. */
  predicate PortsUnited(left: seq<int>, right: seq<int>, merged: seq<int>) {
    && (forall i, j | 0 <= i < j < |merged| :: merged[i] < merged[j])
    && (forall i | 0 <= i < |left| :: left[i] in merged) && (forall i | 0 <= i < |right| :: right[i] in merged)
    && (forall i | 0 <= i < |merged| :: merged[i] in left || merged[i] in right)
  }

  // ----- Metadata -----

  function Entry(item: Json, key: string): Json
    requires item.JObject?
  {
    if key in item.fields then item.fields[key] else JNull
  }

  /** Two listening sockets with the same address, port and process. */
  predicate SameSocket(a: Json, b: Json) {
    && a.JObject? && b.JObject?
    && Entry(a, "address") == Entry(b, "address") && Entry(a, "port") == Entry(b, "port")
    && Entry(a, "process") == Entry(b, "process")
  }

  /** The known sockets as they were, and behind them those of `incoming` that are not known
      yet, in its order, each once; `picks` are their places. */
  ghost predicate SocketsAdded(current: seq<Json>, incoming: seq<Json>, merged: seq<Json>, picks: seq<nat>) {
    && current <= merged && |merged| == |current| + |picks|
    && (forall k: nat | k < |picks| :: SocketAt(current, incoming, merged, picks, k))
    && (forall k, l | 0 <= k < l < |picks| :: picks[k] < picks[l])
    && (forall k, l | 0 <= k < l < |merged| && |current| <= l :: !SameSocket(merged[k], merged[l]))
    && (forall i: nat | i < |incoming| :: SocketMet(incoming, merged, i))
  }

  predicate SocketAt(current: seq<Json>, incoming: seq<Json>, merged: seq<Json>, picks: seq<nat>, k: nat) {
    && k < |picks| && |merged| == |current| + |picks| && picks[k] < |incoming|
    && merged[|current| + k] == incoming[picks[k]] && incoming[picks[k]].JObject?
  }

  ghost predicate SocketMet(incoming: seq<Json>, merged: seq<Json>, i: nat) {
    i < |incoming| && (incoming[i].JObject? ==> SocketKnown(merged, incoming[i]))
  }

  ghost predicate SocketKnown(merged: seq<Json>, item: Json) {
    exists k :: 0 <= k < |merged| && SameSocket(merged[k], item)
  }

  lemma MarkerIsSocket(items: seq<Json>, item: Json)
    requires item.JObject?
    ensures Marker(item) in Markers(items) <==> SocketKnown(items, item)
  {
    if SocketKnown(items, item) {
      var k :| 0 <= k < |items| && SameSocket(items[k], item);
      assert Marker(items[k]) == Marker(item);
    }
    if Marker(item) in Markers(items) {
      var k :| 0 <= k < |items| && items[k].JObject? && Marker(items[k]) == Marker(item);
      assert SameSocket(items[k], item);
    }
  }

  lemma {:induction false} SocketsMerged(current: seq<Json>, incoming: seq<Json>) returns (picks: seq<nat>)
    ensures SocketsAdded(current, incoming, MergePorts(current, incoming), picks)
  {
    if incoming == [] {
      picks := [];
    } else {
      var init, last := incoming[..|incoming| - 1], |incoming| - 1;
      var before := SocketsMerged(current, init);
      var merged := MergePorts(current, init);
      if incoming[last].JObject? { MarkerIsSocket(merged, incoming[last]); }
      picks := if incoming[last].JObject? && !SocketKnown(merged, incoming[last]) then before + [last] else before;
      SocketsStep(current, incoming, merged, before, picks);
    }
  }

  lemma KnownStays(merged: seq<Json>, merged': seq<Json>, item: Json)
    requires merged <= merged' && SocketKnown(merged, item)
    ensures SocketKnown(merged', item)
  {
    var k :| 0 <= k < |merged| && SameSocket(merged[k], item);
    assert SameSocket(merged'[k], item);
  }

  lemma SocketsStep(current: seq<Json>, incoming: seq<Json>, merged: seq<Json>, before: seq<nat>, picks: seq<nat>)
    requires incoming != [] && SocketsAdded(current, incoming[..|incoming| - 1], merged, before)
    requires var item := incoming[|incoming| - 1];
             picks == if item.JObject? && !SocketKnown(merged, item) then before + [|incoming| - 1] else before
    ensures var item := incoming[|incoming| - 1];
            SocketsAdded(current, incoming, if item.JObject? && !SocketKnown(merged, item) then merged + [item] else merged, picks)
  {
    var last := |incoming| - 1;
    var item := incoming[last];
    var merged' := if item.JObject? && !SocketKnown(merged, item) then merged + [item] else merged;
    forall k: nat | k < |picks| ensures SocketAt(current, incoming, merged', picks, k) {
      if k < |before| { assert SocketAt(current, incoming[..last], merged, before, k); }
    }
    forall k, l | 0 <= k < l < |picks| ensures picks[k] < picks[l] {
      assert SocketAt(current, incoming[..last], merged, before, k);
    }
    forall i: nat | i < |incoming| ensures SocketMet(incoming, merged', i) {
      if i < last {
        assert SocketMet(incoming[..last], merged, i) && incoming[..last][i] == incoming[i];
        if incoming[i].JObject? { KnownStays(merged, merged', incoming[i]); }
      } else if item.JObject? && !SocketKnown(merged, item) {
        assert SameSocket(merged'[|merged|], item);
      }
    }
    forall k, l | 0 <= k < l < |merged'| && |current| <= l ensures !SameSocket(merged'[k], merged'[l]) {
      if l == |merged| { assert !SameSocket(merged[k], item); }
    }
  }

  /** The listed sockets of a metadata entry, if it is a list. */
  function Listed(m: Metadata): seq<Json> {
    if "listen_ports" in m && m["listen_ports"].JList? then m["listen_ports"].items else []
  }

  /** Inner entries of `a` stand; `b` adds those that `a` has not. */
  predicate InnerMerged(a: map<string, Json>, b: map<string, Json>, m: map<string, Json>) {
    && m.Keys == a.Keys + b.Keys
    && forall key | key in m :: m[key] == if key in a then a[key] else b[key]
  }

  /** Entries of `a` stand, `b` adds those that `a` has not; two objects merge entry by
      entry, and two lists of listening sockets socket by socket. */
  ghost predicate EntriesMerged(a: Metadata, b: Metadata, m: Metadata) {
    && m.Keys == a.Keys + b.Keys
    && (forall key | key in m && key != "listen_ports" ::
          if key !in a then m[key] == b[key]
          else if key in b && a[key].JObject? && b[key].JObject? then
            m[key].JObject? && InnerMerged(a[key].fields, b[key].fields, m[key].fields)
          else m[key] == a[key])
    && ("listen_ports" in m ==>
          if "listen_ports" !in b then m["listen_ports"] == a["listen_ports"]
          else m["listen_ports"].JList? && exists picks :: SocketsAdded(Listed(a), Listed(b), Listed(m), picks))
  }

  lemma MergedEntries(a: Metadata, b: Metadata)
    requires PortsListed(a)
    ensures EntriesMerged(a, b, MergeMetadata(a, b))
  {
    var m := MergeMetadata(a, b);
    if PORTS in b {
      assert m[PORTS] == MergedValue(a, b, PORTS) == JList(MergePorts(Listed(a), Listed(b)));
      var picks := SocketsMerged(Listed(a), Listed(b));
      assert SocketsAdded(Listed(a), Listed(b), Listed(m), picks);
    }
    forall key | key in m && key != PORTS
      ensures if key !in a then m[key] == b[key]
              else if key in b && a[key].JObject? && b[key].JObject? then
                m[key].JObject? && InnerMerged(a[key].fields, b[key].fields, m[key].fields)
              else m[key] == a[key]
    {
      assert m[key] == MergedValue(a, b, key);
    }
  }

  // ----- Records of one service -----

  /** The known text, unless it is empty. */
  function Kept(known: string, found: string): string {
    if known != "" then known else found
  }

  function KeptList(known: seq<string>, found: seq<string>): seq<string> {
    if |known| > 0 then known else found
  }

  /** Two parsed records of one service: united lists, the first path and health check that
      says something, merged metadata, and everything else from the first. */
  ghost predicate RecordsMerged(a: ServiceRecord, b: ServiceRecord, r: ServiceRecord) {
    && r.serviceId == a.serviceId && SameIdentity(r, a)
    && NamesMerged(a.domains, b.domains, r.domains) && PortsUnited(a.ports, b.ports, r.ports)
    && NamesMerged(a.configPaths, b.configPaths, r.configPaths) && NamesMerged(a.envPaths, b.envPaths, r.envPaths)
    && NamesMerged(a.dataPaths, b.dataPaths, r.dataPaths)
    && r.deployPath == Kept(a.deployPath, b.deployPath) && r.healthCheckUrl == Kept(a.healthCheckUrl, b.healthCheckUrl)
    && EntriesMerged(a.metadata, b.metadata, r.metadata)
  }

  lemma CombinedRecords(a: ServiceRecord, b: ServiceRecord)
    requires PortsListed(a.metadata)
    ensures RecordsMerged(a, b, Combine(a, b))
  {
    MergedNames(a.domains, b.domains);
    MergedNames(a.configPaths, b.configPaths);
    MergedNames(a.envPaths, b.envPaths);
    MergedNames(a.dataPaths, b.dataPaths);
    MergedEntries(a.metadata, b.metadata);
  }

  datatype TextField = DeployPathText | HealthCheckText

  function TextIn(r: ServiceRecord, f: TextField): string {
    match f
    case DeployPathText => r.deployPath
    case HealthCheckText => r.healthCheckUrl
  }

  datatype ListField = DomainList | ConfigList | EnvList | DataList

  function ListIn(r: ServiceRecord, f: ListField): seq<string> {
    match f
    case DomainList => r.domains
    case ConfigList => r.configPaths
    case EnvList => r.envPaths
    case DataList => r.dataPaths
  }

  predicate FirstToSay(parsed: seq<ServiceRecord>, id: string, f: TextField, i: int) {
    && 0 <= i < |parsed| && parsed[i].serviceId == id && TextIn(parsed[i], f) != ""
    && forall j | 0 <= j < i && parsed[j].serviceId == id :: TextIn(parsed[j], f) == ""
  }

  /** What the first of a service's records says that says anything at all. */
  ghost predicate SaidFirst(parsed: seq<ServiceRecord>, id: string, f: TextField, text: string) {
    if text == "" then forall i | 0 <= i < |parsed| && parsed[i].serviceId == id :: TextIn(parsed[i], f) == ""
    else exists i :: FirstToSay(parsed, id, f, i) && TextIn(parsed[i], f) == text
  }

  lemma {:induction false} AggregateSaysFirst(parsed: seq<ServiceRecord>, id: string, f: TextField)
    requires AllParsed(parsed)
    ensures id in Aggregate(parsed).rows ==> SaidFirst(parsed, id, f, TextIn(Aggregate(parsed).rows[id], f))
  {
    if parsed != [] {
      var init := parsed[..|parsed| - 1];
      AggregateSaysFirst(init, id, f);
      AggregationIsExact(init, id);
      if id in Aggregate(init).rows {
        SaidSoFar(parsed, id, f, TextIn(Aggregate(init).rows[id], f));
      } else if id in Aggregate(parsed).rows {
        NewcomerSays(parsed, id, f);
      }
    }
  }

  lemma SaidSoFar(parsed: seq<ServiceRecord>, id: string, f: TextField, text: string)
    requires parsed != [] && SaidFirst(parsed[..|parsed| - 1], id, f, text)
    ensures var last := parsed[|parsed| - 1];
            SaidFirst(parsed, id, f, if last.serviceId == id then Kept(text, TextIn(last, f)) else text)
  {
    var init, last := parsed[..|parsed| - 1], |parsed| - 1;
    assert forall i | 0 <= i < last :: init[i] == parsed[i];
    if text != "" {
      var i :| FirstToSay(init, id, f, i) && TextIn(init[i], f) == text;
      assert FirstToSay(parsed, id, f, i);
    } else if parsed[last].serviceId == id && TextIn(parsed[last], f) != "" {
      assert FirstToSay(parsed, id, f, last);
    }
  }

  lemma NewcomerSays(parsed: seq<ServiceRecord>, id: string, f: TextField)
    requires parsed != [] && !Lists(parsed[..|parsed| - 1], id) && parsed[|parsed| - 1].serviceId == id
    ensures SaidFirst(parsed, id, f, TextIn(parsed[|parsed| - 1], f))
  {
    var init, last := parsed[..|parsed| - 1], |parsed| - 1;
    forall i | 0 <= i < last ensures parsed[i].serviceId != id { assert init[i] == parsed[i]; }
    if TextIn(parsed[last], f) != "" { assert FirstToSay(parsed, id, f, last); }
  }

  /** Some record of the service names the domain or path. */
  ghost predicate NamedBySome(parsed: seq<ServiceRecord>, id: string, f: ListField, item: string) {
    exists i :: 0 <= i < |parsed| && parsed[i].serviceId == id && Names(ListIn(parsed[i], f), item)
  }

  lemma NamedStep(parsed: seq<ServiceRecord>, id: string, f: ListField, item: string)
    requires parsed != []
    ensures var last := parsed[|parsed| - 1];
            NamedBySome(parsed, id, f, item) <==>
              NamedBySome(parsed[..|parsed| - 1], id, f, item) || (last.serviceId == id && Names(ListIn(last, f), item))
  {
    var init, last := parsed[..|parsed| - 1], |parsed| - 1;
    if NamedBySome(init, id, f, item) {
      var i :| 0 <= i < last && init[i].serviceId == id && Names(ListIn(init[i], f), item);
      assert parsed[i] == init[i];
    }
    if NamedBySome(parsed, id, f, item) {
      var i :| 0 <= i < |parsed| && parsed[i].serviceId == id && Names(ListIn(parsed[i], f), item);
      if i < last { assert init[i] == parsed[i]; }
    }
  }

  lemma CleanNamesItself(xs: seq<string>, item: string)
    requires forall i | 0 <= i < |xs| :: Stripped(xs[i])
    ensures Names(xs, item) <==> item in xs
  {
    forall i | 0 <= i < |xs| ensures Strip(xs[i]) == xs[i] { StripStrips(xs[i]); }
    if item in xs {
      var i :| 0 <= i < |xs| && xs[i] == item;
      assert Strip(xs[i]) == item;
    }
  }

  lemma CombinedNames(a: ServiceRecord, b: ServiceRecord, f: ListField, item: string)
    requires PortsListed(a.metadata)
    ensures Names(ListIn(Combine(a, b), f), item) <==> Names(ListIn(a, f), item) || Names(ListIn(b, f), item)
  {
    CleanNamesItself(ListIn(Combine(a, b), f), item);
    MergeStringsNames(ListIn(a, f), ListIn(b, f), item);
  }

  /** A listed service names exactly the domains and paths that some record of it names. */
  lemma {:induction false} AggregateNames(parsed: seq<ServiceRecord>, id: string, f: ListField, item: string)
    requires AllParsed(parsed)
    ensures id in Aggregate(parsed).rows ==>
              (Names(ListIn(Aggregate(parsed).rows[id], f), item) <==> NamedBySome(parsed, id, f, item))
    ensures id !in Aggregate(parsed).rows ==> !NamedBySome(parsed, id, f, item)
  {
    if parsed != [] {
      var init, last := parsed[..|parsed| - 1], parsed[|parsed| - 1];
      AggregateNames(init, id, f, item);
      NamedStep(parsed, id, f, item);
      if last.serviceId == id && id in Aggregate(init).rows {
        CombinedNames(Aggregate(init).rows[id], last, f, item);
      }
    }
  }

  /** A record with a reverse-proxy route bound to it. */
  ghost predicate RouteBound(a: ServiceRecord, route: Route, r: ServiceRecord) {
    && r == a.(domains := r.domains, healthCheckUrl := r.healthCheckUrl, metadata := r.metadata)
    && NamesMerged(a.domains, [route.domain], r.domains)
    && r.healthCheckUrl == Kept(a.healthCheckUrl, route.url)
    && exists proxied ::
         && EntriesMerged(a.metadata, ProxyEntries(route), proxied)
         && if route.url == "" then r.metadata == proxied
            else EntriesMerged(proxied, map["health_check" := JObject(map["source" := JString(route.source)])], r.metadata)
  }

  function ProxyEntries(route: Route): Metadata {
    map["reverse_proxy" := JObject(map["source" := JString(route.source), "domain" := JString(route.domain), "target_port" := JInt(route.port)]),
        "exposure" := JObject(map["scope" := JString(route.scope)])]
  }

  lemma BoundRecord(a: ServiceRecord, route: Route)
    requires PortsListed(a.metadata)
    ensures RouteBound(a, route, Bound(a, route))
  {
    MergedNames(a.domains, [route.domain]);
    MergedEntries(a.metadata, ProxyEntries(route));
    var proxied := MergeMetadata(a.metadata, ProxyEntries(route));
    MergedEntries(proxied, map["health_check" := JObject(map["source" := JString(route.source)])]);
  }

  /** A port belongs to the first record, in dict order, that has it. */
  lemma {:induction false} OwnerIsFirst(order: seq<string>, rows: Records, port: int)
    requires forall i | 0 <= i < |order| :: order[i] in rows
    ensures match Owner(order, rows, port)
            case Some(id) => exists k :: FirstWithPort(order, rows, port, k) && order[k] == id
            case None => forall k | 0 <= k < |order| :: port !in rows[order[k]].ports
  {
    if order != [] && port in rows[order[0]].ports {
      assert FirstWithPort(order, rows, port, 0);
    } else if order != [] {
      OwnerIsFirst(order[1..], rows, port);
      if Owner(order[1..], rows, port).Some? {
        var k :| FirstWithPort(order[1..], rows, port, k) && order[1..][k] == Owner(order[1..], rows, port).value;
        assert forall j | 0 < j <= k :: order[1..][j - 1] == order[j];
        assert FirstWithPort(order, rows, port, k + 1);
      } else {
        assert forall j | 0 < j < |order| :: order[1..][j - 1] == order[j];
      }
    }
  }

  predicate FirstWithPort(order: seq<string>, rows: Records, port: int, k: int)
    requires forall i | 0 <= i < |order| :: order[i] in rows
  {
    0 <= k < |order| && port in rows[order[k]].ports && forall j | 0 <= j < k :: port !in rows[order[j]].ports
  }

  // ----- Planning -----

  /** The plan of a service that is not stored: the record itself, on its node or the given
      one, from the given source. */
  predicate NewPlanned(record: ServiceRecord, nodeId: string, source: string, planned: ServiceRecord) {
    planned == record.(nodeId := Kept(record.nodeId, nodeId), source := source,
                       metadata := record.metadata["discovery_source" := JString(source)])
  }

  /** The plan of a stored service: every field that says something stands, the others are as
      found, ports are united and metadata is merged. */
  ghost predicate KnownPlanned(known: ServiceRecord, record: ServiceRecord, nodeId: string, source: string, planned: ServiceRecord) {
    && planned.serviceId == known.serviceId
    && planned.name == Kept(known.name, record.name)
    && planned.nodeId == Kept(known.nodeId, Kept(record.nodeId, nodeId))
    && planned.kind == Kept(known.kind, record.kind)
    && planned.runtime == Kept(known.runtime, record.runtime)
    && planned.domains == KeptList(known.domains, record.domains)
    && planned.deployPath == Kept(known.deployPath, record.deployPath)
    && planned.configPaths == KeptList(known.configPaths, record.configPaths)
    && planned.envPaths == KeptList(known.envPaths, record.envPaths)
    && planned.dataPaths == KeptList(known.dataPaths, record.dataPaths)
    && planned.healthCheckUrl == Kept(known.healthCheckUrl, record.healthCheckUrl)
    && planned.monitorEnabled == (known.monitorEnabled || record.monitorEnabled)
    && planned.docsPath == Kept(known.docsPath, record.docsPath)
    && planned.source == Kept(known.source, source)
    && planned.status == Kept(known.status, record.status)
    && PortsUnited(known.ports, record.ports, planned.ports)
    && exists merged :: EntriesMerged(known.metadata, record.metadata, merged) && planned.metadata == merged["discovery_source" := JString(source)]
  }
}
