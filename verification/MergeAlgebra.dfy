// How two descriptions of one service are merged: unions for ports and paths, the first
// value that says something for the rest, and key by key for metadata.
module MergeAlgebra {
  import opened Text
  import opened ConsoleRisk

  // ----- Sorted sets of ports -----

  predicate StrictlyIncreasing(xs: seq<int>) {
    forall i, j | 0 <= i < j < |xs| :: xs[i] < xs[j]
  }

  function Insert(xs: seq<int>, x: int): (r: seq<int>)
    requires StrictlyIncreasing(xs)
    ensures StrictlyIncreasing(r) && forall y :: y in r <==> y == x || y in xs
  {
    if xs == [] then [x]
    else if x < xs[0] then [x] + xs
    else if x == xs[0] then xs
    else
      assert forall y | y in xs :: y == xs[0] || y in xs[1..];
      var rest := Insert(xs[1..], x);
      assert forall i | 0 <= i < |rest| :: rest[i] in rest;
      [xs[0]] + rest
  }

  /** `sorted(set(xs))` */
  function SortedSet(xs: seq<int>): (r: seq<int>)
    ensures StrictlyIncreasing(r) && forall y :: y in r <==> y in xs
  {
    if xs == [] then []
    else
      assert xs == xs[..|xs| - 1] + [xs[|xs| - 1]];
      Insert(SortedSet(xs[..|xs| - 1]), xs[|xs| - 1])
  }

  function MergeInts(left: seq<int>, right: seq<int>): (r: seq<int>)
    ensures StrictlyIncreasing(r) && forall y :: y in r <==> y in left || y in right
  {
    SortedSet(left + right)
  }

  lemma {:induction false} SortedListingUnique(xs: seq<int>, ys: seq<int>)
    requires StrictlyIncreasing(xs) && StrictlyIncreasing(ys) && forall z :: z in xs <==> z in ys
    ensures xs == ys
  {
    if xs != [] { assert xs[0] in xs; }
    if ys != [] { assert ys[0] in ys; }
    if xs != [] && ys != [] {
      LeastIsFirst(xs, ys[0]);
      LeastIsFirst(ys, xs[0]);
      forall z ensures z in xs[1..] <==> z in ys[1..] {
        InTail(xs, z);
        InTail(ys, z);
      }
      SortedListingUnique(xs[1..], ys[1..]);
      assert xs == [xs[0]] + xs[1..] && ys == [ys[0]] + ys[1..];
    }
  }

  lemma LeastIsFirst(xs: seq<int>, z: int)
    requires StrictlyIncreasing(xs) && z in xs
    ensures xs != [] && xs[0] <= z
  {
    var i :| 0 <= i < |xs| && xs[i] == z;
  }

  lemma InTail(xs: seq<int>, z: int)
    requires StrictlyIncreasing(xs) && xs != []
    ensures z in xs[1..] <==> z in xs && z != xs[0]
  {
    if z in xs && z != xs[0] {
      var i :| 0 <= i < |xs| && xs[i] == z;
      assert xs[1..][i - 1] == z;
    }
  }

  /** Merging a second time, or in the other order, gives the same ports; and a list
      merged with itself stays as it is exactly if it was a sorted set already. */
  lemma MergeIntsLaws(a: seq<int>, b: seq<int>)
    ensures MergeInts(MergeInts(a, b), b) == MergeInts(a, b)
    ensures MergeInts(a, b) == MergeInts(b, a)
    ensures MergeInts(a, a) == a <==> StrictlyIncreasing(a)
  {
    SortedListingUnique(MergeInts(MergeInts(a, b), b), MergeInts(a, b));
    SortedListingUnique(MergeInts(a, b), MergeInts(b, a));
    if StrictlyIncreasing(a) { SortedListingUnique(MergeInts(a, a), a); }
  }

  // ----- Lists of names and paths -----

  function Strip(s: string): string {
    StripRight(StripLeft(s, IsSpace), IsSpace)
  }

  predicate Stripped(s: string) {
    s != "" && !IsSpace(s[0]) && !IsSpace(s[|s| - 1])
  }

  lemma {:induction false} LeftStripped(s: string)
    ensures var r := StripLeft(s, IsSpace); r != "" ==> !IsSpace(r[0])
  {
    if s != "" && IsSpace(s[0]) { LeftStripped(s[1..]); }
  }

  lemma {:induction false} RightStripped(s: string)
    requires s != "" ==> !IsSpace(s[0])
    ensures var r := StripRight(s, IsSpace); r != "" ==> Stripped(r)
  {
    if s != "" && IsSpace(s[|s| - 1]) { RightStripped(s[..|s| - 1]); }
  }

  lemma StripStrips(s: string)
    ensures Strip(s) != "" ==> Stripped(Strip(s))
    ensures Stripped(s) ==> Strip(s) == s
  {
    LeftStripped(s);
    RightStripped(StripLeft(s, IsSpace));
  }

  function Distinct(xs: seq<string>): (r: seq<string>)
    ensures forall i, j | 0 <= i < j < |r| :: r[i] != r[j]
    ensures forall i | 0 <= i < |r| :: Stripped(r[i])
  {
    if xs == [] then []
    else
      var before, item := Distinct(xs[..|xs| - 1]), Strip(xs[|xs| - 1]);
      StripStrips(xs[|xs| - 1]);
      if item != "" && item !in before then before + [item] else before
  }

  function MergeStrings(left: seq<string>, right: seq<string>): (r: seq<string>)
    ensures forall i, j | 0 <= i < j < |r| :: r[i] != r[j]
  {
    Distinct(left + right)
  }

  predicate Names(xs: seq<string>, item: string) {
    item != "" && exists i :: 0 <= i < |xs| && Strip(xs[i]) == item
  }

  lemma {:induction false} DistinctNames(xs: seq<string>, item: string)
    ensures item in Distinct(xs) <==> Names(xs, item)
  {
    if xs != [] {
      var last := |xs| - 1;
      DistinctNames(xs[..last], item);
      if Names(xs[..last], item) {
        var i :| 0 <= i < last && Strip(xs[..last][i]) == item;
        assert Strip(xs[i]) == item;
      }
      if Names(xs, item) && Strip(xs[last]) != item {
        var i :| 0 <= i < |xs| && Strip(xs[i]) == item;
        assert Strip(xs[..last][i]) == item;
      }
    }
  }

  /** The merge lists each name of either side once, and no other. */
  lemma MergeStringsNames(left: seq<string>, right: seq<string>, item: string)
    ensures item in MergeStrings(left, right) <==> Names(left, item) || Names(right, item)
  {
    DistinctNames(left + right, item);
    if Names(left + right, item) {
      var i :| 0 <= i < |left + right| && Strip((left + right)[i]) == item;
      if i >= |left| { assert Strip(right[i - |left|]) == item; }
    }
    if Names(left, item) {
      var i :| 0 <= i < |left| && Strip(left[i]) == item;
      assert Strip((left + right)[i]) == item;
    }
    if Names(right, item) {
      var i :| 0 <= i < |right| && Strip(right[i]) == item;
      assert Strip((left + right)[|left| + i]) == item;
    }
  }

  predicate CleanNames(xs: seq<string>) {
    && (forall i | 0 <= i < |xs| :: Stripped(xs[i]))
    && (forall i, j | 0 <= i < j < |xs| :: xs[i] != xs[j])
  }

  lemma {:induction false} DistinctFixes(xs: seq<string>)
    requires CleanNames(xs)
    ensures Distinct(xs) == xs
  {
    if xs != [] {
      var last := |xs| - 1;
      DistinctFixes(xs[..last]);
      StripStrips(xs[last]);
      assert xs == xs[..last] + [xs[last]];
    }
  }

  lemma {:induction false} DistinctExtends(xs: seq<string>, ys: seq<string>)
    ensures Distinct(xs) <= Distinct(xs + ys)
    ensures (forall i | 0 <= i < |ys| :: Strip(ys[i]) == "" || Strip(ys[i]) in Distinct(xs)) ==> Distinct(xs + ys) == Distinct(xs)
  {
    if ys == [] {
      assert xs + ys == xs;
    } else {
      var last := |ys| - 1;
      DistinctExtends(xs, ys[..last]);
      assert (xs + ys)[..|xs + ys| - 1] == xs + ys[..last];
      assert forall i | 0 <= i < last :: ys[..last][i] == ys[i];
    }
  }

  /** Merging leaves a clean list in place, in its order, at the front; and merging the
      same names again adds nothing. */
  lemma MergeStringsLaws(a: seq<string>, b: seq<string>)
    ensures CleanNames(a) ==> a <= MergeStrings(a, b)
    ensures MergeStrings(MergeStrings(a, b), b) == MergeStrings(a, b)
  {
    DistinctExtends(a, b);
    if CleanNames(a) { DistinctFixes(a); }
    var merged := MergeStrings(a, b);
    DistinctFixes(merged);
    forall i | 0 <= i < |b| ensures Strip(b[i]) == "" || Strip(b[i]) in merged {
      if Strip(b[i]) != "" {
        assert Names(b, Strip(b[i]));
        MergeStringsNames(a, b, Strip(b[i]));
      }
    }
    DistinctExtends(merged, b);
  }

  // ----- The value that says something -----

  /** `empty` is the falsy value of the field's type. */
  function Prefer<T(==)>(existing: T, incoming: T, empty: T): T {
    if existing != empty || incoming == empty then existing else incoming
  }

  // ----- Metadata -----

  datatype Json =
    | JNull | JBool(flag: bool) | JInt(number: int) | JString(text: string)
    | JList(items: seq<Json>) | JObject(fields: map<string, Json>)

  type Metadata = map<string, Json>

  const PORTS := "listen_ports"

  /** `item.get(key)` */
  function Get(fields: map<string, Json>, key: string): Json {
    if key in fields then fields[key] else JNull
  }

  function Marker(item: Json): (Json, Json, Json)
    requires item.JObject?
  {
    (Get(item.fields, "address"), Get(item.fields, "port"), Get(item.fields, "process"))
  }

  function Markers(items: seq<Json>): set<(Json, Json, Json)> {
    set i | 0 <= i < |items| && items[i].JObject? :: Marker(items[i])
  }

  function Items(value: Json): seq<Json> {
    if value.JList? then value.items else []
  }

  function MergePorts(current: seq<Json>, incoming: seq<Json>): seq<Json> {
    if incoming == [] then current
    else
      var merged, item := MergePorts(current, incoming[..|incoming| - 1]), incoming[|incoming| - 1];
      if item.JObject? && Marker(item) !in Markers(merged) then merged + [item] else merged
  }

  function MergeFields(existing: map<string, Json>, incoming: map<string, Json>): map<string, Json> {
    incoming + existing
  }

  /** The code lists a stored `listen_ports`, so it has to be a list. */
  predicate PortsListed(m: Metadata) {
    PORTS in m ==> m[PORTS].JList?
  }

  function MergedValue(existing: Metadata, incoming: Metadata, key: string): Json
    requires key in existing || key in incoming
  {
    if key !in incoming then existing[key]
    else if key == PORTS then JList(MergePorts(if key in existing then Items(existing[key]) else [], Items(incoming[key])))
    else if key !in existing then incoming[key]
    else if existing[key].JObject? && incoming[key].JObject? then JObject(MergeFields(existing[key].fields, incoming[key].fields))
    else existing[key]
  }

  function MergeMetadata(existing: Metadata, incoming: Metadata): (m: Metadata)
    requires PortsListed(existing)
    ensures PortsListed(m) && m.Keys == existing.Keys + incoming.Keys
  {
    map key | key in existing.Keys + incoming.Keys :: MergedValue(existing, incoming, key)
  }

  lemma {:induction false} MarkersCovered(current: seq<Json>, incoming: seq<Json>)
    ensures Markers(current) <= Markers(MergePorts(current, incoming))
    ensures Markers(incoming) <= Markers(MergePorts(current, incoming))
  {
    if incoming != [] {
      var last := |incoming| - 1;
      var merged, all := MergePorts(current, incoming[..last]), MergePorts(current, incoming);
      MarkersCovered(current, incoming[..last]);
      assert forall i | 0 <= i < |merged| :: all[i] == merged[i];
      forall m | m in Markers(merged) ensures m in Markers(all) {
        var i :| 0 <= i < |merged| && merged[i].JObject? && Marker(merged[i]) == m;
        assert Marker(all[i]) == m;
      }
      forall m | m in Markers(incoming) ensures m in Markers(all) {
        var i :| 0 <= i < |incoming| && incoming[i].JObject? && Marker(incoming[i]) == m;
        if i < last {
          assert Marker(incoming[..last][i]) == m;
        } else if m !in Markers(merged) {
          assert Marker(all[|merged|]) == m;
        }
      }
    }
  }

  lemma {:induction false} KnownPortsAddNothing(current: seq<Json>, incoming: seq<Json>)
    requires Markers(incoming) <= Markers(current)
    ensures MergePorts(current, incoming) == current
  {
    if incoming != [] {
      var last := |incoming| - 1;
      forall m | m in Markers(incoming[..last]) ensures m in Markers(incoming) {
        var i :| 0 <= i < last && incoming[..last][i].JObject? && Marker(incoming[..last][i]) == m;
        assert Marker(incoming[i]) == m;
      }
      KnownPortsAddNothing(current, incoming[..last]);
      if incoming[last].JObject? { assert Marker(incoming[last]) in Markers(incoming); }
    }
  }

  /** Nothing that `incoming` says is new to `m`. */
  ghost predicate Absorbs(m: Metadata, incoming: Metadata) {
    PortsListed(m) && forall key | key in incoming ::
      key in m &&
      if key == PORTS then Markers(Items(incoming[key])) <= Markers(Items(m[key]))
      else m[key].JObject? && incoming[key].JObject? ==> incoming[key].fields.Keys <= m[key].fields.Keys
  }

  lemma AbsorbedAddsNothing(m: Metadata, incoming: Metadata)
    requires Absorbs(m, incoming)
    ensures MergeMetadata(m, incoming) == m
  {
    forall key | key in m ensures MergedValue(m, incoming, key) == m[key] {
      if key in incoming {
        if key == PORTS {
          KnownPortsAddNothing(Items(m[key]), Items(incoming[key]));
        } else if m[key].JObject? && incoming[key].JObject? {
          assert incoming[key].fields + m[key].fields == m[key].fields;
        }
      }
    }
  }

  lemma MergeAbsorbs(a: Metadata, b: Metadata)
    requires PortsListed(a)
    ensures Absorbs(MergeMetadata(a, b), b)
  {
    var m := MergeMetadata(a, b);
    if PORTS in b {
      MarkersCovered(if PORTS in a then Items(a[PORTS]) else [], Items(b[PORTS]));
    }
  }

  /** merge(merge(a, b), b) == merge(a, b), and what `a` says of its own keys stands. */
  lemma MergeMetadataLaws(a: Metadata, b: Metadata)
    requires PortsListed(a)
    ensures MergeMetadata(MergeMetadata(a, b), b) == MergeMetadata(a, b)
    ensures MergeMetadata(a, a) == a
    ensures forall key | key in a && !a[key].JObject? && key != PORTS :: MergeMetadata(a, b)[key] == a[key]
    ensures forall key | key in a && a[key].JObject? && key != PORTS ::
              MergeMetadata(a, b)[key].JObject? &&
              forall inner | inner in a[key].fields :: inner in MergeMetadata(a, b)[key].fields &&
                MergeMetadata(a, b)[key].fields[inner] == a[key].fields[inner]
  {
    MergeAbsorbs(a, b);
    AbsorbedAddsNothing(MergeMetadata(a, b), b);
    AbsorbedAddsNothing(a, a);
  }

  // ----- The loops that compute them -----

  method MergeUniqueStrings(left: seq<string>, right: seq<string>) returns (merged: seq<string>)
    ensures merged == MergeStrings(left, right)
  {
    var all := left + right;
    var seen: set<string> := {};
    merged := [];
    var i := 0;
    while i < |all|
      invariant 0 <= i <= |all|
      invariant merged == Distinct(all[..i]) && forall item :: item in seen <==> item in merged
    {
      assert all[..i + 1][..i] == all[..i];
      var normalized := Strip(all[i]);
      if normalized != "" && normalized !in seen {
        merged := merged + [normalized];
        seen := seen + {normalized};
      }
      i := i + 1;
    }
    assert all[..i] == all;
  }

  method MergeListenPorts(listed: seq<Json>, incoming: seq<Json>) returns (current: seq<Json>)
    ensures current == MergePorts(listed, incoming)
  {
    current := listed;
    var seen := Markers(listed);
    var i := 0;
    while i < |incoming|
      invariant 0 <= i <= |incoming|
      invariant current == MergePorts(listed, incoming[..i]) && seen == Markers(current)
    {
      assert incoming[..i + 1][..i] == incoming[..i];
      if incoming[i].JObject? {
        var marker := Marker(incoming[i]);
        if marker !in seen {
          MarkersAppend(current, incoming[i]);
          current := current + [incoming[i]];
          seen := seen + {marker};
        }
      }
      i := i + 1;
    }
    assert incoming[..i] == incoming;
  }

  lemma MarkersAppend(items: seq<Json>, item: Json)
    requires item.JObject?
    ensures Markers(items + [item]) == Markers(items) + {Marker(item)}
  {
    var all := items + [item];
    forall m ensures m in Markers(all) <==> m in Markers(items) || m == Marker(item) {
      if m in Markers(all) {
        var i :| 0 <= i < |all| && all[i].JObject? && Marker(all[i]) == m;
        if i < |items| { assert Marker(items[i]) == m; }
      }
      if m in Markers(items) {
        var i :| 0 <= i < |items| && items[i].JObject? && Marker(items[i]) == m;
        assert Marker(all[i]) == m;
      }
      assert Marker(all[|items|]) == Marker(item);
    }
  }

  method MergeEntries(existing: Metadata, incoming: Metadata) returns (merged: Metadata)
    requires PortsListed(existing)
    ensures merged == MergeMetadata(existing, incoming)
  {
    merged := existing;
    var left := incoming.Keys;
    while left != {}
      invariant left <= incoming.Keys
      invariant merged.Keys == existing.Keys + (incoming.Keys - left)
      invariant forall key | key in merged ::
                  merged[key] == if key in left then existing[key] else MergedValue(existing, incoming, key)
      decreases left
    {
      var key :| key in left;
      left := left - {key};
      var value := incoming[key];
      if key == PORTS {
        var current := MergeListenPorts(if key in merged then merged[key].items else [], Items(value));
        merged := merged[key := JList(current)];
      } else if key !in merged {
        merged := merged[key := value];
      } else if merged[key].JObject? && value.JObject? {
        merged := merged[key := JObject(MergeFields(merged[key].fields, value.fields))];
      }
    }
  }
}
