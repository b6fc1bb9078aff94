/** Merging an extension into a root trace: what is appended, and what becomes of the nodes
    (internal/tracer/extension.go, MergeResults, appendNode and the appendUnique helpers). */
module Merge {
  import opened Trace
  import opened Fifo

  // ---------- appending what is new ----------

  function Keys<T, K(==)>(key: T -> K, s: seq<T>): set<K> {
    if s == [] then {} else Keys(key, s[..|s| - 1]) + {key(s[|s| - 1])}
  }

  lemma {:induction false} KeyAt<T, K>(key: T -> K, s: seq<T>, i: nat)
    requires i < |s|
    ensures key(s[i]) in Keys(key, s)
  {
    if i < |s| - 1 {
      KeyAt(key, s[..|s| - 1], i);
    }
  }

  lemma {:induction false} KeyFrom<T, K>(key: T -> K, s: seq<T>, k: K) returns (i: nat)
    requires k in Keys(key, s)
    ensures i < |s| && key(s[i]) == k
  {
    if key(s[|s| - 1]) == k {
      i := |s| - 1;
    } else {
      i := KeyFrom(key, s[..|s| - 1], k);
    }
  }

  /** Appends the elements whose key is not there yet, each key once. */
  function AppendUnique<T, K(==)>(key: T -> K, current: seq<T>, extra: seq<T>): seq<T> {
    if extra == [] then current
    else
      var r, x := AppendUnique(key, current, extra[..|extra| - 1]), extra[|extra| - 1];
      if key(x) in Keys(key, r) then r else r + [x]
  }

  method AppendUniqueLoop<T, K(==)>(key: T -> K, current: seq<T>, extra: seq<T>) returns (r: seq<T>)
    ensures r == AppendUnique(key, current, extra)
  {
    var seen: set<K> := {};
    for i := 0 to |current|
      invariant seen == Keys(key, current[..i])
    {
      KeysSnoc(key, current[..i], current[i]);
      assert current[..i] + [current[i]] == current[..i + 1];
      seen := seen + {key(current[i])};
    }
    assert current[..|current|] == current;
    r := current;
    for i := 0 to |extra|
      invariant r == AppendUnique(key, current, extra[..i])
      invariant seen == Keys(key, r)
    {
      assert extra[..i + 1][..i] == extra[..i];
      if key(extra[i]) !in seen {
        KeysSnoc(key, r, extra[i]);
        r := r + [extra[i]];
        seen := seen + {key(extra[i])};
      }
    }
    assert extra[..|extra|] == extra;
  }

  lemma KeysSnoc<T, K>(key: T -> K, s: seq<T>, x: T)
    ensures Keys(key, s + [x]) == Keys(key, s) + {key(x)}
  {
    assert (s + [x])[..|s|] == s;
  }

  /** The current elements stay in front, the others follow in their order with keys that were not
      there, and every key is there in the end. */
  lemma {:induction false} AppendUniqueSound<T, K>(key: T -> K, current: seq<T>, extra: seq<T>)
    ensures
      var r := AppendUnique(key, current, extra);
      && current <= r
      && (forall i :: |current| <= i < |r| ==> r[i] in extra && key(r[i]) !in Keys(key, current))
      && (forall i, j :: |current| <= i < j < |r| ==> key(r[i]) != key(r[j]))
      && Keys(key, r) == Keys(key, current) + Keys(key, extra)
  {
    if extra != [] {
      var front, x := extra[..|extra| - 1], extra[|extra| - 1];
      assert extra == front + [x];
      AppendUniqueSound(key, current, front);
      KeysSnoc(key, front, x);
      var r := AppendUnique(key, current, front);
      if key(x) !in Keys(key, r) {
        KeysSnoc(key, r, x);
        forall i | 0 <= i < |r|
          ensures key(r[i]) != key(x)
        {
          KeyAt(key, r, i);
        }
      }
    }
  }

  /** The k-th new element is the one in place k of the extension, the first there with its key. */
  ghost predicate Places<T, K>(key: T -> K, current: seq<T>, extra: seq<T>, r: seq<T>, places: seq<nat>) {
    && |r| == |current| + |places|
    && (forall k :: 0 <= k < |places| ==>
          places[k] < |extra| && r[|current| + k] == extra[places[k]] && FirstPlace(key, extra, places[k]))
    && forall k, l :: 0 <= k < l < |places| ==> places[k] < places[l]
  }

  ghost predicate FirstPlace<T, K>(key: T -> K, extra: seq<T>, p: nat)
    requires p < |extra|
  {
    forall i :: 0 <= i < p ==> key(extra[i]) != key(extra[p])
  }

  lemma FirstPlaceStays<T, K>(key: T -> K, extra: seq<T>, x: T, p: nat)
    requires p < |extra| && FirstPlace(key, extra, p)
    ensures FirstPlace(key, extra + [x], p)
  {
  }

  lemma PlacesLonger<T, K>(key: T -> K, current: seq<T>, extra: seq<T>, x: T, r: seq<T>, places: seq<nat>)
    requires Places(key, current, extra, r, places)
    ensures Places(key, current, extra + [x], r, places)
  {
    hide FirstPlace;
    forall k | 0 <= k < |places|
      ensures FirstPlace(key, extra + [x], places[k])
    {
      FirstPlaceStays(key, extra, x, places[k]);
    }
  }

  lemma PlacesSnoc<T, K>(key: T -> K, current: seq<T>, extra: seq<T>, x: T, r: seq<T>, places: seq<nat>)
    requires Places(key, current, extra, r, places) && FirstPlace(key, extra + [x], |extra|)
    ensures Places(key, current, extra + [x], r + [x], places + [|extra|])
  {
    PlacesLonger(key, current, extra, x, r, places);
    hide FirstPlace;
  }

  /** New elements come in the order of their first appearance. */
  lemma {:induction false} NewInOrder<T, K>(key: T -> K, current: seq<T>, extra: seq<T>) returns (places: seq<nat>)
    ensures Places(key, current, extra, AppendUnique(key, current, extra), places)
  {
    places := [];
    if extra != [] {
      var front, x := extra[..|extra| - 1], extra[|extra| - 1];
      assert extra == front + [x];
      places := NewInOrder(key, current, front);
      AppendUniqueSound(key, current, front);
      hide Places, Keys;
      var r := AppendUnique(key, current, front);
      if key(x) in Keys(key, r) {
        PlacesLonger(key, current, front, x, r, places);
      } else {
        forall i | 0 <= i < |front|
          ensures key(extra[i]) != key(x)
        {
          KeyAt(key, front, i);
        }
        PlacesSnoc(key, current, front, x, r, places);
        places := places + [|front|];
      }
    }
  }

  lemma {:induction false} NothingNew<T, K>(key: T -> K, current: seq<T>, extra: seq<T>)
    requires Keys(key, extra) <= Keys(key, current)
    ensures AppendUnique(key, current, extra) == current
  {
    if extra != [] {
      var front, x := extra[..|extra| - 1], extra[|extra| - 1];
      assert extra == front + [x];
      KeysSnoc(key, front, x);
      NothingNew(key, current, front);
    }
  }

  /** Appending the same elements again changes nothing. */
  lemma AppendUniqueTwice<T, K>(key: T -> K, current: seq<T>, extra: seq<T>)
    ensures AppendUnique(key, AppendUnique(key, current, extra), extra) == AppendUnique(key, current, extra)
  {
    AppendUniqueSound(key, current, extra);
    NothingNew(key, AppendUnique(key, current, extra), extra);
  }

  lemma {:induction false} AppendUniqueConcat<T, K>(key: T -> K, current: seq<T>, a: seq<T>, b: seq<T>)
    ensures AppendUnique(key, AppendUnique(key, current, a), b) == AppendUnique(key, current, a + b)
  {
    if b == [] {
      assert a + b == a;
    } else {
      AppendUniqueConcat(key, current, a, b[..|b| - 1]);
      assert (a + b)[..|a + b| - 1] == a + b[..|b| - 1];
    }
  }

  // ---------- nodes ----------

  datatype Profile = Profile(kind: string, protocol: string, roles: seq<string>)

  /** A node and what is known about its address. */
  datatype Entry = Entry(node: Node, profile: Profile)

  predicate Same(x: Entry, y: Entry) { x.node.address == y.node.address }

  function RoleKey(role: string): string { role }

  function AddRoles(roles: seq<string>, extra: seq<string>): seq<string> {
    AppendUnique(RoleKey, roles, extra)
  }

  /** A node takes over what a second record of it knows better. */
  function Update(x: Entry, y: Entry): Entry {
    Entry(if y.node.stop != Open then x.node.(stop := y.node.stop) else x.node,
          Profile(if y.profile.kind != "" && y.profile.kind != "unknown" then y.profile.kind else x.profile.kind,
                  if y.profile.protocol != "" then y.profile.protocol else x.profile.protocol,
                  AddRoles(x.profile.roles, y.profile.roles)))
  }

  function AppendNode(nodes: seq<Entry>, node: Entry): seq<Entry> {
    if nodes == [] then [node]
    else if Same(nodes[0], node) then [Update(nodes[0], node)] + nodes[1..]
    else [nodes[0]] + AppendNode(nodes[1..], node)
  }

  /** The search for the node, and the update in place. */
  method AppendNodeLoop(nodes: seq<Entry>, node: Entry) returns (r: seq<Entry>)
    ensures r == AppendNode(nodes, node)
  {
    hide Update;
    for i := 0 to |nodes|
      invariant forall k :: 0 <= k < i ==> !Same(nodes[k], node)
    {
      if Same(nodes[i], node) {
        r := nodes[i := Update(nodes[i], node)];
        AppendNodeFound(nodes, node, i);
        return;
      }
    }
    AppendNodeMissing(nodes, node);
    r := nodes + [node];
  }

  lemma {:induction false} AppendNodeFound(nodes: seq<Entry>, node: Entry, i: nat)
    requires i < |nodes| && Same(nodes[i], node) && forall k :: 0 <= k < i ==> !Same(nodes[k], node)
    ensures AppendNode(nodes, node) == nodes[i := Update(nodes[i], node)]
  {
    hide Update;
    if i > 0 {
      AppendNodeFound(nodes[1..], node, i - 1);
    }
  }

  lemma {:induction false} AppendNodeMissing(nodes: seq<Entry>, node: Entry)
    requires forall k :: 0 <= k < |nodes| ==> !Same(nodes[k], node)
    ensures AppendNode(nodes, node) == nodes + [node]
  {
    if nodes != [] {
      AppendNodeMissing(nodes[1..], node);
    }
  }

  function MergeNodes(nodes: seq<Entry>, extra: seq<Entry>): seq<Entry> {
    if extra == [] then nodes else AppendNode(MergeNodes(nodes, extra[..|extra| - 1]), extra[|extra| - 1])
  }

  // ---------- merged nodes, in closed form ----------

  /** The last value that is known, or else the one there was. */
  function Newest<V>(known: V -> bool, value: V, values: seq<V>): V {
    if values == [] then value
    else if known(values[|values| - 1]) then values[|values| - 1]
    else Newest(known, value, values[..|values| - 1])
  }

  lemma {:induction false} NewestTwice<V>(known: V -> bool, value: V, values: seq<V>)
    ensures Newest(known, Newest(known, value, values), values) == Newest(known, value, values)
  {
    if values != [] && !known(values[|values| - 1]) {
      NewestTwice(known, value, values[..|values| - 1]);
    }
  }

  /** The records of one address. */
  function Records(extra: seq<Entry>, a: Address): seq<Entry> {
    if extra == [] then []
    else
      Records(extra[..|extra| - 1], a) + if extra[|extra| - 1].node.address == a then [extra[|extra| - 1]] else []
  }

  function Stops(records: seq<Entry>): seq<Stop> {
    seq(|records|, i requires 0 <= i < |records| => records[i].node.stop)
  }

  function Kinds(records: seq<Entry>): seq<string> {
    seq(|records|, i requires 0 <= i < |records| => records[i].profile.kind)
  }

  function Protocols(records: seq<Entry>): seq<string> {
    seq(|records|, i requires 0 <= i < |records| => records[i].profile.protocol)
  }

  function Roles(records: seq<Entry>): seq<string> {
    if records == [] then [] else Roles(records[..|records| - 1]) + records[|records| - 1].profile.roles
  }

  function KnownKind(kind: string): bool { kind != "" && kind != "unknown" }

  function KnownProtocol(protocol: string): bool { protocol != "" }

  function Closed(stop: Stop): bool { stop != Open }

  /** A node after all records of its address: of each kind of knowledge the latest, all roles in the
      order in which they appeared. */
  function Informed(x: Entry, records: seq<Entry>): Entry {
    Entry(x.node.(stop := Newest(Closed, x.node.stop, Stops(records))),
          Profile(Newest(KnownKind, x.profile.kind, Kinds(records)),
                  Newest(KnownProtocol, x.profile.protocol, Protocols(records)),
                  AddRoles(x.profile.roles, Roles(records))))
  }

  lemma InformedSnoc(x: Entry, records: seq<Entry>, y: Entry)
    ensures Informed(x, records + [y]) == Update(Informed(x, records), y)
    ensures Informed(x, []) == x
  {
    var all := records + [y];
    assert all[..|records|] == records;
    assert Stops(all)[..|records|] == Stops(records);
    assert Kinds(all)[..|records|] == Kinds(records);
    assert Protocols(all)[..|records|] == Protocols(records);
    AppendUniqueConcat(RoleKey, x.profile.roles, Roles(records), y.profile.roles);
  }

  lemma InformedTwice(x: Entry, records: seq<Entry>)
    ensures Informed(Informed(x, records), records) == Informed(x, records)
  {
    NewestTwice(Closed, x.node.stop, Stops(records));
    NewestTwice(KnownKind, x.profile.kind, Kinds(records));
    NewestTwice(KnownProtocol, x.profile.protocol, Protocols(records));
    AppendUniqueTwice(RoleKey, x.profile.roles, Roles(records));
  }

  /** A record adds nothing to itself. */
  lemma InformedBySelf(y: Entry)
    ensures Informed(y, [y]) == y
  {
    assert [y][..0] == [];
    assert [] + [y] == [y];
    InformedSnoc(y, [], y);
    NothingNew(RoleKey, y.profile.roles, y.profile.roles);
  }

  /** The first node of an address is the one that counts. */
  ghost predicate IsFirst(nodes: seq<Entry>, i: nat)
    requires i < |nodes|
  {
    forall k :: 0 <= k < i ==> !Same(nodes[k], nodes[i])
  }

  /** What merging makes of each node: the root's keep their places, each informed by the extension's
      records of its address; addresses that were missing follow, informed by all their records. */
  ghost predicate MergedNodes(nodes: seq<Entry>, extra: seq<Entry>, r: seq<Entry>) {
    && |nodes| <= |r|
    && (forall i :: 0 <= i < |nodes| ==>
          r[i] == if IsFirst(nodes, i) then Informed(nodes[i], Records(extra, nodes[i].node.address)) else nodes[i])
    && (forall i :: |nodes| <= i < |r| ==>
          IsFirst(r, i) && exists y :: y in extra && r[i] == Informed(y, Records(extra, y.node.address)))
    && (forall y :: y in extra ==> exists i :: 0 <= i < |r| && Same(r[i], y))
  }

  lemma {:induction false} RecordsOf(extra: seq<Entry>, a: Address)
    ensures (forall y :: y in extra ==> y.node.address != a) ==> Records(extra, a) == []
  {
    if extra != [] {
      RecordsOf(extra[..|extra| - 1], a);
    }
  }

  lemma RecordsSnoc(extra: seq<Entry>, y: Entry, a: Address)
    ensures Records(extra + [y], a) == Records(extra, a) + if y.node.address == a then [y] else []
  {
    assert (extra + [y])[..|extra|] == extra;
  }

  lemma InformedAddress(x: Entry, records: seq<Entry>)
    ensures Informed(x, records).node.address == x.node.address && Informed(x, records).node.depth == x.node.depth
  {
  }

  /** A root node is the first of its address in the merged list exactly when it is in the root. */
  lemma FirstPlaces(nodes: seq<Entry>, extra: seq<Entry>, r: seq<Entry>, i: nat)
    requires MergedNodes(nodes, extra, r) && i < |nodes|
    ensures forall k :: 0 <= k <= i ==> r[k].node.address == nodes[k].node.address
    ensures IsFirst(nodes, i) <==> IsFirst(r, i)
  {
    hide Records, Informed;
    forall k | 0 <= k <= i
      ensures r[k].node.address == nodes[k].node.address
    {
      InformedAddress(nodes[k], Records(extra, nodes[k].node.address));
    }
  }

  /** What one more record does to a node. */
  lemma OneRecord(front: seq<Entry>, y: Entry, x: Entry, before: Entry, after: Entry)
    requires before == Informed(x, Records(front, x.node.address))
    requires after == if Same(before, y) then Update(before, y) else before
    ensures after == Informed(x, Records(front + [y], x.node.address))
  {
    InformedAddress(x, Records(front, x.node.address));
    hide Informed, Update, Records;
    var records := Records(front, x.node.address);
    RecordsSnoc(front, y, x.node.address);
    InformedSnoc(x, records, y);
    assert records + [] == records;
  }

  /** A list of nodes after one more record: the first node of its address takes it over. */
  ghost predicate OneUpdated(r: seq<Entry>, y: Entry, u: seq<Entry>) {
    && |r| <= |u|
    && forall i :: 0 <= i < |r| ==> u[i] == if IsFirst(r, i) && Same(r[i], y) then Update(r[i], y) else r[i]
  }

  lemma RootUpdated(nodes: seq<Entry>, front: seq<Entry>, y: Entry, r: seq<Entry>, u: seq<Entry>, i: nat)
    requires MergedNodes(nodes, front, r) && OneUpdated(r, y, u) && i < |nodes|
    ensures
      u[i] == if IsFirst(nodes, i) then Informed(nodes[i], Records(front + [y], nodes[i].node.address)) else nodes[i]
  {
    FirstPlaces(nodes, front, r, i);
    hide Informed, Update, Records;
    if IsFirst(nodes, i) {
      OneRecord(front, y, nodes[i], r[i], u[i]);
    }
  }

  lemma NewUpdated(nodes: seq<Entry>, front: seq<Entry>, y: Entry, r: seq<Entry>, u: seq<Entry>, i: nat)
    requires MergedNodes(nodes, front, r) && OneUpdated(r, y, u) && |nodes| <= i < |r|
    ensures IsFirst(u, i) && exists x :: x in front + [y] && u[i] == Informed(x, Records(front + [y], x.node.address))
  {
    UpdatedAddresses(r, y, u);
    hide Informed, Update, Records;
    assert IsFirst(r, i);
    var x :| x in front && r[i] == Informed(x, Records(front, x.node.address));
    OneRecord(front, y, x, r[i], u[i]);
    assert x in front + [y];
  }

  lemma UpdatedAddresses(r: seq<Entry>, y: Entry, u: seq<Entry>)
    requires OneUpdated(r, y, u)
    ensures forall i :: 0 <= i < |r| ==> Same(u[i], r[i])
  {
  }

  /** One more record of an address that has a node, the first at place j. */
  lemma RecordFound(nodes: seq<Entry>, front: seq<Entry>, y: Entry, r: seq<Entry>, j: nat)
    requires MergedNodes(nodes, front, r) && j < |r| && Same(r[j], y) && IsFirst(r, j)
    ensures MergedNodes(nodes, front + [y], r[j := Update(r[j], y)])
  {
    var u := r[j := Update(r[j], y)];
    assert OneUpdated(r, y, u);
    UpdatedAddresses(r, y, u);
    AllPlaced(front, y, r, u, j);
    MergedUpdated(nodes, front, y, r, u);
  }

  lemma MergedUpdated(nodes: seq<Entry>, front: seq<Entry>, y: Entry, r: seq<Entry>, u: seq<Entry>)
    requires MergedNodes(nodes, front, r) && OneUpdated(r, y, u)
    requires |r| <= |u|
    requires |u| > |r| ==> u == r + [y] && IsFirst(u, |r|) && Informed(y, Records(front + [y], y.node.address)) == y
    requires forall x :: x in front + [y] ==> exists i :: 0 <= i < |u| && Same(u[i], x)
    ensures MergedNodes(nodes, front + [y], u)
  {
    hide Informed, Update, Records, OneUpdated;
    forall i | 0 <= i < |nodes|
      ensures
        u[i] == if IsFirst(nodes, i) then Informed(nodes[i], Records(front + [y], nodes[i].node.address)) else nodes[i]
    {
      RootUpdated(nodes, front, y, r, u, i);
    }
    forall i | |nodes| <= i < |u|
      ensures IsFirst(u, i)
      ensures exists x :: x in front + [y] && u[i] == Informed(x, Records(front + [y], x.node.address))
    {
      if i < |r| {
        NewUpdated(nodes, front, y, r, u, i);
      } else {
        assert u[i] == y && y in front + [y];
      }
    }
  }

  lemma AllPlaced(front: seq<Entry>, y: Entry, r: seq<Entry>, u: seq<Entry>, j: nat)
    requires forall x :: x in front ==> exists i :: 0 <= i < |r| && Same(r[i], x)
    requires |r| <= |u| && forall i :: 0 <= i < |r| ==> Same(u[i], r[i])
    requires j < |u| && Same(u[j], y)
    ensures forall x :: x in front + [y] ==> exists i :: 0 <= i < |u| && Same(u[i], x)
  {
    forall x | x in front + [y]
      ensures exists i :: 0 <= i < |u| && Same(u[i], x)
    {
      if x in front {
        var i :| 0 <= i < |r| && Same(r[i], x);
        assert Same(u[i], x);
      }
    }
  }

  /** One more record of an address that has none. */
  lemma RecordMissing(nodes: seq<Entry>, front: seq<Entry>, y: Entry, r: seq<Entry>)
    requires MergedNodes(nodes, front, r) && forall k :: 0 <= k < |r| ==> !Same(r[k], y)
    ensures MergedNodes(nodes, front + [y], r + [y])
  {
    OnlyRecord(front, y, r);
    AllPlaced(front, y, r, r + [y], |r|);
    MergedUpdated(nodes, front, y, r, r + [y]);
  }

  lemma OnlyRecord(front: seq<Entry>, y: Entry, r: seq<Entry>)
    requires forall x :: x in front ==> exists i :: 0 <= i < |r| && Same(r[i], x)
    requires forall k :: 0 <= k < |r| ==> !Same(r[k], y)
    ensures Informed(y, Records(front + [y], y.node.address)) == y
  {
    forall x | x in front
      ensures x.node.address != y.node.address
    {
      var i :| 0 <= i < |r| && Same(r[i], x);
    }
    RecordsOf(front, y.node.address);
    RecordsSnoc(front, y, y.node.address);
    InformedBySelf(y);
  }

  lemma {:induction false} FindFirst(nodes: seq<Entry>, y: Entry) returns (j: nat)
    ensures j <= |nodes| && forall k :: 0 <= k < j ==> !Same(nodes[k], y)
    ensures j < |nodes| ==> Same(nodes[j], y) && IsFirst(nodes, j)
  {
    j := 0;
    while j < |nodes| && !Same(nodes[j], y)
      invariant j <= |nodes| && forall k :: 0 <= k < j ==> !Same(nodes[k], y)
    {
      j := j + 1;
    }
  }

  /** Merging in closed form, whatever the two lists repeat. */
  lemma {:induction false} MergeNodesClosed(nodes: seq<Entry>, extra: seq<Entry>)
    ensures MergedNodes(nodes, extra, MergeNodes(nodes, extra))
  {
    hide MergedNodes, AppendNode, Update;
    if extra == [] {
      NothingMerged(nodes);
    } else {
      var front, y := extra[..|extra| - 1], extra[|extra| - 1];
      assert extra == front + [y];
      MergeNodesClosed(nodes, front);
      var r := MergeNodes(nodes, front);
      var j := FindFirst(r, y);
      if j < |r| {
        AppendNodeFound(r, y, j);
        RecordFound(nodes, front, y, r, j);
      } else {
        AppendNodeMissing(r, y);
        RecordMissing(nodes, front, y, r);
      }
    }
  }

  lemma NothingMerged(nodes: seq<Entry>)
    ensures MergedNodes(nodes, [], nodes)
  {
    forall i | 0 <= i < |nodes|
      ensures Informed(nodes[i], Records([], nodes[i].node.address)) == nodes[i]
    {
      InformedSnoc(nodes[i], [], nodes[i]);
    }
  }

  /** The root's nodes stay in place under their address and depth: closed ones stay closed, roles
      are only added. */
  ghost predicate NodesKept(nodes: seq<Entry>, r: seq<Entry>) {
    && |nodes| <= |r|
    && forall i :: 0 <= i < |nodes| ==>
         && Same(nodes[i], r[i]) && r[i].node.depth == nodes[i].node.depth
         && (nodes[i].node.stop != Open ==> r[i].node.stop != Open)
         && nodes[i].profile.roles <= r[i].profile.roles
  }

  lemma {:induction false} NewestKnown<V>(known: V -> bool, value: V, values: seq<V>)
    requires known(value)
    ensures known(Newest(known, value, values))
  {
    if values != [] && !known(values[|values| - 1]) {
      NewestKnown(known, value, values[..|values| - 1]);
    }
  }

  lemma MergeNodesKeeps(nodes: seq<Entry>, extra: seq<Entry>)
    ensures NodesKept(nodes, MergeNodes(nodes, extra))
  {
    MergeNodesClosed(nodes, extra);
    forall i | 0 <= i < |nodes| && IsFirst(nodes, i)
      ensures
        var u := Informed(nodes[i], Records(extra, nodes[i].node.address));
        && u.node.address == nodes[i].node.address && u.node.depth == nodes[i].node.depth
        && (nodes[i].node.stop != Open ==> u.node.stop != Open)
        && nodes[i].profile.roles <= u.profile.roles
    {
      var records := Records(extra, nodes[i].node.address);
      AppendUniqueSound(RoleKey, nodes[i].profile.roles, Roles(records));
      if nodes[i].node.stop != Open {
        NewestKnown(Closed, nodes[i].node.stop, Stops(records));
      }
    }
  }

  /** Merging the same nodes again changes nothing, whatever the lists repeat. */
  lemma MergeNodesTwice(nodes: seq<Entry>, extra: seq<Entry>)
    ensures MergeNodes(MergeNodes(nodes, extra), extra) == MergeNodes(nodes, extra)
  {
    var r := MergeNodes(nodes, extra);
    var u := MergeNodes(r, extra);
    MergeNodesClosed(nodes, extra);
    MergeNodesClosed(r, extra);
    hide Informed, Records, MergeNodes;
    forall i | 0 <= i < |r| && IsFirst(r, i)
      ensures Informed(r[i], Records(extra, r[i].node.address)) == r[i]
    {
      if i < |nodes| {
        FirstPlaces(nodes, extra, r, i);
        InformedTwice(nodes[i], Records(extra, nodes[i].node.address));
      } else {
        var x :| x in extra && r[i] == Informed(x, Records(extra, x.node.address));
        InformedAddress(x, Records(extra, x.node.address));
        InformedTwice(x, Records(extra, x.node.address));
      }
    }
    if |u| > |r| {
      NothingFollows(r, extra, u);
    }
  }

  /** With every address in place already, nothing is appended. */
  lemma NothingFollows(r: seq<Entry>, extra: seq<Entry>, u: seq<Entry>)
    requires MergedNodes(r, extra, u) && forall y :: y in extra ==> exists i :: 0 <= i < |r| && Same(r[i], y)
    ensures |u| == |r|
  {
    hide Records;
    if |u| > |r| {
      var n := |r|;
      assert IsFirst(u, n);
      var y :| y in extra && u[n] == Informed(y, Records(extra, y.node.address));
      InformedAddress(y, Records(extra, y.node.address));
      var i :| 0 <= i < |r| && Same(r[i], y);
      FirstPlaces(r, extra, u, i);
    }
  }
}
