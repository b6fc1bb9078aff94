/** What every step of a trace keeps. */
module TraceSound {
  import opened Fifo
  import opened Wrappers
  import opened Trace

  /** What the analyzer promises: a conversion touches the contract asked about, lies in the block of
      the transaction it explains, and only finitely many branch states can come out of it. */
  ghost predicate Consistent(w: World) {
    forall a, d, x {:trigger w.convert(a, d, x)} :: w.convert(a, d, x).Some? ==>
      var c := w.convert(a, d, x).value.transfer;
      Near(d, c) == a && c.block == x.block && ChildKey(d, c) in w.outcomes
  }

  function RootKeys(seed: Address, ds: seq<Direction>): set<StateKey> {
    set d | d in ds :: BranchKey(Root(seed, d))
  }

  /** Every branch state there can be. */
  function Universe(w: World, seed: Address, ds: seq<Direction>): set<StateKey> {
    RootKeys(seed, ds)
    + (set c | c in w.transfers :: ChildKey(In, c)) + (set c | c in w.transfers :: ChildKey(Out, c))
    + w.outcomes
  }

  // ---------- trails ----------

  /** Out trails go forward in time, in trails backward; 0 bounds nothing. */
  predicate InTime(d: Direction, anchor: nat, block: nat) {
    if d == Out then anchor <= block else anchor == 0 || block <= anchor
  }

  /** Recorded edges that lead from the seed, one after the other, each with its path so far. */
  ghost predicate Trail(edges: seq<Edge>, seed: Address, trail: seq<Edge>)
    decreases |trail|
  {
    |trail| > 0 &&
    var last := trail[|trail| - 1];
    && last in edges && last.depth == |trail|
    && if |trail| == 1 then EdgeNear(last) == seed && last.path == [seed, EdgeFar(last)]
       else
         var previous := trail[|trail| - 2];
         && Trail(edges, seed, trail[..|trail| - 1])
         && previous.direction == last.direction && EdgeFar(previous) == EdgeNear(last)
         && InTime(last.direction, previous.block, last.block)
         && last.path == previous.path + [EdgeFar(last)]
  }

  ghost predicate EndsIn(edges: seq<Edge>, seed: Address, trail: seq<Edge>, e: Edge) {
    Trail(edges, seed, trail) && trail[|trail| - 1] == e
  }

  ghost predicate Linked(edges: seq<Edge>, seed: Address, e: Edge) {
    exists trail :: EndsIn(edges, seed, trail, e)
  }

  lemma {:induction false} TrailGrows(edges: seq<Edge>, e: Edge, seed: Address, trail: seq<Edge>)
    requires Trail(edges, seed, trail)
    ensures Trail(edges + [e], seed, trail)
    decreases |trail|
  {
    if |trail| > 1 {
      TrailGrows(edges, e, seed, trail[..|trail| - 1]);
    }
  }

  lemma LinkedGrows(edges: seq<Edge>, e: Edge, seed: Address, f: Edge)
    requires Linked(edges, seed, f)
    ensures Linked(edges + [e], seed, f)
  {
    var trail :| EndsIn(edges, seed, trail, f);
    TrailGrows(edges, e, seed, trail);
    assert EndsIn(edges + [e], seed, trail, f);
  }

  /** A trail spelled out: its path visits the far ends in order, every consecutive pair is joined by
      a recorded edge in the traced direction, and the blocks only go one way. */
  lemma {:induction false} TrailShape(edges: seq<Edge>, seed: Address, trail: seq<Edge>)
    requires Trail(edges, seed, trail)
    ensures var path := trail[|trail| - 1].path;
      && |path| == |trail| + 1 && path[0] == seed
      && forall k :: 0 <= k < |trail| ==>
           && trail[k] in edges && trail[k].direction == trail[|trail| - 1].direction
           && EdgeNear(trail[k]) == path[k] && EdgeFar(trail[k]) == path[k + 1]
    ensures forall k {:trigger trail[k + 1]} ::
      0 <= k < |trail| - 1 ==> InTime(trail[k].direction, trail[k].block, trail[k + 1].block)
    decreases |trail|
  {
    if |trail| > 1 {
      var front, last := trail[..|trail| - 1], trail[|trail| - 1];
      TrailShape(edges, seed, front);
      forall k | 0 <= k < |trail|
        ensures trail[k] in edges && trail[k].direction == last.direction
        ensures EdgeNear(trail[k]) == last.path[k] && EdgeFar(trail[k]) == last.path[k + 1]
      {
        if k < |front| {
          assert trail[k] == front[k];
        }
      }
      forall k {:trigger trail[k + 1]} | 0 <= k < |trail| - 1
        ensures InTime(trail[k].direction, trail[k].block, trail[k + 1].block)
      {
        if k + 1 < |front| {
          assert front[k + 1] == trail[k + 1];
        }
      }
    }
  }

  // ---------- the invariant ----------

  ghost predicate HasNode(nodes: seq<Node>, a: Address) {
    exists i :: 0 <= i < |nodes| && nodes[i].address == a
  }

  ghost predicate NodesSound(nodes: seq<Node>, visited: set<Address>) {
    && (forall i, j :: 0 <= i < j < |nodes| ==> nodes[i].address != nodes[j].address)
    && (forall i :: 0 <= i < |nodes| ==> nodes[i].address in visited)
    && (forall a :: a in visited ==> HasNode(nodes, a))
    && |nodes| == |visited| <= MAX_NODES
  }

  /** Both ends of every edge are nodes; `a` may still be missing. */
  ghost predicate EndsKnown(edges: seq<Edge>, visited: set<Address>, a: Option<Address>) {
    forall e :: e in edges ==> EdgeNear(e) in visited && (EdgeFar(e) in visited || Some(EdgeFar(e)) == a)
  }

  ghost predicate AllLinked(edges: seq<Edge>, seed: Address) {
    forall e :: e in edges ==> Linked(edges, seed, e)
  }

  function EdgeKey(e: Edge): StateKey {
    StateKey(EdgeFar(e), e.direction, Only(e.asset), e.block, e.tx)
  }

  ghost predicate KeysBacked(edges: seq<Edge>, keys: set<StateKey>, roots: set<StateKey>) {
    forall k :: k in keys ==> k in roots || exists e :: e in edges && EdgeKey(e) == k
  }

  function Pairs(w: World, edges: seq<Edge>): seq<MoneyState> {
    if edges == [] then [] else Pairs(w, edges[..|edges| - 1]) + Pair(w, edges[|edges| - 1])
  }

  /** A branch is the seed, or stands at the far end of a recorded edge with its asset, block, amount
      and path. */
  ghost predicate Hangs(edges: seq<Edge>, visited: set<Address>, seed: Address, b: Branch, depth: nat) {
    && b.address in visited
    && if depth == 0 then b == Root(seed, b.direction)
       else exists e :: HangsFrom(edges, b, depth, e)
  }

  ghost predicate HangsFrom(edges: seq<Edge>, b: Branch, depth: nat, e: Edge) {
    && e in edges && e.depth == depth && e.direction == b.direction && EdgeFar(e) == b.address
    && e.path == b.path && e.block == b.anchor && b.asset == Only(e.asset) && b.amount == Some(e.amount)
    && b.entering.Some? && b.entering.value.block == e.block
  }

  ghost predicate AllHang(edges: seq<Edge>, visited: set<Address>, seed: Address, bs: seq<Branch>, depth: nat) {
    forall i :: 0 <= i < |bs| ==> Hangs(edges, visited, seed, bs[i], depth)
  }

  /** `a` is a far end that is not a node yet. */
  ghost predicate SoundBut(w: World, seed: Address, ds: seq<Direction>, t: Trace, a: Option<Address>) {
    && NodesSound(t.nodes, t.visitedNodes)
    && EndsKnown(t.edges, t.visitedNodes, a)
    && AllLinked(t.edges, seed)
    && KeysBacked(t.edges, t.visitedStates, RootKeys(seed, ds))
    && t.money == Pairs(w, t.edges)
    && t.visitedStates <= Universe(w, seed, ds)
  }

  ghost predicate Sound(w: World, seed: Address, ds: seq<Direction>, t: Trace) {
    SoundBut(w, seed, ds, t, None)
  }

  /** Nothing recorded is lost, and branches are only queued with a branch state not met before. */
  ghost predicate Extends(t: Trace, u: Trace) {
    && t.edges <= u.edges
    && t.visitedNodes <= u.visitedNodes
    && t.visitedStates <= u.visitedStates
    && t.next <= u.next
    && (t.next != u.next ==> t.visitedStates < u.visitedStates)
    && t.expanded <= u.expanded
    && t.processed <= u.processed
  }

  /** A transfer the branch may follow. */
  predicate Follows(w: World, seed: Address, ds: seq<Direction>, b: Branch, c: Transfer) {
    && Near(b.direction, c) == b.address
    && InTime(b.direction, b.anchor, c.block)
    && ChildKey(b.direction, c) in Universe(w, seed, ds)
  }

  // ---------- one candidate ----------

  lemma HangsGrows(
      edges: seq<Edge>, visited: set<Address>, edges': seq<Edge>, visited': set<Address>, seed: Address, b: Branch,
          depth: nat)
    requires Hangs(edges, visited, seed, b, depth) && edges <= edges' && visited <= visited'
    ensures Hangs(edges', visited', seed, b, depth)
  {
    if depth > 0 {
      var e :| HangsFrom(edges, b, depth, e);
      assert HangsFrom(edges', b, depth, e);
    }
  }

  lemma AllHangGrows(t: Trace, u: Trace, seed: Address, bs: seq<Branch>, depth: nat)
    requires AllHang(t.edges, t.visitedNodes, seed, bs, depth) && t.edges <= u.edges && t.visitedNodes <= u.visitedNodes
    ensures AllHang(u.edges, u.visitedNodes, seed, bs, depth)
  {
    forall i | 0 <= i < |bs|
      ensures Hangs(u.edges, u.visitedNodes, seed, bs[i], depth)
    {
      HangsGrows(t.edges, t.visitedNodes, u.edges, u.visitedNodes, seed, bs[i], depth);
    }
  }

  /** The edge a branch records continues the trail the branch hangs from. */
  lemma EdgeLinked(t: Trace, seed: Address, b: Branch, c: Transfer, amount: nat, depth: nat, converted: bool)
    requires AllLinked(t.edges, seed) && Hangs(t.edges, t.visitedNodes, seed, b, depth)
    requires Near(b.direction, c) == b.address && InTime(b.direction, b.anchor, c.block)
    ensures
      var e := EdgeOf(b, c, amount, depth, converted);
      Linked(t.edges + [e], seed, e)
  {
    var e := EdgeOf(b, c, amount, depth, converted);
    var edges := t.edges + [e];
    if depth == 0 {
      assert Trail(edges, seed, [e]);
      assert EndsIn(edges, seed, [e], e);
    } else {
      var f :| HangsFrom(t.edges, b, depth, f);
      var trail :| EndsIn(t.edges, seed, trail, f);
      TrailGrows(t.edges, e, seed, trail);
      assert (trail + [e])[..|trail|] == trail;
      assert Trail(edges, seed, trail + [e]);
      assert EndsIn(edges, seed, trail + [e], e);
    }
  }

  lemma RecordLinked(t: Trace, seed: Address, b: Branch, c: Transfer, amount: nat, depth: nat, converted: bool)
    requires AllLinked(t.edges, seed) && Hangs(t.edges, t.visitedNodes, seed, b, depth)
    requires Near(b.direction, c) == b.address && InTime(b.direction, b.anchor, c.block)
    ensures AllLinked(t.edges + [EdgeOf(b, c, amount, depth, converted)], seed)
  {
    var e := EdgeOf(b, c, amount, depth, converted);
    EdgeLinked(t, seed, b, c, amount, depth, converted);
    forall f | f in t.edges + [e]
      ensures Linked(t.edges + [e], seed, f)
    {
      if f in t.edges {
        LinkedGrows(t.edges, e, seed, f);
      }
    }
  }

  lemma PairsSnoc(w: World, edges: seq<Edge>, e: Edge)
    ensures Pairs(w, edges + [e]) == Pairs(w, edges) + Pair(w, e)
  {
    assert (edges + [e])[..|edges|] == edges;
  }

  lemma HasNodeSnoc(nodes: seq<Node>, n: Node, a: Address)
    requires HasNode(nodes, a) || n.address == a
    ensures HasNode(nodes + [n], a)
  {
    if HasNode(nodes, a) {
      var i :| 0 <= i < |nodes| && nodes[i].address == a;
      assert (nodes + [n])[i].address == a;
    } else {
      assert (nodes + [n])[|nodes|].address == a;
    }
  }

  lemma NewNodeSound(nodes: seq<Node>, visited: set<Address>, n: Node)
    requires NodesSound(nodes, visited) && n.address !in visited && |visited| < MAX_NODES
    ensures NodesSound(nodes + [n], visited + {n.address})
  {
    forall b | b in visited + {n.address}
      ensures HasNode(nodes + [n], b)
    {
      HasNodeSnoc(nodes, n, b);
    }
  }

  lemma SameNodesSound(nodes: seq<Node>, visited: set<Address>, r: seq<Node>)
    requires NodesSound(nodes, visited) && SameAddresses(r, nodes)
    ensures NodesSound(r, visited)
  {
    forall b | b in visited
      ensures HasNode(r, b)
    {
      var i :| 0 <= i < |nodes| && nodes[i].address == b;
      assert r[i].address == b;
    }
  }

  lemma RecordKeeps(
      w: World, seed: Address, ds: seq<Direction>, t: Trace, b: Branch, c: Transfer, amount: nat, depth: nat,
          converted: bool)
    requires Sound(w, seed, ds, t) && Hangs(t.edges, t.visitedNodes, seed, b, depth) && Follows(w, seed, ds, b, c)
    ensures SoundBut(w, seed, ds, Record(w, t, b.address, EdgeOf(b, c, amount, depth, converted)),
      Some(Far(b.direction, c)))
  {
    hide Universe, Linked, NodesSound;
    var e := EdgeOf(b, c, amount, depth, converted);
    RecordLinked(t, seed, b, c, amount, depth, converted);
    PairsSnoc(w, t.edges, e);
  }

  lemma JoinKeeps(w: World, seed: Address, ds: seq<Direction>, t: Trace, a: Address, depth: nat, stop: Stop)
    requires SoundBut(w, seed, ds, t, Some(a))
    requires a in t.visitedNodes || |t.visitedNodes| < MAX_NODES
    ensures Sound(w, seed, ds, AddNode(t, a, depth, stop))
  {
    hide Universe, Linked, NodesSound, HasNode;
    if a !in t.visitedNodes {
      NewNodeSound(t.nodes, t.visitedNodes, Node(a, depth, stop));
    }
  }

  /** The branch queued for a recorded edge hangs from that edge. */
  lemma ChildHangs(
      w: World, edges: seq<Edge>, visited: set<Address>, seed: Address,
      b: Branch, c: Transfer, amount: nat, depth: nat, converted: bool)
    requires EdgeOf(b, c, amount, depth, converted) in edges && Far(b.direction, c) in visited
    ensures Hangs(edges, visited, seed, Child(w, b, c, amount), depth + 1)
  {
    assert HangsFrom(edges, Child(w, b, c, amount), depth + 1, EdgeOf(b, c, amount, depth, converted));
  }

  lemma ReachKeeps(
      w: World, seed: Address, ds: seq<Direction>, t: Trace, b: Branch, c: Transfer, amount: nat, depth: nat,
          converted: bool)
    requires SoundBut(w, seed, ds, t, Some(Far(b.direction, c))) && Follows(w, seed, ds, b, c)
    requires EdgeOf(b, c, amount, depth, converted) in t.edges
    requires Far(b.direction, c) in t.visitedNodes || |t.visitedNodes| < MAX_NODES
    ensures Sound(w, seed, ds, Reach(w, t, b, c, amount, depth))
  {
    hide Universe, Linked, NodesSound, HasNode;
    var other := Far(b.direction, c);
    var key := ChildKey(b.direction, c);
    assert EdgeKey(EdgeOf(b, c, amount, depth, converted)) == key;
    if |t.visitedNodes| < MAX_NODES {
      var v := t.(
        partialData := t.partialData || w.partialData(other) || w.stopped(other),
        visitedStates := t.visitedStates + {key}, next := Reach(w, t, b, c, amount, depth).next);
      JoinKeeps(w, seed, ds, v, other, depth + 1, if w.terminal(other) then Given else Open);
    }
  }

  lemma ReachQueues(w: World, seed: Address, t: Trace, b: Branch, c: Transfer, amount: nat, depth: nat, converted: bool)
    requires EdgeOf(b, c, amount, depth, converted) in t.edges
    requires AllHang(t.edges, t.visitedNodes, seed, t.next, depth + 1) && ChildKey(b.direction, c) !in t.visitedStates
    ensures
      var u := Reach(w, t, b, c, amount, depth);
      AllHang(u.edges, u.visitedNodes, seed, u.next, depth + 1) && Extends(t, u)
  {
    hide Hangs, Child, EdgeOf, ChildKey;
    var u := Reach(w, t, b, c, amount, depth);
    AllHangGrows(t, u, seed, t.next, depth + 1);
    if |t.visitedNodes| < MAX_NODES {
      ChildHangs(w, u.edges, u.visitedNodes, seed, b, c, amount, depth, converted);
      assert u.next == t.next || u.next == t.next + [Child(w, b, c, amount)];
    }
  }
}
