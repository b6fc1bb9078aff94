/** Traces that are extended and merged, any number of times: what stays true of nodes, edges and
    paths (internal/tracer/extension.go, ExtendBranch and MergeResults). */
module MergeTrace {
  import opened Fifo
  import opened Trace
  import opened TraceSound
  import opened TraceRun
  import opened Extension
  import Ledgers
  import Merge
  import opened MergeResult

  ghost predicate HasEntry(nodes: seq<Merge.Entry>, a: Address) {
    exists i :: 0 <= i < |nodes| && nodes[i].node.address == a
  }

  ghost predicate Joined(edges: seq<Edge>, x: Address, y: Address) {
    exists e :: e in edges && Joins(e, x, y)
  }

  /** The path of an edge leads from the seed over the edge's near end to its far end, and every step
      of it is a recorded edge. */
  ghost predicate PathJoined(edges: seq<Edge>, seed: Address, e: Edge) {
    var n := |e.path|;
    && n >= 2 && e.path[0] == seed && e.path[n - 2] == EdgeNear(e) && e.path[n - 1] == EdgeFar(e)
    && forall k :: 0 <= k < n - 1 ==> Joined(edges, e.path[k], e.path[k + 1])
  }

  ghost predicate GraphSound(nodes: seq<Merge.Entry>, edges: seq<Edge>, seed: Address) {
    && (forall i, j :: 0 <= i < j < |nodes| ==> nodes[i].node.address != nodes[j].node.address)
    && (forall e :: e in edges ==> HasEntry(nodes, EdgeNear(e)) && HasEntry(nodes, EdgeFar(e)))
    && (forall e :: e in edges ==> PathJoined(edges, seed, e))
  }

  function Plain(nodes: seq<Merge.Entry>): (r: seq<Node>)
    ensures |r| == |nodes| && forall i :: 0 <= i < |r| ==> r[i] == nodes[i].node
  {
    seq(|nodes|, i requires 0 <= i < |nodes| => nodes[i].node)
  }

  // ---------- a finished trace ----------

  lemma RecordedIsJoined(edges: seq<Edge>, seed: Address, e: Edge)
    requires PathRecorded(edges, seed, e) && e.depth > 0 && e.path[e.depth - 1] == EdgeNear(e)
    ensures PathJoined(edges, seed, e)
  {
    forall k | 0 <= k < |e.path| - 1
      ensures Joined(edges, e.path[k], e.path[k + 1])
    {
      assert Stepped(edges, e.direction, e.path[k], e.path[k + 1]);
    }
  }

  lemma LinkedEnds(edges: seq<Edge>, seed: Address, e: Edge)
    requires Linked(edges, seed, e)
    ensures e.depth > 0 && |e.path| == e.depth + 1 && e.path[e.depth - 1] == EdgeNear(e)
  {
    var trail :| EndsIn(edges, seed, trail, e);
    TrailShape(edges, seed, trail);
  }

  lemma TraceLinked(w: World, seed: Address, ds: seq<Direction>)
    requires Consistent(w) && ds != []
    ensures
      var o := TraceAll(w, seed, ds);
      o.Running? ==> AllLinked(o.trace.edges, seed)
  {
    StartAtLevel(w, seed, ds);
    hide Levels, AtLevel;
    LevelsSound(w, seed, ds, Start(w, seed, ds), 0);
  }

  /** Every finished trace is sound, whatever is known about its nodes. */
  lemma TraceIsSound(w: World, seed: Address, ds: seq<Direction>, nodes: seq<Merge.Entry>)
    requires Consistent(w) && ds != []
    requires
      var o := TraceAll(w, seed, ds);
      o.Running? && Plain(nodes) == o.trace.nodes
    ensures GraphSound(nodes, TraceAll(w, seed, ds).trace.edges, seed)
  {
    var t := TraceAll(w, seed, ds).trace;
    TraceSettles(w, seed, ds);
    TraceLinked(w, seed, ds);
    hide PathRecorded, PathJoined, TraceAll, Linked, TraceRun.Settled, KeysBacked, Consistent, Pairs;
    forall i, j | 0 <= i < j < |nodes|
      ensures nodes[i].node.address != nodes[j].node.address
    {
      assert t.nodes[i].address != t.nodes[j].address;
    }
    forall a | a in t.visitedNodes
      ensures HasEntry(nodes, a)
    {
      var i :| 0 <= i < |t.nodes| && t.nodes[i].address == a;
      assert nodes[i].node.address == a;
    }
    forall e | e in t.edges
      ensures PathJoined(t.edges, seed, e)
    {
      LinkedPath(t.edges, seed, e);
      LinkedEnds(t.edges, seed, e);
      RecordedIsJoined(t.edges, seed, e);
    }
  }

  // ---------- a merge ----------

  lemma MergedEntries(root: seq<Merge.Entry>, extra: seq<Merge.Entry>)
    requires forall i, j :: 0 <= i < j < |root| ==> root[i].node.address != root[j].node.address
    ensures
      var r := Merge.MergeNodes(root, extra);
      && (forall i, j :: 0 <= i < j < |r| ==> r[i].node.address != r[j].node.address)
      && (forall a :: HasEntry(root, a) || HasEntry(extra, a) ==> HasEntry(r, a))
  {
    var r := Merge.MergeNodes(root, extra);
    Merge.MergeNodesClosed(root, extra);
    Merge.MergeNodesKeeps(root, extra);
    hide Merge.MergeNodes, Merge.Informed, Merge.Records;
    forall i, j | 0 <= i < j < |r|
      ensures r[i].node.address != r[j].node.address
    {
      if j < |root| {
        assert Merge.Same(root[i], r[i]) && Merge.Same(root[j], r[j]);
      } else {
        assert Merge.IsFirst(r, j);
        assert !Merge.Same(r[i], r[j]);
      }
    }
    forall a | HasEntry(root, a) || HasEntry(extra, a)
      ensures HasEntry(r, a)
    {
      if HasEntry(root, a) {
        var i :| 0 <= i < |root| && root[i].node.address == a;
        assert Merge.Same(root[i], r[i]);
      } else {
        var i :| 0 <= i < |extra| && extra[i].node.address == a;
        assert extra[i] in extra;
        var j :| 0 <= j < |r| && Merge.Same(r[j], extra[i]);
      }
    }
  }

  predicate Joins(e: Edge, x: Address, y: Address) {
    (e.from == x && e.recipient == y) || (e.from == y && e.recipient == x)
  }

  /** An edge of either list, or one that stands for it, is in the merged list. */
  lemma JoinedMerged(root: seq<Edge>, extra: seq<Edge>, x: Address, y: Address)
    requires Joined(root, x, y) || Joined(extra, x, y)
    ensures Joined(Merge.AppendUnique(RecordKey, root, extra), x, y)
  {
    var r := Merge.AppendUnique(RecordKey, root, extra);
    Merge.AppendUniqueSound(RecordKey, root, extra);
    EdgesMerged(root, extra);
    hide Merge.AppendUnique, Joins;
    if Joined(root, x, y) {
      var e :| e in root && Joins(e, x, y);
      assert e in r;
    } else {
      var e :| e in extra && Joins(e, x, y);
      var f :| f in r && RecordKey(f) == RecordKey(e);
      SameJoins(e, f, x, y);
    }
  }

  lemma SameJoins(e: Edge, f: Edge, x: Address, y: Address)
    requires RecordKey(f) == RecordKey(e)
    ensures Joins(f, x, y) <==> Joins(e, x, y)
  {
  }

  lemma OwnStep(edges: seq<Edge>, e: Edge)
    requires e in edges
    ensures Joined(edges, EdgeNear(e), EdgeFar(e))
  {
    assert Joins(e, EdgeNear(e), EdgeFar(e));
  }

  /** An edge that continues the path of a root edge. */
  lemma ContinuedPath(root: seq<Edge>, extra: seq<Edge>, seed: Address, f: Edge, e: Edge)
    requires PathJoined(root, seed, f) && e in extra
    requires e.path == f.path + [EdgeFar(e)] && f.path[|f.path| - 1] == EdgeNear(e)
    ensures PathJoined(Merge.AppendUnique(RecordKey, root, extra), seed, e)
  {
    var r, n := Merge.AppendUnique(RecordKey, root, extra), |f.path|;
    OwnStep(extra, e);
    hide Joined, Merge.AppendUnique, EdgeNear, EdgeFar;
    forall k | 0 <= k < n
      ensures Joined(r, e.path[k], e.path[k + 1])
    {
      if k < n - 1 {
        assert Joined(root, f.path[k], f.path[k + 1]);
        assert e.path[k] == f.path[k] && e.path[k + 1] == f.path[k + 1];
      } else {
        assert e.path[k] == EdgeNear(e) && e.path[k + 1] == EdgeFar(e);
      }
      JoinedMerged(root, extra, e.path[k], e.path[k + 1]);
    }
  }

  /** An edge of the extension is such an edge. */
  lemma LeavesJoined(root: seq<Edge>, extra: seq<Edge>, seed: Address, q: Request, depth: nat, e: Edge)
    requires e in extra && Leaves(root, q, depth, e) && forall f :: f in root ==> PathJoined(root, seed, f)
    ensures PathJoined(Merge.AppendUnique(RecordKey, root, extra), seed, e)
  {
    var f :| f in root && Enters(q, f) && e.path == f.path + [EdgeFar(e)];
    hide PathJoined;
    ContinuedPath(root, extra, seed, f, e);
  }

  lemma PathStaysJoined(root: seq<Edge>, extra: seq<Edge>, seed: Address, e: Edge)
    requires PathJoined(root, seed, e)
    ensures PathJoined(Merge.AppendUnique(RecordKey, root, extra), seed, e)
  {
    hide Merge.AppendUnique;
    forall k | 0 <= k < |e.path| - 1
      ensures Joined(Merge.AppendUnique(RecordKey, root, extra), e.path[k], e.path[k + 1])
    {
      JoinedMerged(root, extra, e.path[k], e.path[k + 1]);
    }
  }

  lemma MergedEdge(
      root: seq<Edge>, extra: seq<Edge>, seed: Address, q: Request, depth: nat, e: Edge)
    requires e in Merge.AppendUnique(RecordKey, root, extra)
    requires forall f :: f in root ==> PathJoined(root, seed, f)
    requires forall f :: f in extra ==> Leaves(root, q, depth, f)
    ensures PathJoined(Merge.AppendUnique(RecordKey, root, extra), seed, e)
    ensures e in root || (e in extra && EdgeNear(e) == q.address)
  {
    EdgesMerged(root, extra);
    hide Merge.AppendUnique, PathJoined, Leaves;
    if e in root {
      PathStaysJoined(root, extra, seed, e);
    } else {
      LeavesEnd(root, q, depth, e);
      LeavesJoined(root, extra, seed, q, depth, e);
    }
  }

  lemma MergeIsSound(root: Result, extension: Result, q: Request, depth: nat, seed: Address)
    requires GraphSound(root.nodes, root.edges, seed) && HasEntry(extension.nodes, q.address)
    requires forall e :: e in extension.edges ==> Leaves(root.edges, q, depth, e)
    requires forall e :: e in extension.edges ==> HasEntry(extension.nodes, EdgeFar(e))
    ensures
      GraphSound(Merge.MergeNodes(root.nodes, extension.nodes),
                 Merge.AppendUnique(RecordKey, root.edges, extension.edges), seed)
  {
    var nodes := Merge.MergeNodes(root.nodes, extension.nodes);
    var edges := Merge.AppendUnique(RecordKey, root.edges, extension.edges);
    MergedEntries(root.nodes, extension.nodes);
    hide HasEntry, PathJoined, Leaves, Merge.AppendUnique, Merge.MergeNodes;
    forall e | e in edges
      ensures HasEntry(nodes, EdgeNear(e)) && HasEntry(nodes, EdgeFar(e)) && PathJoined(edges, seed, e)
    {
      MergedEdge(root.edges, extension.edges, seed, q, depth, e);
    }
  }

  lemma PlainHas(nodes: seq<Merge.Entry>, a: Address)
    requires HasNode(Plain(nodes), a)
    ensures HasEntry(nodes, a)
  {
    var i :| 0 <= i < |Plain(nodes)| && Plain(nodes)[i].address == a;
    assert nodes[i].node.address == a;
  }

  lemma HopHasAnchor(w: World, root: seq<Edge>, q: Request, depth: nat, h: Hop)
    requires HopSound(w, root, q, depth, h)
    ensures HasNode(h.nodes, q.address)
    ensures forall e :: e in h.edges ==> Leaves(root, q, depth, e) && HasNode(h.nodes, EdgeFar(e))
  {
    assert h.nodes[0].address == q.address;
  }

  /** Extending a sound result by one hop and merging the hop gives a sound result again: nodes stay
      distinct, both ends of every edge are nodes, and every path is recorded. */
  lemma ExtendAndMerge(
      w: World, root: Result, extension: Result, q: Request, assets: seq<nat>, seed: Address)
    requires GraphSound(root.nodes, root.edges, seed) && InOrder(assets, EnteringAssets(root.edges, q))
    requires
      var o := ExtendFrom(w, Plain(root.nodes), root.edges, q, assets);
      o.Done? && Plain(extension.nodes) == o.hop.nodes && extension.edges == o.hop.edges
    ensures
      var r := MergeResults(root, extension);
      GraphSound(r.nodes, r.edges, seed)
  {
    var hop := ExtendFrom(w, Plain(root.nodes), root.edges, q, assets).hop;
    ExtensionSound(w, Plain(root.nodes), root.edges, q, assets, 0);
    var depth := FindNode(Plain(root.nodes), q.address).value.depth;
    hide ExtendFrom, GraphSound, HopSound, Leaves, MergeMoney, Ledgers.Reconciled, InOrder, HasNode, HasEntry,
        Merge.AppendUnique;
    HopHasAnchor(w, root.edges, q, depth, hop);
    PlainHas(extension.nodes, q.address);
    forall e | e in extension.edges
      ensures HasEntry(extension.nodes, EdgeFar(e))
    {
      PlainHas(extension.nodes, EdgeFar(e));
    }
    MergeIsSound(root, extension, q, depth, seed);
  }

  lemma LeavesEnd(root: seq<Edge>, q: Request, depth: nat, e: Edge)
    requires Leaves(root, q, depth, e)
    ensures EdgeNear(e) == q.address
  {
  }
}
