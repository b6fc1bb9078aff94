/** The steps of a trace keep what TraceSound states: one candidate, one branch, one level. */
module TraceSteps {
  import opened Fifo
  import opened Trace
  import opened TraceSound

  ghost predicate Fine(w: World, seed: Address, ds: seq<Direction>, t: Trace, depth: nat) {
    && Sound(w, seed, ds, t)
    && AllHang(t.edges, t.visitedNodes, seed, t.next, depth + 1)
  }

  ghost predicate Standing(t: Trace, seed: Address, b: Branch, depth: nat) {
    Hangs(t.edges, t.visitedNodes, seed, b, depth)
  }

  // ---------- open nodes ----------

  ghost predicate HasEdgeFrom(edges: seq<Edge>, a: Address) {
    exists e :: e in edges && EdgeNear(e) == a
  }

  ghost predicate Queued(next: seq<Branch>, a: Address) {
    exists i :: 0 <= i < |next| && next[i].address == a
  }

  /** An open node has an edge from it, or a branch of it is still to be looked at. */
  ghost predicate Excused(edges: seq<Edge>, next: seq<Branch>, waiting: set<Address>, a: Address) {
    HasEdgeFrom(edges, a) || Queued(next, a) || a in waiting
  }

  ghost predicate Loose(t: Trace, waiting: set<Address>) {
    && (forall i ::
        0 <= i < |t.nodes| && t.nodes[i].stop == Open ==> Excused(t.edges, t.next, waiting, t.nodes[i].address))
    && (forall a :: a in t.expanded ==> HasEdgeFrom(t.edges, a))
  }

  lemma ExcusedGrows(
      edges: seq<Edge>, next: seq<Branch>, edges': seq<Edge>, next': seq<Branch>, waiting: set<Address>, a: Address)
    requires Excused(edges, next, waiting, a) && edges <= edges' && next <= next'
    ensures Excused(edges', next', waiting, a)
  {
    if Queued(next, a) {
      var i :| 0 <= i < |next| && next[i].address == a;
      assert next'[i].address == a;
    }
  }

  /** Nodes may be closed, and edges and branches added. */
  lemma LooseGrows(t: Trace, u: Trace, waiting: set<Address>)
    requires Loose(t, waiting) && t.edges <= u.edges && t.next <= u.next
    requires |u.nodes| == |t.nodes|
    requires forall i ::
      0 <= i < |t.nodes| ==>
          u.nodes[i].address == t.nodes[i].address && (u.nodes[i].stop == Open ==> t.nodes[i].stop == Open)
    requires forall a :: a in u.expanded ==> a in t.expanded || HasEdgeFrom(u.edges, a)
    ensures Loose(u, waiting)
  {
    hide Excused;
    forall i | 0 <= i < |u.nodes| && u.nodes[i].stop == Open
      ensures Excused(u.edges, u.next, waiting, u.nodes[i].address)
    {
      ExcusedGrows(t.edges, t.next, u.edges, u.next, waiting, t.nodes[i].address);
    }
  }

  lemma LooseSame(t: Trace, u: Trace, waiting: set<Address>)
    requires Loose(t, waiting) && u.nodes == t.nodes && u.edges == t.edges && u.next == t.next &&
      u.expanded == t.expanded
    ensures Loose(u, waiting)
  {
  }

  lemma JoinLoose(t: Trace, a: Address, depth: nat, stop: Stop, waiting: set<Address>)
    requires Loose(t, waiting) && (stop == Open ==> Excused(t.edges, t.next, waiting, a))
    ensures Loose(AddNode(t, a, depth, stop), waiting)
  {
  }

  lemma VisitLoose(
      w: World, t: Trace, b: Branch, c: Transfer, depth: nat, converted: bool, waiting: set<Address>)
    requires Loose(t, waiting) && Near(b.direction, c) == b.address
    ensures
      var step := Visit(w, t, b, c, depth, converted);
      step.Running? ==> Loose(step.trace, waiting)
  {
    hide Excused, Queued, Loose;
    var step := Visit(w, t, b, c, depth, converted);
    if step.Running? && Considered(w, t, b, c) {
      var amount := Cut(t.budget, c.amount);
      var spent := t.(budget := Spend(t.budget, amount));
      var other := Far(b.direction, c);
      if !w.above(c.asset, amount) {
        LooseSame(t, spent, waiting);
      } else if other !in t.visitedNodes && |t.visitedNodes| >= MAX_NODES {
        LooseGrows(t, step.trace, waiting);
      } else {
        var e := EdgeOf(b, c, amount, depth, converted);
        var r := Record(w, spent, b.address, e);
        assert e in r.edges && EdgeNear(e) == b.address;
        LooseGrows(t, r, waiting);
        if other == Zero {
          JoinLoose(r, Zero, depth + 1, Given, waiting);
        } else if |t.visitedNodes| < MAX_NODES {
          ReachLoose(w, r, b, c, amount, depth, waiting);
        } else {
          LooseGrows(r, step.trace, waiting);
        }
      }
    }
  }

  lemma ReachLoose(w: World, t: Trace, b: Branch, c: Transfer, amount: nat, depth: nat, waiting: set<Address>)
    requires Loose(t, waiting)
    ensures Loose(Reach(w, t, b, c, amount, depth), waiting)
  {
    hide Loose;
    var u := Reach(w, t, b, c, amount, depth);
    if |t.visitedNodes| < MAX_NODES {
      var other := Far(b.direction, c);
      var v := t.(
        partialData := t.partialData || w.partialData(other) || w.stopped(other),
        visitedStates := t.visitedStates + {ChildKey(b.direction, c)}, next := u.next);
      LooseGrows(t, v, waiting);
      if !w.terminal(other) {
        assert v.next[|t.next|].address == other;
        assert Queued(v.next, other);
      }
      JoinLoose(v, other, depth + 1, if w.terminal(other) then Given else Open, waiting);
    } else {
      LooseGrows(t, u, waiting);
    }
  }

  // ---------- one candidate ----------

  lemma ExtendsTransitive(t: Trace, u: Trace, v: Trace)
    requires Extends(t, u) && Extends(u, v)
    ensures Extends(t, v)
  {
  }

  lemma ExtendsOnNodes(t: Trace, u: Trace)
    requires u.edges == t.edges && u.next == t.next && u.visitedStates == t.visitedStates &&
      t.visitedNodes <= u.visitedNodes
    requires u.expanded == t.expanded && u.processed == t.processed
    ensures Extends(t, u)
  {
  }

  lemma RecordExtends(w: World, t: Trace, from: Address, e: Edge)
    ensures Extends(t, Record(w, t, from, e))
  {
  }

  /** An edge is recorded and its far end joins the trace. */
  lemma VisitRecords(
      w: World, seed: Address, ds: seq<Direction>, t: Trace, b: Branch, c: Transfer, amount: nat, depth: nat,
          converted: bool)
    requires Fine(w, seed, ds, t, depth) && Standing(t, seed, b, depth) && Follows(w, seed, ds, b, c)
    requires Far(b.direction, c) in t.visitedNodes || |t.visitedNodes| < MAX_NODES
    requires ChildKey(b.direction, c) !in t.visitedStates
    ensures
      var r := Record(w, t, b.address, EdgeOf(b, c, amount, depth, converted));
      var zero := Far(b.direction, c) == Zero;
      var u := if zero then AddNode(r, Zero, depth + 1, Given) else Reach(w, r, b, c, amount, depth);
      Fine(w, seed, ds, u, depth) && Extends(t, u)
  {
    hide Universe, AllLinked, NodesSound, HasNode, Hangs, KeysBacked, Extends, Considered;
    RecordKeeps(w, seed, ds, t, b, c, amount, depth, converted);
    var r := Record(w, t, b.address, EdgeOf(b, c, amount, depth, converted));
    RecordExtends(w, t, b.address, EdgeOf(b, c, amount, depth, converted));
    AllHangGrows(t, r, seed, t.next, depth + 1);
    if Far(b.direction, c) == Zero {
      JoinKeeps(w, seed, ds, r, Zero, depth + 1, Given);
      var u := AddNode(r, Zero, depth + 1, Given);
      AllHangGrows(r, u, seed, t.next, depth + 1);
      ExtendsOnNodes(r, u);
      ExtendsTransitive(t, r, u);
    } else {
      ReachKeeps(w, seed, ds, r, b, c, amount, depth, converted);
      ReachQueues(w, seed, r, b, c, amount, depth, converted);
      ExtendsTransitive(t, r, Reach(w, r, b, c, amount, depth));
    }
  }

  lemma VisitKeeps(
      w: World, seed: Address, ds: seq<Direction>, t: Trace, b: Branch, c: Transfer, depth: nat, converted: bool)
    requires Fine(w, seed, ds, t, depth) && Standing(t, seed, b, depth) && Follows(w, seed, ds, b, c)
    ensures
      var step := Visit(w, t, b, c, depth, converted);
      step.Running? ==> Fine(w, seed, ds, step.trace, depth) && Extends(t, step.trace)
  {
    hide Universe, AllLinked, NodesSound, HasNode, Hangs, KeysBacked, Extends, Record, Reach, AddNode;
    var step := Visit(w, t, b, c, depth, converted);
    ExtendsOnNodes(t, t);
    if step.Running? && Considered(w, t, b, c) {
      var amount := Cut(t.budget, c.amount);
      var spent := t.(budget := Spend(t.budget, amount));
      var other := Far(b.direction, c);
      ExtendsOnNodes(t, spent);
      if !w.above(c.asset, amount) {
      } else if other !in t.visitedNodes && |t.visitedNodes| >= MAX_NODES {
        SameNodesSound(t.nodes, t.visitedNodes, step.trace.nodes);
        ExtendsOnNodes(t, step.trace);
      } else {
        VisitRecords(w, seed, ds, spent, b, c, amount, depth, converted);
        ExtendsTransitive(t, spent, step.trace);
      }
    }
  }

  lemma {:induction false} VisitAllKeeps(
      w: World, seed: Address, ds: seq<Direction>, t: Trace, b: Branch, cs: seq<Transfer>, depth: nat, converted: bool,
      waiting: set<Address>)
    requires Fine(w, seed, ds, t, depth) && Standing(t, seed, b, depth) && Loose(t, waiting)
    requires forall c :: c in cs ==> Follows(w, seed, ds, b, c)
    ensures
      var step := VisitAll(w, t, b, cs, depth, converted);
      step.Running? ==> Fine(w, seed, ds, step.trace, depth) && Extends(t, step.trace) && Loose(step.trace, waiting)
    decreases |cs|
  {
    hide Visit, Fine, Loose, Hangs, Universe;
    if cs != [] {
      VisitKeeps(w, seed, ds, t, b, cs[0], depth, converted);
      VisitLoose(w, t, b, cs[0], depth, converted, waiting);
      var step := Visit(w, t, b, cs[0], depth, converted);
      if step.Running? {
        HangsGrows(t.edges, t.visitedNodes, step.trace.edges, step.trace.visitedNodes, seed, b, depth);
        VisitAllKeeps(w, seed, ds, step.trace, b, cs[1..], depth, converted, waiting);
        var rest := VisitAll(w, step.trace, b, cs[1..], depth, converted);
        if rest.Running? {
          ExtendsTransitive(t, step.trace, rest.trace);
        }
      }
    }
  }
}
