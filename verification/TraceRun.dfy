/** Whole traces: they end, and what holds when they do
    (internal/tracer/tracer.go, traceSameChain). */
module TraceRun {
  import opened Fifo
  import opened Sorting
  import opened Wrappers
  import opened Trace
  import opened TraceSound
  import opened TraceSteps

  function Addresses(bs: seq<Branch>): set<Address> {
    set i | 0 <= i < |bs| :: bs[i].address
  }

  // ---------- one branch ----------

  lemma MatchingFollows(w: World, seed: Address, ds: seq<Direction>, b: Branch, c: Transfer)
    requires c in Sort(Earlier(b.direction), Matching(w.transfers, b))
    ensures Follows(w, seed, ds, b, c)
  {
    Candidates(w.transfers, b, Earlier(b.direction), c);
  }

  lemma {:induction false} TerminalMeans(nodes: seq<Node>, a: Address, i: nat)
    requires IsTerminal(nodes, a) && i < |nodes| && nodes[i].address == a
    requires forall j, k :: 0 <= j < k < |nodes| ==> nodes[j].address != nodes[k].address
    ensures nodes[i].stop != Open
  {
    if i > 0 {
      assert nodes[0].address != nodes[i].address;
      TerminalMeans(nodes[1..], a, i - 1);
    }
  }

  lemma LooseWithout(t: Trace, a: Address, waiting: set<Address>)
    requires Loose(t, waiting + {a}) && IsTerminal(t.nodes, a) && NodesSound(t.nodes, t.visitedNodes)
    ensures Loose(t, waiting)
  {
    forall i | 0 <= i < |t.nodes| && t.nodes[i].stop == Open
      ensures Excused(t.edges, t.next, waiting, t.nodes[i].address)
    {
      if t.nodes[i].address == a {
        TerminalMeans(t.nodes, a, i);
      }
    }
  }

  lemma LooseWiden(t: Trace, waiting: set<Address>, wider: set<Address>)
    requires Loose(t, waiting) && waiting <= wider
    ensures Loose(t, wider)
  {
  }

  lemma HaltKeeps(
      w: World, seed: Address, ds: seq<Direction>, t: Trace, a: Address, stop: Stop, depth: nat, waiting: set<Address>)
    requires Fine(w, seed, ds, t, depth) && Loose(t, waiting) && stop != Open
    ensures
      var u := Halt(t, a, stop);
      Fine(w, seed, ds, u, depth) && Extends(t, u) && Loose(u, waiting)
  {
    SameNodesSound(t.nodes, t.visitedNodes, SetTerminal(t.nodes, a, stop));
    LooseGrows(t, Halt(t, a, stop), waiting);
  }

  lemma ConvertKeeps(
      w: World, seed: Address, ds: seq<Direction>, t: Trace, b: Branch, depth: nat, waiting: set<Address>)
    requires Consistent(w) && Fine(w, seed, ds, t, depth) && Standing(t, seed, b, depth) && Loose(t, waiting)
    requires b.entering.Some?
    ensures
      var step := ConvertAt(w, t, b, depth);
      step.Running? ==> Fine(w, seed, ds, step.trace, depth) && Extends(t, step.trace) && Loose(step.trace, waiting)
  {
    hide VisitAll, AlreadyTraced, Loose, AllLinked, NodesSound, KeysBacked, Halt, AllHang;
    HaltKeeps(w, seed, ds, t, b.address, UnsupportedContract, depth, waiting);
    HaltKeeps(w, seed, ds, t, b.address, AmbiguousConversion, depth, waiting);
    var x := w.convert(b.address, b.direction, b.entering.value);
    if x.Some? {
      var u := t.(budget := None);
      LooseSame(t, u, waiting);
      assert Follows(w, seed, ds, b, x.value.transfer) by {
        assert b.anchor == b.entering.value.block;
      }
      VisitAllKeeps(w, seed, ds, u, b, [x.value.transfer], depth, true, waiting);
    }
  }

  lemma ProcessKeeps(w: World, seed: Address, ds: seq<Direction>, t: Trace, b: Branch, depth: nat, rest: set<Address>)
    requires Consistent(w) && Fine(w, seed, ds, t, depth) && Standing(t, seed, b, depth)
    requires Loose(t, t.processed + rest + {b.address})
    ensures
      var step := Process(w, t, b, depth);
      step.Running? ==>
          Fine(w, seed, ds, step.trace, depth) && Extends(t, step.trace) &&
              Loose(step.trace, step.trace.processed + rest)
  {
    hide VisitAll, ConvertAt, Loose, AllLinked, NodesSound, KeysBacked, Hangs, Halt, Universe, Matching;
    var step := Process(w, t, b, depth);
    if IsTerminal(t.nodes, b.address) {
      LooseWithout(t, b.address, t.processed + rest);
    } else {
      var seen := t.(processed := t.processed + {b.address});
      var waiting := seen.processed + rest;
      assert waiting == t.processed + rest + {b.address};
      LooseSame(t, seen, waiting);
      if b.entering.Some? && b.contract {
        ConvertKeeps(w, seed, ds, seen, b, depth, waiting);
      } else {
        var found := Matching(w.transfers, b);
        if |found| >= RECORD_CAP {
          var u := seen.(partialData := true);
          LooseSame(seen, u, waiting);
          HaltKeeps(w, seed, ds, u, b.address, HighFrequency, depth, waiting);
        } else {
          var u := seen.(budget := b.amount);
          LooseSame(seen, u, waiting);
          forall c | c in Sort(Earlier(b.direction), found)
            ensures Follows(w, seed, ds, b, c)
          {
            MatchingFollows(w, seed, ds, b, c);
          }
          VisitAllKeeps(w, seed, ds, u, b, Sort(Earlier(b.direction), found), depth, false, waiting);
        }
      }
      if step.Running? {
        LooseWiden(step.trace, waiting, step.trace.processed + rest);
      }
    }
  }

  // ---------- one level ----------

  lemma {:induction false} ProcessAllKeeps(
      w: World, seed: Address, ds: seq<Direction>, t: Trace, bs: seq<Branch>, depth: nat)
    requires Consistent(w) && Fine(w, seed, ds, t, depth) && AllHang(t.edges, t.visitedNodes, seed, bs, depth)
    requires Loose(t, t.processed + Addresses(bs))
    ensures
      var step := ProcessAll(w, t, bs, depth);
      step.Running? ==>
          Fine(w, seed, ds, step.trace, depth) && Extends(t, step.trace) && Loose(step.trace, step.trace.processed)
    decreases |bs|
  {
    hide Process, Fine, Loose, Hangs;
    if bs == [] {
      assert t.processed + Addresses(bs) == t.processed;
    } else {
      var rest := Addresses(bs[1..]);
      assert t.processed + Addresses(bs) == t.processed + rest + {bs[0].address} by {
        assert forall i {:trigger bs[i]} :: 1 <= i < |bs| ==> bs[i] == bs[1..][i - 1];
      }
      ProcessKeeps(w, seed, ds, t, bs[0], depth, rest);
      var step := Process(w, t, bs[0], depth);
      if step.Running? {
        AllHangGrows(t, step.trace, seed, bs[1..], depth);
        ProcessAllKeeps(w, seed, ds, step.trace, bs[1..], depth);
        var last := ProcessAll(w, step.trace, bs[1..], depth);
        if last.Running? {
          ExtendsTransitive(t, step.trace, last.trace);
        }
      }
    }
  }

  /** What holds between levels: `t.next` is the frontier at that depth. */
  ghost predicate AtLevel(w: World, seed: Address, ds: seq<Direction>, t: Trace, depth: nat) {
    && Sound(w, seed, ds, t)
    && AllHang(t.edges, t.visitedNodes, seed, t.next, depth)
    && Loose(t, {})
  }

  lemma SortedFrontier(w: World, t: Trace, seed: Address, depth: nat)
    requires AllHang(t.edges, t.visitedNodes, seed, t.next, depth)
    ensures
      var bs := Sort(ByKey(w), t.next);
      AllHang(t.edges, t.visitedNodes, seed, bs, depth) && forall a :: Queued(t.next, a) ==> a in Addresses(bs)
  {
    hide Hangs;
    var bs := Sort(ByKey(w), t.next);
    SortKeepsMembers(ByKey(w), t.next);
    forall i | 0 <= i < |bs|
      ensures Hangs(t.edges, t.visitedNodes, seed, bs[i], depth)
    {
      assert bs[i] in t.next;
    }
    forall a | Queued(t.next, a)
      ensures a in Addresses(bs)
    {
      var i :| 0 <= i < |t.next| && t.next[i].address == a;
      assert t.next[i] in bs;
    }
  }

  lemma OpenLevelLoose(w: World, seed: Address, t: Trace, depth: nat)
    requires Loose(t, {}) && AllHang(t.edges, t.visitedNodes, seed, t.next, depth)
    ensures Loose(OpenLevel(t), Addresses(Sort(ByKey(w), t.next)))
  {
    SortedFrontier(w, t, seed, depth);
  }

  lemma SettleLoose(t: Trace)
    requires Loose(t, t.processed)
    ensures Loose(t.(nodes := Settle(t.nodes, t.processed - t.expanded)), {})
  {
    var u := t.(nodes := Settle(t.nodes, t.processed - t.expanded));
    forall i | 0 <= i < |u.nodes| && u.nodes[i].stop == Open
      ensures Excused(u.edges, u.next, {}, u.nodes[i].address)
    {
      var a := t.nodes[i].address;
      assert t.nodes[i].stop == Open && a !in t.processed - t.expanded;
    }
  }

  lemma LevelKeeps(w: World, seed: Address, ds: seq<Direction>, t: Trace, depth: nat)
    requires Consistent(w) && AtLevel(w, seed, ds, t, depth)
    ensures
      var r := Level(w, t, depth);
      r.Running? ==>
        && AtLevel(w, seed, ds, r.trace, depth + 1)
        && t.edges <= r.trace.edges && t.visitedNodes <= r.trace.visitedNodes &&
            t.visitedStates <= r.trace.visitedStates
        && (r.trace.next == [] || t.visitedStates < r.trace.visitedStates)
  {
    hide ProcessAll, Loose, Hangs, Universe, AllLinked, NodesSound, KeysBacked, EndsKnown;
    var o := OpenLevel(t);
    var bs := Sort(ByKey(w), t.next);
    SortedFrontier(w, t, seed, depth);
    OpenLevelLoose(w, seed, t, depth);
    assert o.processed + Addresses(bs) == Addresses(bs);
    ProcessAllKeeps(w, seed, ds, o, bs, depth);
    var r := ProcessAll(w, o, bs, depth);
    if r.Running? {
      var u := r.trace;
      SettleLoose(u);
      SameNodesSound(u.nodes, u.visitedNodes, Settle(u.nodes, u.processed - u.expanded));
    }
  }

  // ---------- the whole trace ----------

  lemma StatesKnown(w: World, seed: Address, ds: seq<Direction>, t: Trace, depth: nat)
    requires AtLevel(w, seed, ds, t, depth)
    ensures t.visitedStates <= Universe(w, seed, ds)
  {
  }

  /** The level loop.  It ends: every level that queues branches meets branch states not met before. */
  function Levels(w: World, seed: Address, ds: seq<Direction>, t: Trace, depth: nat): Outcome
    requires Consistent(w) && AtLevel(w, seed, ds, t, depth)
    decreases |Universe(w, seed, ds) - t.visitedStates|, |t.next|
  {
    if t.next == [] || |t.visitedNodes| >= MAX_NODES then Running(Finish(t))
    else
      var r := Level(w, t, depth);
      if r.NotSynced? then r
      else
        LevelKeeps(w, seed, ds, t, depth);
        FewerStates(Universe(w, seed, ds), t.visitedStates, r.trace.visitedStates);
        Levels(w, seed, ds, r.trace, depth + 1)
  }

  lemma FewerStates(all: set<StateKey>, few: set<StateKey>, more: set<StateKey>)
    requires few <= more <= all
    ensures |all - more| <= |all - few|
    ensures few < more ==> |all - more| < |all - few|
  {
    assert all - few == (all - more) + (more - few);
    if few < more {
      var k :| k in more && k !in few;
      assert k in more - few;
    }
  }

  lemma StartAtLevel(w: World, seed: Address, ds: seq<Direction>)
    requires ds != []
    ensures AtLevel(w, seed, ds, Start(w, seed, ds), 0)
  {
    var t := Start(w, seed, ds);
    assert t.nodes[0].address == seed;
    assert HasNode(t.nodes, seed);
    assert t.next[0].address == seed;
  }

  function TraceAll(w: World, seed: Address, ds: seq<Direction>): Outcome
    requires Consistent(w) && ds != []
  {
    if !w.seedReady then NotSynced(seed, Out, 0)
    else
      StartAtLevel(w, seed, ds);
      Levels(w, seed, ds, Start(w, seed, ds), 0)
  }

  lemma {:induction false} SetAllTerminalCloses(nodes: seq<Node>, bs: seq<Branch>, i: nat)
    requires i < |nodes|
    ensures SetAllTerminal(nodes, bs)[i].stop == Open ==> nodes[i].stop == Open && !Queued(bs, nodes[i].address)
    decreases |bs|
  {
    if bs != [] {
      SetAllTerminalCloses(SetTerminal(nodes, bs[0].address, NodeLimit), bs[1..], i);
      if Queued(bs, nodes[i].address) && nodes[i].address != bs[0].address {
        var j :| 0 <= j < |bs| && bs[j].address == nodes[i].address;
        assert bs[1..][j - 1].address == nodes[i].address;
      }
    }
  }

  /** Every node is closed with a reason, or has an edge recorded from it. */
  ghost predicate Settled(t: Trace) {
    forall i :: 0 <= i < |t.nodes| && t.nodes[i].stop == Open ==> HasEdgeFrom(t.edges, t.nodes[i].address)
  }

  lemma FinishSettles(w: World, seed: Address, ds: seq<Direction>, t: Trace, depth: nat)
    requires AtLevel(w, seed, ds, t, depth)
    ensures Sound(w, seed, ds, Finish(t)) && Settled(Finish(t))
  {
    hide NodesSound, AllLinked, KeysBacked, Universe, Hangs;
    var u := Finish(t);
    if t.next != [] {
      SameNodesSound(t.nodes, t.visitedNodes, u.nodes);
    }
    forall i | 0 <= i < |u.nodes| && u.nodes[i].stop == Open
      ensures HasEdgeFrom(u.edges, u.nodes[i].address)
    {
      if t.next != [] {
        SetAllTerminalCloses(t.nodes, t.next, i);
      }
      assert Excused(t.edges, t.next, {}, t.nodes[i].address);
    }
  }

  lemma {:induction false} LevelsSound(w: World, seed: Address, ds: seq<Direction>, t: Trace, depth: nat)
    requires Consistent(w) && AtLevel(w, seed, ds, t, depth)
    ensures
      var o := Levels(w, seed, ds, t, depth);
      o.Running? ==>
          Sound(w, seed, ds, o.trace) && Settled(o.trace) && t.edges <= o.trace.edges &&
              t.visitedStates <= o.trace.visitedStates
    decreases |Universe(w, seed, ds) - t.visitedStates|, |t.next|
  {
    hide Level, Sound, AllHang, Loose, Settled;
    if t.next == [] || |t.visitedNodes| >= MAX_NODES {
      FinishSettles(w, seed, ds, t, depth);
    } else {
      var r := Level(w, t, depth);
      if r.Running? {
        LevelKeeps(w, seed, ds, t, depth);
        StatesKnown(w, seed, ds, r.trace, depth + 1);
        FewerStates(Universe(w, seed, ds), t.visitedStates, r.trace.visitedStates);
        LevelsSound(w, seed, ds, r.trace, depth + 1);
      }
    }
  }

  /** A finished trace: nodes are distinct and at most MAX_NODES, both ends of every edge are nodes,
      every node is terminal or was expanded, every branch state met but the seed's has its edge,
      and every edge left its two money states. */
  lemma TraceSettles(w: World, seed: Address, ds: seq<Direction>)
    requires Consistent(w) && ds != []
    ensures
      var o := TraceAll(w, seed, ds);
      o.Running? ==>
        && Settled(o.trace) && NodesSound(o.trace.nodes, o.trace.visitedNodes)
        && EndsKnown(o.trace.edges, o.trace.visitedNodes, None)
        && KeysBacked(o.trace.edges, o.trace.visitedStates, RootKeys(seed, ds))
        && o.trace.money == Pairs(w, o.trace.edges)
  {
    StartAtLevel(w, seed, ds);
    LevelsSound(w, seed, ds, Start(w, seed, ds), 0);
  }

  /** The path of an edge starts at the seed, ends at the edge's far end and has one address more than
      its depth; every step of it is a recorded edge in the traced direction. */
  ghost predicate PathRecorded(edges: seq<Edge>, seed: Address, e: Edge) {
    && |e.path| == e.depth + 1 && e.path[0] == seed && e.path[e.depth] == EdgeFar(e)
    && forall k :: 0 <= k < e.depth ==> Stepped(edges, e.direction, e.path[k], e.path[k + 1])
  }

  ghost predicate Stepped(edges: seq<Edge>, d: Direction, near: Address, far: Address) {
    exists e :: e in edges && e.direction == d && EdgeNear(e) == near && EdgeFar(e) == far
  }

  /** Recorded edges lead from the seed to this one without going back in time in an out trace, nor
      forward in an in trace. */
  ghost predicate ReachedInTime(edges: seq<Edge>, seed: Address, e: Edge) {
    exists trail: seq<Edge> ::
      && EndsIn(edges, seed, trail, e)
      && forall k {:trigger trail[k + 1]} ::
          0 <= k < |trail| - 1 ==> InTime(e.direction, trail[k].block, trail[k + 1].block)
  }

  lemma LinkedPath(edges: seq<Edge>, seed: Address, e: Edge)
    requires Linked(edges, seed, e)
    ensures PathRecorded(edges, seed, e) && ReachedInTime(edges, seed, e)
  {
    var trail :| EndsIn(edges, seed, trail, e);
    TrailShape(edges, seed, trail);
    forall k | 0 <= k < e.depth
      ensures Stepped(edges, e.direction, e.path[k], e.path[k + 1])
    {
      assert trail[k] in edges;
    }
  }

  lemma PathsAreRecorded(w: World, seed: Address, ds: seq<Direction>, e: Edge)
    requires Consistent(w) && ds != []
    requires
      var o := TraceAll(w, seed, ds);
      o.Running? && e in o.trace.edges
    ensures
      var edges := TraceAll(w, seed, ds).trace.edges;
      PathRecorded(edges, seed, e) && ReachedInTime(edges, seed, e)
  {
    hide PathRecorded, ReachedInTime, Linked, Levels, AtLevel, Settled;
    StartAtLevel(w, seed, ds);
    LevelsSound(w, seed, ds, Start(w, seed, ds), 0);
    LinkedPath(TraceAll(w, seed, ds).trace.edges, seed, e);
  }
}
