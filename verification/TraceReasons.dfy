/** Why the nodes of a trace are closed (internal/tracer/tracer.go, traceSameChain). */
module TraceReasons {
  import opened Fifo
  import opened Sorting
  import opened Wrappers
  import opened Trace
  import opened TraceSound
  import opened TraceSteps
  import opened TraceRun

  /** Some branch of the address asks for as many transfers as are read at most. */
  ghost predicate TooBusy(w: World, a: Address) {
    exists b: Branch :: b.address == a && |Matching(w.transfers, b)| >= RECORD_CAP
  }

  ghost predicate Unexplained(w: World, a: Address) {
    exists d, x :: w.convert(a, d, x).None?
  }

  /** What a reason means, with so many nodes and with the data marked partial or not.  That nothing matched
      is what LevelCloses is about. */
  ghost predicate Means(w: World, stop: Stop, a: Address, visited: nat, partial: bool) {
    match stop
    case Open => !w.terminal(a)
    case Given => a == Zero || w.terminal(a)
    case NodeLimit => visited >= MAX_NODES && partial
    case UnsupportedContract => w.contract(a)
    case AmbiguousConversion => w.contract(a) && Unexplained(w, a)
    case HighFrequency => TooBusy(w, a) && partial
    case NoMatchingTransfers => true
  }

  /** Its reason is true of the node, and where data is missing the trace says so. */
  ghost predicate Justified(w: World, n: Node, visited: nat, partial: bool) {
    && Means(w, n.stop, n.address, visited, partial)
    && (n.address != Zero && (w.partialData(n.address) || w.stopped(n.address)) ==> partial)
  }

  /** Every node is justified; only contracts have contract branches; `expanded` are the addresses with an
      edge recorded since `from`; and no node has closed since for want of transfers. */
  ghost predicate Reasoned(w: World, from: Trace, t: Trace) {
    && (forall i :: 0 <= i < |t.nodes| ==> Justified(w, t.nodes[i], |t.visitedNodes|, t.partialData))
    && (forall i :: 0 <= i < |t.next| ==> (t.next[i].contract ==> w.contract(t.next[i].address)))
    && from.edges <= t.edges
    && (forall i :: |from.edges| <= i < |t.edges| ==> EdgeNear(t.edges[i]) in t.expanded)
    && (forall a :: a in t.expanded ==> Leaves(from.edges, t.edges, a))
    && |from.nodes| <= |t.nodes|
    && (forall i :: 0 <= i < |from.nodes| ==> t.nodes[i].address == from.nodes[i].address)
    && (forall i :: 0 <= i < |t.nodes| && t.nodes[i].stop == NoMatchingTransfers ==>
          i < |from.nodes| && from.nodes[i].stop == NoMatchingTransfers)
  }

  /** An edge recorded since leaves the address. */
  ghost predicate Leaves(before: seq<Edge>, edges: seq<Edge>, a: Address) {
    exists i :: |before| <= i < |edges| && EdgeNear(edges[i]) == a
  }

  lemma RecordReasoned(
      w: World, from: Trace, t: Trace, b: Branch, c: Transfer, amount: nat, depth: nat, converted: bool)
    requires Reasoned(w, from, t) && Near(b.direction, c) == b.address
    ensures Reasoned(w, from, Record(w, t, b.address, EdgeOf(b, c, amount, depth, converted)))
  {
    hide Pair, Justified;
    var u := Record(w, t, b.address, EdgeOf(b, c, amount, depth, converted));
    assert EdgeNear(u.edges[|t.edges|]) == b.address;
    forall a | a in u.expanded
      ensures Leaves(from.edges, u.edges, a)
    {
      if a != b.address {
        var i :| |from.edges| <= i < |t.edges| && EdgeNear(t.edges[i]) == a;
        assert EdgeNear(u.edges[i]) == a;
      }
    }
  }

  lemma JoinReasoned(w: World, from: Trace, t: Trace, a: Address, depth: nat, stop: Stop)
    requires Reasoned(w, from, t) && stop != NoMatchingTransfers && Justified(w, Node(a, depth, stop), 0, t.partialData)
    requires stop == Open || stop == Given
    ensures Reasoned(w, from, AddNode(t, a, depth, stop))
  {
  }

  /** Nodes and edges stay; data may turn out to be missing, and a branch may be queued. */
  lemma SameReasoned(w: World, from: Trace, t: Trace, u: Trace)
    requires Reasoned(w, from, t) && u.nodes == t.nodes && |t.visitedNodes| == |u.visitedNodes|
    requires u.edges == t.edges && u.expanded == t.expanded && (t.partialData ==> u.partialData)
    requires u.next == t.next ||
      (|u.next| > 0 && u.next == t.next + [u.next[|u.next| - 1]]
      && (u.next[|u.next| - 1].contract ==> w.contract(u.next[|u.next| - 1].address)))
    ensures Reasoned(w, from, u)
  {
  }

  lemma ReachReasoned(w: World, from: Trace, t: Trace, b: Branch, c: Transfer, amount: nat, depth: nat)
    requires Reasoned(w, from, t)
    ensures Reasoned(w, from, Reach(w, t, b, c, amount, depth))
  {
    var other := Far(b.direction, c);
    var u := Reach(w, t, b, c, amount, depth);
    if |t.visitedNodes| < MAX_NODES {
      var v := t.(
        partialData := t.partialData || w.partialData(other) || w.stopped(other),
        visitedStates := t.visitedStates + {ChildKey(b.direction, c)}, next := u.next);
      hide Reasoned, Justified;
      SameReasoned(w, from, t, v);
      JoinReasoned(w, from, v, other, depth + 1, if w.terminal(other) then Given else Open);
    }
  }

  lemma CloseReasoned(w: World, from: Trace, t: Trace, u: Trace, a: Address, stop: Stop)
    requires Reasoned(w, from, t) && stop != NoMatchingTransfers
    requires u.nodes == SetTerminal(t.nodes, a, stop) && |t.visitedNodes| == |u.visitedNodes|
    requires u.edges == t.edges && u.next == t.next && u.expanded == t.expanded
    requires (t.partialData ==> u.partialData) && Means(w, stop, a, |u.visitedNodes|, u.partialData)
    ensures Reasoned(w, from, u)
  {
    hide TooBusy, Unexplained;
    forall i | 0 <= i < |u.nodes|
      ensures Justified(w, u.nodes[i], |u.visitedNodes|, u.partialData)
    {
      assert u.nodes[i] == t.nodes[i] || (u.nodes[i].address == a && u.nodes[i].stop == stop);
    }
  }

  lemma VisitReasoned(w: World, from: Trace, t: Trace, b: Branch, c: Transfer, depth: nat, converted: bool)
    requires Reasoned(w, from, t) && Near(b.direction, c) == b.address
    ensures
      var step := Visit(w, t, b, c, depth, converted);
      step.Running? ==> Reasoned(w, from, step.trace)
  {
    hide Reasoned, SetTerminal, Record, Reach, AddNode;
    if Considered(w, t, b, c) {
      var amount := Cut(t.budget, c.amount);
      var spent := t.(budget := Spend(t.budget, amount));
      var other := Far(b.direction, c);
      SameReasoned(w, from, t, spent);
      if !w.above(c.asset, amount) {
      } else if other !in t.visitedNodes && |t.visitedNodes| >= MAX_NODES {
        var u := spent.(partialData := true, nodes := SetTerminal(t.nodes, b.address, NodeLimit));
        CloseReasoned(w, from, t, u, b.address, NodeLimit);
      } else {
        RecordReasoned(w, from, spent, b, c, amount, depth, converted);
        var r := Record(w, spent, b.address, EdgeOf(b, c, amount, depth, converted));
        JoinReasoned(w, from, r, Zero, depth + 1, Given);
        ReachReasoned(w, from, r, b, c, amount, depth);
      }
    }
  }

  lemma {:induction false} VisitAllReasoned(
      w: World, from: Trace, t: Trace, b: Branch, cs: seq<Transfer>, depth: nat, converted: bool)
    requires Reasoned(w, from, t) && forall c :: c in cs ==> Near(b.direction, c) == b.address
    ensures
      var o := VisitAll(w, t, b, cs, depth, converted);
      o.Running? ==> Reasoned(w, from, o.trace) && o.trace.processed == t.processed
    decreases |cs|
  {
    hide Visit, Reasoned;
    if cs != [] {
      assert cs[0] in cs;
      VisitReasoned(w, from, t, b, cs[0], depth, converted);
      VisitProcessed(w, t, b, cs[0], depth, converted);
      var step := Visit(w, t, b, cs[0], depth, converted);
      if step.Running? {
        VisitAllReasoned(w, from, step.trace, b, cs[1..], depth, converted);
      }
    }
  }

  lemma VisitProcessed(w: World, t: Trace, b: Branch, c: Transfer, depth: nat, converted: bool)
    ensures
      var step := Visit(w, t, b, c, depth, converted);
      step.Running? ==> step.trace.processed == t.processed
  {
    hide SetTerminal, Pair, Child, EdgeOf;
  }

  lemma ConvertReasoned(w: World, from: Trace, t: Trace, b: Branch, depth: nat)
    requires Consistent(w) && Reasoned(w, from, t) && b.entering.Some? && w.contract(b.address)
    ensures
      var step := ConvertAt(w, t, b, depth);
      step.Running? ==> Reasoned(w, from, step.trace) && step.trace.processed == t.processed
  {
    hide VisitAll, AlreadyTraced, SetTerminal, Reasoned;
    CloseReasoned(w, from, t, Halt(t, b.address, UnsupportedContract), b.address, UnsupportedContract);
    var x := w.convert(b.address, b.direction, b.entering.value);
    if x.Some? {
      SameReasoned(w, from, t, t.(budget := None));
      VisitAllReasoned(w, from, t.(budget := None), b, [x.value.transfer], depth, true);
    } else {
      CloseReasoned(w, from, t, Halt(t, b.address, AmbiguousConversion), b.address, AmbiguousConversion);
    }
  }

  /** The expansion of a branch that is no conversion. */
  lemma ExpandReasoned(w: World, from: Trace, t: Trace, b: Branch, depth: nat)
    requires Reasoned(w, from, t)
    ensures
      var found := Matching(w.transfers, b);
      if |found| >= RECORD_CAP then Reasoned(w, from, Halt(t.(partialData := true), b.address, HighFrequency))
      else
        var step := VisitAll(w, t.(budget := b.amount), b, Sort(Earlier(b.direction), found), depth, false);
        step.Running? ==> Reasoned(w, from, step.trace) && step.trace.processed == t.processed
  {
    hide VisitAll, Matching, SetTerminal, Reasoned, Sort;
    var found := Matching(w.transfers, b);
    if |found| >= RECORD_CAP {
      assert TooBusy(w, b.address);
      CloseReasoned(w, from, t, Halt(t.(partialData := true), b.address, HighFrequency), b.address, HighFrequency);
    } else {
      var cs := Sort(Earlier(b.direction), found);
      forall c | c in cs
        ensures Near(b.direction, c) == b.address
      {
        Candidates(w.transfers, b, Earlier(b.direction), c);
      }
      SameReasoned(w, from, t, t.(budget := b.amount));
      VisitAllReasoned(w, from, t.(budget := b.amount), b, cs, depth, false);
    }
  }

  /** A branch notes its address as processed, unless the node is closed. */
  lemma ProcessReasoned(w: World, from: Trace, t: Trace, b: Branch, depth: nat)
    requires Consistent(w) && Reasoned(w, from, t) && (b.contract ==> w.contract(b.address))
    ensures
      var step := Process(w, t, b, depth);
      step.Running? ==>
        && Reasoned(w, from, step.trace)
        && step.trace.processed == t.processed + if IsTerminal(t.nodes, b.address) then {} else {b.address}
  {
    hide VisitAll, Matching, ConvertAt, IsTerminal, SetTerminal, Reasoned, Sort;
    if !IsTerminal(t.nodes, b.address) {
      var seen := t.(processed := t.processed + {b.address});
      SameReasoned(w, from, t, seen);
      if b.entering.Some? && b.contract {
        ConvertReasoned(w, from, seen, b, depth);
      } else {
        ExpandReasoned(w, from, seen, b, depth);
      }
    }
  }

  /** A branch of the address was looked at while its node was open. */
  ghost predicate Stood(bs: seq<Branch>, a: Address) {
    exists i :: 0 <= i < |bs| && bs[i].address == a
  }

  ghost predicate AtContract(w: World, bs: seq<Branch>) {
    forall i :: 0 <= i < |bs| ==> (bs[i].contract ==> w.contract(bs[i].address))
  }

  lemma {:induction false} ProcessAllReasoned(w: World, from: Trace, t: Trace, bs: seq<Branch>, depth: nat)
    requires Consistent(w) && Reasoned(w, from, t) && AtContract(w, bs)
    ensures
      var o := ProcessAll(w, t, bs, depth);
      o.Running? ==>
        && Reasoned(w, from, o.trace) && t.processed <= o.trace.processed
        && forall a :: a in o.trace.processed ==> a in t.processed || Stood(bs, a)
    decreases |bs|
  {
    hide Process, Reasoned;
    if bs != [] {
      ProcessReasoned(w, from, t, bs[0], depth);
      var step := Process(w, t, bs[0], depth);
      if step.Running? {
        ProcessAllReasoned(w, from, step.trace, bs[1..], depth);
        var o := ProcessAll(w, step.trace, bs[1..], depth);
        forall a | o.Running? && a in o.trace.processed
          ensures a in t.processed || Stood(bs, a)
        {
          if Stood(bs[1..], a) {
            var i :| 0 <= i < |bs[1..]| && bs[1..][i].address == a;
            assert bs[i + 1].address == a;
          }
        }
      }
    }
  }

  // ---------- levels ----------

  ghost predicate AllJustified(w: World, t: Trace) {
    forall i :: 0 <= i < |t.nodes| ==> Justified(w, t.nodes[i], |t.visitedNodes|, t.partialData)
  }

  lemma SortedFrontierStands(w: World, bs: seq<Branch>)
    requires AtContract(w, bs)
    ensures AtContract(w, Sort(ByKey(w), bs)) && forall a :: Stood(Sort(ByKey(w), bs), a) ==> Stood(bs, a)
  {
    SortKeepsMembers(ByKey(w), bs);
    var r := Sort(ByKey(w), bs);
    forall i | 0 <= i < |r|
      ensures r[i] in bs
    {
      assert r[i] in r;
    }
  }

  /** What a level has done before it settles its nodes. */
  lemma LevelReasoned(w: World, t: Trace, depth: nat)
    requires Consistent(w) && AllJustified(w, t) && AtContract(w, t.next)
    ensures
      var r := ProcessAll(w, OpenLevel(t), Sort(ByKey(w), t.next), depth);
      r.Running? ==> Reasoned(w, OpenLevel(t), r.trace) && forall a :: a in r.trace.processed ==> Stood(t.next, a)
  {
    hide Justified;
    var o := OpenLevel(t);
    assert Reasoned(w, o, o);
    SortedFrontierStands(w, t.next);
    ProcessAllReasoned(w, o, o, Sort(ByKey(w), t.next), depth);
  }

  /** At the end of a level exactly the open nodes are closed for want of transfers where a branch of the
      frontier was expanded and no edge of the level leaves; a reason that a branch of the level gave stands. */
  lemma LevelCloses(w: World, t: Trace, depth: nat, i: nat)
    requires Consistent(w) && AllJustified(w, t) && AtContract(w, t.next)
    requires Level(w, t, depth).Running? && i < |Level(w, t, depth).trace.nodes|
    ensures
      var u := Level(w, t, depth).trace;
      var a, stop := u.nodes[i].address, u.nodes[i].stop;
      && t.edges <= u.edges
      && (stop == NoMatchingTransfers && (i < |t.nodes| ==> t.nodes[i].stop != NoMatchingTransfers) ==>
            Stood(t.next, a) && !Leaves(t.edges, u.edges, a))
      && (stop == Open && a in u.processed ==> Leaves(t.edges, u.edges, a))
      && var r := ProcessAll(w, OpenLevel(t), Sort(ByKey(w), t.next), depth).trace;
         i < |r.nodes| && (r.nodes[i].stop != Open ==> u.nodes[i] == r.nodes[i])
  {
    hide ProcessAll, Justified, Stood, AtContract, Sort;
    LevelReasoned(w, t, depth);
    var r := ProcessAll(w, OpenLevel(t), Sort(ByKey(w), t.next), depth).trace;
    var u := Level(w, t, depth).trace;
    assert u.edges == r.edges && u.nodes[i].address == r.nodes[i].address;
    if Leaves(t.edges, u.edges, u.nodes[i].address) {
      var k :| |t.edges| <= k < |u.edges| && EdgeNear(u.edges[k]) == u.nodes[i].address;
      assert EdgeNear(r.edges[k]) in r.expanded;
    }
  }

  lemma LevelJustified(w: World, t: Trace, depth: nat)
    requires Consistent(w) && AllJustified(w, t) && AtContract(w, t.next)
    ensures
      var r := Level(w, t, depth);
      r.Running? ==> AllJustified(w, r.trace) && AtContract(w, r.trace.next)
  {
    hide ProcessAll, Sort, TooBusy, Unexplained;
    LevelReasoned(w, t, depth);
  }

  lemma {:induction false} SetAllTerminalStops(nodes: seq<Node>, bs: seq<Branch>, i: nat)
    requires i < |nodes|
    ensures
      var n := SetAllTerminal(nodes, bs)[i];
      n == nodes[i] || (n.stop == NodeLimit && n.address == nodes[i].address)
    decreases |bs|
  {
    if bs != [] {
      SetAllTerminalStops(SetTerminal(nodes, bs[0].address, NodeLimit), bs[1..], i);
    }
  }

  lemma FinishJustified(w: World, t: Trace)
    requires AllJustified(w, t) && (t.next == [] || |t.visitedNodes| >= MAX_NODES)
    ensures AllJustified(w, Finish(t))
  {
    hide TooBusy, Unexplained;
    var u := Finish(t);
    forall i | 0 <= i < |u.nodes|
      ensures Justified(w, u.nodes[i], |u.visitedNodes|, u.partialData)
    {
      SetAllTerminalStops(t.nodes, t.next, i);
    }
  }

  lemma {:induction false} LevelsJustified(w: World, seed: Address, ds: seq<Direction>, t: Trace, depth: nat)
    requires Consistent(w) && AtLevel(w, seed, ds, t, depth) && AllJustified(w, t) && AtContract(w, t.next)
    ensures
      var o := Levels(w, seed, ds, t, depth);
      o.Running? ==> AllJustified(w, o.trace)
    decreases |Universe(w, seed, ds) - t.visitedStates|, |t.next|
  {
    hide Level, AtLevel, AllJustified, AtContract, Universe, Finish;
    if t.next == [] || |t.visitedNodes| >= MAX_NODES {
      FinishJustified(w, t);
    } else {
      var r := Level(w, t, depth);
      if r.Running? {
        LevelJustified(w, t, depth);
        LevelKeeps(w, seed, ds, t, depth);
        StatesKnown(w, seed, ds, r.trace, depth + 1);
        FewerStates(Universe(w, seed, ds), t.visitedStates, r.trace.visitedStates);
        LevelsJustified(w, seed, ds, r.trace, depth + 1);
      }
    }
  }

  /** In a finished trace no terminal address is open, and every reason is true of its node: a given one of a
      terminal address, the limit of the nodes, a contract that is not or not clearly explained, or too many
      transfers to read. */
  lemma ReasonsHold(w: World, seed: Address, ds: seq<Direction>)
    requires Consistent(w) && ds != []
    ensures
      var o := TraceAll(w, seed, ds);
      o.Running? ==> AllJustified(w, o.trace)
  {
    hide Levels, AtLevel;
    if w.seedReady {
      StartAtLevel(w, seed, ds);
      LevelsJustified(w, seed, ds, Start(w, seed, ds), 0);
    }
  }

  lemma {:induction false} FoundTerminal(nodes: seq<Node>, i: nat)
    requires i < |nodes| && nodes[i].stop != Open
    requires forall j, k :: 0 <= j < k < |nodes| ==> nodes[j].address != nodes[k].address
    ensures IsTerminal(nodes, nodes[i].address)
  {
    if i > 0 {
      assert nodes[0].address != nodes[i].address;
      FoundTerminal(nodes[1..], i - 1);
    }
  }

  /** A branch that comes to a closed node is dropped, whatever closed it and whatever the branch asks for: a node
      that one level closed for want of transfers in one asset is not expanded for another later. */
  lemma ClosedIsSkipped(w: World, t: Trace, b: Branch, depth: nat, i: nat)
    requires NodesSound(t.nodes, t.visitedNodes) && i < |t.nodes|
    requires t.nodes[i].address == b.address && t.nodes[i].stop != Open
    ensures Process(w, t, b, depth) == Running(t)
  {
    FoundTerminal(t.nodes, i);
  }
}
