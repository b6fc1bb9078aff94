/** Every far end of a finished trace was followed (internal/tracer/tracer.go, traceSameChain). */
module TraceFollow {
  import opened Fifo
  import opened Sorting
  import opened Wrappers
  import opened Trace
  import opened TraceSound
  import opened TraceSteps
  import opened TraceRun
  import opened TraceComplete
  import opened TraceReady

  ghost predicate Closed(nodes: seq<Node>, a: Address) {
    exists i :: 0 <= i < |nodes| && nodes[i].address == a && nodes[i].stop != Open
  }

  /** What was recorded along a path, in a direction and asset. */
  function PaidOn(edges: seq<Edge>, d: Direction, asset: nat, path: seq<Address>): nat {
    if edges == [] then 0
    else
      var e := edges[|edges| - 1];
      PaidOn(edges[..|edges| - 1], d, asset, path)
      + if e.direction == d && e.asset == asset && |e.path| > 0 && e.path[..|e.path| - 1] == path then e.amount else 0
  }

  /** The amount of the edge has gone on along its path, but for a rest that is nothing or too little to trace. */
  ghost predicate PaidOut(w: World, edges: seq<Edge>, e: Edge) {
    exists rest: nat {:trigger w.above(e.asset, rest)} ::
      (rest == 0 || !w.above(e.asset, rest)) && PaidOn(edges, e.direction, e.asset, e.path) + rest >= e.amount
  }

  /** The transfers that continue an edge, in its asset and not against time. */
  ghost predicate Continues(w: World, e: Edge, c: Transfer) {
    && c in w.transfers && c.asset == e.asset && Near(e.direction, c) == EdgeFar(e)
    && (if e.direction == Out then e.block <= c.block else e.block == 0 || c.block <= e.block)
    && Eligible(w, e.direction, c)
  }

  /** The contract at the far end was analysed: its output is traced, was traced before, or is too little. */
  ghost predicate Analysed(w: World, t: Trace, e: Edge) {
    exists x: Transfer :: OutputMet(w, t, e, x)
  }

  /** Some edge moves that much of the asset between those addresses in that transaction. */
  ghost predicate Moved(edges: seq<Edge>, tx: string, from: Address, recipient: Address, asset: nat, amount: nat) {
    exists e :: e in edges && e.tx == tx && e.from == from && e.recipient == recipient && e.asset == asset
                && e.amount == amount
  }

  /** The transfer of the conversion and the leg its evidence names are edges. */
  ghost predicate LegsShown(edges: seq<Edge>, x: Conversion) {
    && Moved(edges, x.transfer.tx, x.transfer.from, x.transfer.recipient, x.transfer.asset, x.transfer.amount)
    && x.evidence.Some?
    && var leg := x.evidence.value;
       Moved(edges, x.transfer.tx, leg.executor, leg.recipient, leg.tokenOut, leg.amountOut)
  }

  ghost predicate OutputMet(w: World, t: Trace, e: Edge, x: Transfer) {
    && x.tx == e.tx && x.block == e.block && w.convert(EdgeFar(e), e.direction, x).Some?
    && var out := w.convert(EdgeFar(e), e.direction, x).value;
       || LegsShown(t.edges, out)
       || !Eligible(w, e.direction, out.transfer)
       || Met(t, e.direction, out.transfer)
  }

  /** The far end of the edge is closed, or everything that continues it is met unless the money went out. */
  ghost predicate Followed(w: World, t: Trace, e: Edge) {
    || Closed(t.nodes, EdgeFar(e))
    || (if w.contract(EdgeFar(e)) then Analysed(w, t, e)
        else PaidOut(w, t.edges, e) || forall c :: Continues(w, e, c) ==> Met(t, e.direction, c))
  }

  /** The branch of an edge. */
  ghost predicate Fits(w: World, e: Edge, b: Branch) {
    && b.address == EdgeFar(e) && b.direction == e.direction && b.asset == Only(e.asset) && b.anchor == e.block
    && b.amount == Some(e.amount) && b.path == e.path && b.contract == w.contract(EdgeFar(e))
    && b.entering.Some? && b.entering.value.tx == e.tx && b.entering.value.block == e.block
  }

  ghost predicate Waits(w: World, e: Edge, bs: seq<Branch>) {
    exists i :: 0 <= i < |bs| && Fits(w, e, bs[i])
  }

  /** Below the node limit, every edge to an address that is not terminal has its branch waiting, here or for
      the next level, or was followed. */
  ghost predicate AllFollowed(w: World, t: Trace, waiting: seq<Branch>) {
    |t.visitedNodes| < MAX_NODES ==>
      forall e :: e in t.edges && EdgeFar(e) != Zero && !w.terminal(EdgeFar(e)) ==>
        Waits(w, e, t.next) || Waits(w, e, waiting) || Followed(w, t, e)
  }

  // ---------- what stays ----------

  ghost predicate Stays(t: Trace, u: Trace) {
    && Wider(t, u) && t.next <= u.next
    && forall a :: (HasNode(t.nodes, a) ==> HasNode(u.nodes, a)) && (Closed(t.nodes, a) ==> Closed(u.nodes, a))
  }

  lemma {:induction false} PaidOnGrows(
      edges: seq<Edge>, more: seq<Edge>, d: Direction, asset: nat, path: seq<Address>)
    requires edges <= more
    ensures PaidOn(edges, d, asset, path) <= PaidOn(more, d, asset, path)
  {
    if |edges| < |more| {
      PaidOnGrows(edges, more[..|more| - 1], d, asset, path);
    } else {
      assert edges == more;
    }
  }

  lemma MetStays(t: Trace, u: Trace, d: Direction, c: Transfer)
    requires Wider(t, u) && Met(t, d, c)
    ensures Met(u, d, c)
  {
  }

  lemma LegsStay(edges: seq<Edge>, more: seq<Edge>, x: Conversion)
    requires edges <= more && LegsShown(edges, x)
    ensures LegsShown(more, x)
  {
    assert forall e :: e in edges ==> e in more;
  }

  lemma TracedShown(edges: seq<Edge>, x: Conversion)
    requires AlreadyTraced(edges, x)
    ensures LegsShown(edges, x)
  {
  }

  /** A branch at a contract whose swap is recorded in full, or brings out too little, changes nothing. */
  lemma ShownIsSkipped(w: World, t: Trace, b: Branch, depth: nat)
    requires b.contract && b.entering.Some? && b.entering.value.tx != "" && w.analyzes
    requires w.convert(b.address, b.direction, b.entering.value).Some?
    requires
      var x := w.convert(b.address, b.direction, b.entering.value).value;
      || !w.above(x.transfer.asset, x.transfer.amount)
      || (LegsShown(t.edges, x) && x.evidence.value.executor != Nobody && x.evidence.value.recipient != Nobody)
    ensures
      var step := Process(w, t, b, depth);
      && step.Running? && step.trace.edges == t.edges && step.trace.money == t.money && step.trace.next == t.next
      && step.trace.nodes == t.nodes && step.trace.visitedStates == t.visitedStates
      && step.trace.partialData == t.partialData
  {
    var x := w.convert(b.address, b.direction, b.entering.value).value;
    if w.above(x.transfer.asset, x.transfer.amount) {
      assert AlreadyTraced(t.edges, x);
    }
  }

  lemma AnalysedStays(w: World, t: Trace, u: Trace, e: Edge)
    requires Wider(t, u) && Analysed(w, t, e)
    ensures Analysed(w, u, e)
  {
    hide Met, LegsShown, Eligible;
    var x :| OutputMet(w, t, e, x);
    var out := w.convert(EdgeFar(e), e.direction, x).value;
    if LegsShown(t.edges, out) {
      LegsStay(t.edges, u.edges, out);
    } else if Met(t, e.direction, out.transfer) {
      MetStays(t, u, e.direction, out.transfer);
    }
    assert OutputMet(w, u, e, x);
  }

  lemma FollowedStays(w: World, t: Trace, u: Trace, e: Edge)
    requires Wider(t, u) && Followed(w, t, e) && (Closed(t.nodes, EdgeFar(e)) ==> Closed(u.nodes, EdgeFar(e)))
    ensures Followed(w, u, e)
  {
    hide Met, Closed, Eligible, Continues, Analysed, PaidOn;
    if !Closed(t.nodes, EdgeFar(e)) {
      if w.contract(EdgeFar(e)) {
        AnalysedStays(w, t, u, e);
      } else if PaidOut(w, t.edges, e) {
        PaidOnGrows(t.edges, u.edges, e.direction, e.asset, e.path);
      } else {
        forall c | Continues(w, e, c)
          ensures Met(u, e.direction, c)
        {
          MetStays(t, u, e.direction, c);
        }
      }
    }
  }

  lemma WaitsPrefix(w: World, e: Edge, bs: seq<Branch>, more: seq<Branch>)
    requires bs <= more && Waits(w, e, bs)
    ensures Waits(w, e, more)
  {
  }

  /** What is not new stays accounted for. */
  lemma OldEdgesFollowed(w: World, t: Trace, u: Trace, waiting: seq<Branch>)
    requires AllFollowed(w, t, waiting) && Stays(t, u)
    requires |u.visitedNodes| < MAX_NODES ==>
      forall e :: e in u.edges && e !in t.edges && EdgeFar(e) != Zero && !w.terminal(EdgeFar(e)) ==> Waits(w, e, u.next)
    ensures AllFollowed(w, u, waiting)
  {
    hide Followed, Waits, Closed;
    if |u.visitedNodes| < MAX_NODES {
      forall e | e in u.edges && EdgeFar(e) != Zero && !w.terminal(EdgeFar(e))
        ensures Waits(w, e, u.next) || Waits(w, e, waiting) || Followed(w, u, e)
      {
        if e in t.edges {
          if Followed(w, t, e) {
            FollowedStays(w, t, u, e);
          } else if Waits(w, e, t.next) {
            WaitsPrefix(w, e, t.next, u.next);
          }
        }
      }
    }
  }

  // ---------- one candidate ----------

  lemma ClosedBySetting(nodes: seq<Node>, address: Address, stop: Stop)
    requires stop != Open
    ensures
      var r := SetTerminal(nodes, address, stop);
      && (forall a :: (HasNode(nodes, a) ==> HasNode(r, a)) && (Closed(nodes, a) ==> Closed(r, a)))
      && (HasNode(nodes, address) ==> Closed(r, address))
  {
    var r := SetTerminal(nodes, address, stop);
    forall a
      ensures HasNode(nodes, a) ==> HasNode(r, a)
      ensures Closed(nodes, a) ==> Closed(r, a)
      ensures HasNode(nodes, address) ==> Closed(r, address)
    {
      assert forall i :: 0 <= i < |nodes| ==> r[i].address == nodes[i].address;
    }
  }

  lemma NodesAppended(nodes: seq<Node>, more: seq<Node>, a: Address)
    requires nodes <= more
    ensures (HasNode(nodes, a) ==> HasNode(more, a)) && (Closed(nodes, a) ==> Closed(more, a))
  {
    assert forall i :: 0 <= i < |nodes| ==> nodes[i] == more[i];
  }

  lemma VisitNodes(w: World, t: Trace, b: Branch, c: Transfer, depth: nat, converted: bool)
    requires Visit(w, t, b, c, depth, converted).Running?
    ensures
      var u := Visit(w, t, b, c, depth, converted).trace;
      (t.nodes <= u.nodes || u.nodes == SetTerminal(t.nodes, b.address, NodeLimit)) && t.next <= u.next
  {
    hide SetTerminal, Pair, Child, EdgeOf;
  }

  lemma VisitStays(w: World, t: Trace, b: Branch, c: Transfer, depth: nat, converted: bool)
    requires Visit(w, t, b, c, depth, converted).Running?
    ensures Stays(t, Visit(w, t, b, c, depth, converted).trace)
  {
    hide SetTerminal, Visit, Closed, HasNode;
    ClosedBySetting(t.nodes, b.address, NodeLimit);
    VisitLater(w, t, b, c, depth, converted);
    VisitNodes(w, t, b, c, depth, converted);
    var u := Visit(w, t, b, c, depth, converted).trace;
    forall a | t.nodes <= u.nodes
      ensures (HasNode(t.nodes, a) ==> HasNode(u.nodes, a)) && (Closed(t.nodes, a) ==> Closed(u.nodes, a))
    {
      NodesAppended(t.nodes, u.nodes, a);
    }
  }

  lemma ChildFits(w: World, b: Branch, c: Transfer, amount: nat, depth: nat, converted: bool)
    ensures Fits(w, EdgeOf(b, c, amount, depth, converted), Child(w, b, c, amount))
  {
  }

  /** What a visit adds: nothing, or one edge, whose branch is queued unless its far end is terminal. */
  lemma VisitAdds(w: World, t: Trace, b: Branch, c: Transfer, depth: nat, converted: bool)
    requires Visit(w, t, b, c, depth, converted).Running?
    ensures
      var u, amount := Visit(w, t, b, c, depth, converted).trace, Cut(t.budget, c.amount);
      || u.edges == t.edges
      || (u.edges == t.edges + [EdgeOf(b, c, amount, depth, converted)]
         && (Far(b.direction, c) == Zero || w.terminal(Far(b.direction, c)) || |u.visitedNodes| >= MAX_NODES
            || u.next == t.next + [Child(w, b, c, amount)]))
  {
    hide SetTerminal, Pair, Child, EdgeOf;
  }

  lemma VisitQueues(w: World, t: Trace, b: Branch, c: Transfer, depth: nat, converted: bool)
    requires Visit(w, t, b, c, depth, converted).Running?
    ensures
      var u := Visit(w, t, b, c, depth, converted).trace;
      |u.visitedNodes| < MAX_NODES ==>
        forall e :: e in u.edges && e !in t.edges && EdgeFar(e) != Zero && !w.terminal(EdgeFar(e)) ==>
          Waits(w, e, u.next)
  {
    VisitAdds(w, t, b, c, depth, converted);
    ChildFits(w, b, c, Cut(t.budget, c.amount), depth, converted);
    hide Visit, Child, Fits;
    var u := Visit(w, t, b, c, depth, converted).trace;
    if u.next == t.next + [Child(w, b, c, Cut(t.budget, c.amount))] {
      assert u.next[|t.next|] == Child(w, b, c, Cut(t.budget, c.amount));
    }
  }

  lemma StaysTransitive(t: Trace, u: Trace, v: Trace)
    requires Stays(t, u) && Stays(u, v)
    ensures Stays(t, v)
  {
    hide Closed, HasNode;
  }

  lemma StaysSame(t: Trace, u: Trace)
    requires u.edges == t.edges && u.visitedStates == t.visitedStates && u.visitedNodes == t.visitedNodes
    requires u.next == t.next && u.nodes == t.nodes
    ensures Stays(t, u)
  {
  }

  lemma {:induction false} VisitAllFollowed(
      w: World, t: Trace, b: Branch, cs: seq<Transfer>, depth: nat, converted: bool, waiting: seq<Branch>)
    requires AllFollowed(w, t, waiting)
    ensures
      var o := VisitAll(w, t, b, cs, depth, converted);
      o.Running? ==> AllFollowed(w, o.trace, waiting) && Stays(t, o.trace)
    decreases |cs|
  {
    hide Visit, AllFollowed, Stays, Waits;
    if cs == [] {
      StaysSame(t, t);
    } else {
      var step := Visit(w, t, b, cs[0], depth, converted);
      if step.Running? {
        VisitStays(w, t, b, cs[0], depth, converted);
        VisitQueues(w, t, b, cs[0], depth, converted);
        OldEdgesFollowed(w, t, step.trace, waiting);
        VisitAllFollowed(w, step.trace, b, cs[1..], depth, converted, waiting);
        var o := VisitAll(w, step.trace, b, cs[1..], depth, converted);
        if o.Running? {
          StaysTransitive(t, step.trace, o.trace);
        }
      }
    }
  }

  // ---------- the money of one branch ----------

  /** What was recorded for the branch, what is left of its amount, and at most one rest too small to trace
      are together its amount. */
  ghost predicate Accounted(w: World, t: Trace, b: Branch, asset: nat) {
    && b.amount.Some? && t.budget.Some?
    && (|t.visitedNodes| < MAX_NODES ==>
          exists rest: nat {:trigger w.above(asset, rest)} ::
            && (rest == 0 || (!w.above(asset, rest) && t.budget.value == 0))
            && PaidOn(t.edges, b.direction, asset, b.path) + t.budget.value + rest >= b.amount.value)
  }

  lemma PaidOnSnoc(edges: seq<Edge>, e: Edge, d: Direction, asset: nat, path: seq<Address>)
    requires e.direction == d && e.asset == asset && |e.path| > 0 && e.path[..|e.path| - 1] == path
    ensures PaidOn(edges + [e], d, asset, path) == PaidOn(edges, d, asset, path) + e.amount
  {
    assert (edges + [e])[..|edges|] == edges;
  }

  /** The three ways in which a visit moves money. */
  lemma VisitMoves(w: World, t: Trace, b: Branch, c: Transfer, depth: nat)
    requires Visit(w, t, b, c, depth, false).Running? && t.budget.Some?
    ensures
      var u, amount := Visit(w, t, b, c, depth, false).trace, Cut(t.budget, c.amount);
      && |t.visitedNodes| <= |u.visitedNodes|
      && (|u.visitedNodes| < MAX_NODES ==>
          || (u.edges == t.edges && u.budget == t.budget)
          || (u.edges == t.edges && u.budget == Some(0) && !w.above(c.asset, t.budget.value) && t.budget.value > 0)
          || (u.edges == t.edges + [EdgeOf(b, c, amount, depth, false)] && amount <= t.budget.value
              && u.budget == Some(t.budget.value - amount)))
  {
    var e, amount := EdgeOf(b, c, Cut(t.budget, c.amount), depth, false), Cut(t.budget, c.amount);
    var recorded := Record(w, t.(budget := Spend(t.budget, amount)), b.address, e);
    ReachShape(w, recorded, b, c, amount, depth);
    hide SetTerminal, Pair, EdgeOf, Reach;
  }

  lemma ReachShape(w: World, t: Trace, b: Branch, c: Transfer, amount: nat, depth: nat)
    ensures
      var u := Reach(w, t, b, c, amount, depth);
      u.edges == t.edges && u.budget == t.budget && |t.visitedNodes| <= |u.visitedNodes|
  {
    hide Child;
  }

  lemma VisitAccounts(w: World, t: Trace, b: Branch, c: Transfer, depth: nat)
    requires Visit(w, t, b, c, depth, false).Running? && Accounted(w, t, b, c.asset)
    ensures Accounted(w, Visit(w, t, b, c, depth, false).trace, b, c.asset)
  {
    VisitMoves(w, t, b, c, depth);
    VisitLater(w, t, b, c, depth, false);
    hide Visit;
    var u, amount := Visit(w, t, b, c, depth, false).trace, Cut(t.budget, c.amount);
    if |u.visitedNodes| < MAX_NODES {
      var rest: nat :| (rest == 0 || (!w.above(c.asset, rest) && t.budget.value == 0))
                       && PaidOn(t.edges, b.direction, c.asset, b.path) + t.budget.value + rest >= b.amount.value;
      var e := EdgeOf(b, c, amount, depth, false);
      assert e.path[..|e.path| - 1] == b.path;
      PaidOnSnoc(t.edges, e, b.direction, c.asset, b.path);
      var rest' := if u.edges == t.edges && u.budget != t.budget then t.budget.value else rest;
      assert w.above(c.asset, rest') || !w.above(c.asset, rest');
    }
  }

  lemma {:induction false} AllAccounted(w: World, t: Trace, b: Branch, cs: seq<Transfer>, depth: nat, asset: nat)
    requires Accounted(w, t, b, asset) && forall c :: c in cs ==> c.asset == asset
    ensures
      var o := VisitAll(w, t, b, cs, depth, false);
      o.Running? ==> Accounted(w, o.trace, b, asset)
    decreases |cs|
  {
    hide Visit, Accounted;
    if cs != [] {
      var step := Visit(w, t, b, cs[0], depth, false);
      if step.Running? {
        assert cs[0] in cs;
        VisitAccounts(w, t, b, cs[0], depth);
        AllAccounted(w, step.trace, b, cs[1..], depth, asset);
      }
    }
  }

  lemma VisitMeetsOrEmpties(w: World, t: Trace, b: Branch, c: Transfer, depth: nat)
    requires Visit(w, t, b, c, depth, false).Running? && Eligible(w, b.direction, c)
    ensures
      var u := Visit(w, t, b, c, depth, false).trace;
      Met(u, b.direction, c) || u.budget == Some(0)
  {
    hide SetTerminal, Pair, Child;
    var u := Visit(w, t, b, c, depth, false).trace;
    if u.edges != t.edges {
      var e := EdgeOf(b, c, Cut(t.budget, c.amount), depth, false);
      assert u.edges == t.edges + [e];
      assert e in u.edges && EdgeKey(e) == ChildKey(b.direction, c);
    }
  }

  /** After an expansion an eligible candidate is met or the money is gone. */
  lemma {:induction false} AllMetOrEmpty(w: World, t: Trace, b: Branch, cs: seq<Transfer>, depth: nat, i: nat)
    requires i < |cs| && Eligible(w, b.direction, cs[i])
    ensures
      var o := VisitAll(w, t, b, cs, depth, false);
      o.Running? ==> Met(o.trace, b.direction, cs[i]) || o.trace.budget == Some(0)
    decreases |cs|
  {
    hide Visit, Met, Eligible;
    var step := Visit(w, t, b, cs[0], depth, false);
    if step.Running? {
      if i == 0 {
        VisitMeetsOrEmpties(w, t, b, cs[0], depth);
        AllLater(w, step.trace, b, cs[1..], depth, false);
        var o := VisitAll(w, step.trace, b, cs[1..], depth, false);
        if o.Running? {
          LaterKeeps(w, step.trace, o.trace, b.direction, cs[0]);
        }
      } else {
        AllMetOrEmpty(w, step.trace, b, cs[1..], depth, i - 1);
      }
    }
  }

  /** Expanding the branch of an edge follows the edge. */
  lemma ExpandFollows(w: World, t: Trace, e: Edge, b: Branch, depth: nat)
    requires Fits(w, e, b) && t.budget == b.amount && !b.contract
    ensures
      var o := VisitAll(w, t, b, Sort(Earlier(b.direction), Matching(w.transfers, b)), depth, false);
      o.Running? && |o.trace.visitedNodes| < MAX_NODES ==> Followed(w, o.trace, e)
  {
    var cs := Sort(Earlier(b.direction), Matching(w.transfers, b));
    var o := VisitAll(w, t, b, cs, depth, false);
    forall c | c in w.transfers
      ensures c in cs <==> Asked(b, c)
    {
      Candidates(w.transfers, b, Earlier(b.direction), c);
    }
    forall c | c in cs
      ensures c.asset == e.asset
    {
      Candidates(w.transfers, b, Earlier(b.direction), c);
    }
    hide VisitAll, Sort, Matching, Met, Closed;
    if o.Running? && |o.trace.visitedNodes| < MAX_NODES {
      assert w.above(e.asset, 0) || !w.above(e.asset, 0);
      AllAccounted(w, t, b, cs, depth, e.asset);
      if o.trace.budget != Some(0) {
        forall c | Continues(w, e, c)
          ensures Met(o.trace, e.direction, c)
        {
          assert c in cs;
          var i :| 0 <= i < |cs| && cs[i] == c;
          AllMetOrEmpty(w, t, b, cs, depth, i);
        }
      }
    }
  }

  // ---------- one branch ----------

  lemma {:induction false} TerminalIsClosed(nodes: seq<Node>, a: Address)
    requires IsTerminal(nodes, a)
    ensures Closed(nodes, a)
  {
    if nodes[0].address != a {
      TerminalIsClosed(nodes[1..], a);
      var i :| 0 <= i < |nodes[1..]| && nodes[1..][i].address == a && nodes[1..][i].stop != Open;
      assert nodes[i + 1].address == a && nodes[i + 1].stop != Open;
    }
  }

  lemma ConvertStays(w: World, t: Trace, b: Branch, depth: nat, waiting: seq<Branch>)
    requires b.entering.Some? && AllFollowed(w, t, waiting)
    ensures
      var step := ConvertAt(w, t, b, depth);
      step.Running? ==> Stays(t, step.trace) && AllFollowed(w, step.trace, waiting)
  {
    hide VisitAll, AlreadyTraced, AllFollowed, Closed, HasNode, SetTerminal;
    ClosedBySetting(t.nodes, b.address, UnsupportedContract);
    ClosedBySetting(t.nodes, b.address, AmbiguousConversion);
    StaysSame(t, t);
    StaysSame(t, t.(budget := None));
    OldEdgesFollowed(w, t, t.(budget := None), waiting);
    OldEdgesFollowed(w, t, Halt(t, b.address, UnsupportedContract), waiting);
    OldEdgesFollowed(w, t, Halt(t, b.address, AmbiguousConversion), waiting);
    var x := w.convert(b.address, b.direction, b.entering.value);
    if x.Some? {
      var u := t.(budget := None);
      VisitAllFollowed(w, u, b, [x.value.transfer], depth, true, waiting);
      var o := VisitAll(w, u, b, [x.value.transfer], depth, true);
      if o.Running? {
        StaysTransitive(t, u, o.trace);
      }
    }
  }

  lemma ConvertFollows(w: World, t: Trace, e: Edge, b: Branch, depth: nat)
    requires Fits(w, e, b) && b.contract && HasNode(t.nodes, b.address)
    ensures
      var step := ConvertAt(w, t, b, depth);
      step.Running? ==> Followed(w, step.trace, e)
  {
    hide Closed, HasNode, SetTerminal, AlreadyTraced, Visit, LegsShown;
    ClosedBySetting(t.nodes, b.address, UnsupportedContract);
    ClosedBySetting(t.nodes, b.address, AmbiguousConversion);
    var x, step := w.convert(b.address, b.direction, b.entering.value), ConvertAt(w, t, b, depth);
    if x.Some? && step.Running? {
      var c := x.value.transfer;
      if AlreadyTraced(t.edges, x.value) {
        TracedShown(t.edges, x.value);
      }
      if Eligible(w, b.direction, c) {
        ExpandMeets(w, t.(budget := None), b, [c], depth, true, 0);
        AllLater(w, t.(budget := None), b, [c], depth, true);
      }
      if w.analyzes && b.entering.value.tx != "" {
        assert OutputMet(w, step.trace, e, b.entering.value);
      }
    }
  }

  lemma ProcessStays(w: World, t: Trace, b: Branch, depth: nat, waiting: seq<Branch>)
    requires AllFollowed(w, t, waiting)
    ensures
      var step := Process(w, t, b, depth);
      step.Running? ==> Stays(t, step.trace) && AllFollowed(w, step.trace, waiting)
  {
    hide VisitAll, ConvertAt, AllFollowed, Closed, HasNode, Matching, SetTerminal, Sort;
    StaysSame(t, t);
    var seen := t.(processed := t.processed + {b.address});
    StaysSame(t, seen);
    OldEdgesFollowed(w, t, seen, waiting);
    if b.entering.Some? && b.contract {
      ConvertStays(w, seen, b, depth, waiting);
    } else {
      var found := Matching(w.transfers, b);
      var cut := Halt(seen.(partialData := true), b.address, HighFrequency);
      ClosedBySetting(t.nodes, b.address, HighFrequency);
      OldEdgesFollowed(w, t, cut, waiting);
      var u := seen.(budget := b.amount);
      StaysSame(t, u);
      OldEdgesFollowed(w, t, u, waiting);
      VisitAllFollowed(w, u, b, Sort(Earlier(b.direction), found), depth, false, waiting);
      var o := VisitAll(w, u, b, Sort(Earlier(b.direction), found), depth, false);
      if o.Running? {
        StaysTransitive(t, u, o.trace);
      }
    }
  }

  lemma ProcessFollows(w: World, t: Trace, e: Edge, b: Branch, depth: nat)
    requires Fits(w, e, b) && HasNode(t.nodes, b.address)
    ensures
      var step := Process(w, t, b, depth);
      step.Running? && |step.trace.visitedNodes| < MAX_NODES ==> Followed(w, step.trace, e)
  {
    hide VisitAll, ConvertAt, Closed, HasNode, Matching, SetTerminal, Sort, Analysed, PaidOut, Continues;
    if IsTerminal(t.nodes, b.address) {
      TerminalIsClosed(t.nodes, b.address);
    } else {
      var seen := t.(processed := t.processed + {b.address});
      if b.contract {
        ConvertFollows(w, seen, e, b, depth);
      } else {
        ClosedBySetting(t.nodes, b.address, HighFrequency);
        ExpandFollows(w, seen.(budget := b.amount), e, b, depth);
      }
    }
  }

  ghost predicate AllNodes(t: Trace, bs: seq<Branch>) {
    forall i :: 0 <= i < |bs| ==> HasNode(t.nodes, bs[i].address)
  }

  lemma FirstBranchDone(w: World, t: Trace, bs: seq<Branch>)
    requires bs != [] && AllFollowed(w, t, bs)
    requires |t.visitedNodes| < MAX_NODES ==> forall e :: Fits(w, e, bs[0]) ==> Followed(w, t, e)
    ensures AllFollowed(w, t, bs[1..])
  {
    hide Followed, Fits;
    if |t.visitedNodes| < MAX_NODES {
      forall e | e in t.edges && EdgeFar(e) != Zero && !w.terminal(EdgeFar(e))
        ensures Waits(w, e, t.next) || Waits(w, e, bs[1..]) || Followed(w, t, e)
      {
        if Waits(w, e, bs) {
          var i :| 0 <= i < |bs| && Fits(w, e, bs[i]);
          if i > 0 {
            assert bs[1..][i - 1] == bs[i];
          }
        }
      }
    }
  }

  lemma {:induction false} ProcessAllFollowed(w: World, t: Trace, bs: seq<Branch>, depth: nat)
    requires AllFollowed(w, t, bs) && AllNodes(t, bs)
    ensures
      var o := ProcessAll(w, t, bs, depth);
      o.Running? ==> AllFollowed(w, o.trace, [])
    decreases |bs|
  {
    hide Process, AllFollowed, Followed, Fits, HasNode, Closed;
    if bs != [] {
      var step := Process(w, t, bs[0], depth);
      if step.Running? {
        ProcessStays(w, t, bs[0], depth, bs);
        forall e | Fits(w, e, bs[0]) && |step.trace.visitedNodes| < MAX_NODES
          ensures Followed(w, step.trace, e)
        {
          ProcessFollows(w, t, e, bs[0], depth);
        }
        FirstBranchDone(w, step.trace, bs);
        ProcessAllFollowed(w, step.trace, bs[1..], depth);
      }
    }
  }

  // ---------- one level, and all ----------

  lemma SettleKeepsNodes(nodes: seq<Node>, idle: set<Address>, a: Address)
    ensures HasNode(nodes, a) ==> HasNode(Settle(nodes, idle), a)
    ensures Closed(nodes, a) ==> Closed(Settle(nodes, idle), a)
  {
    var r := Settle(nodes, idle);
    assert forall i :: 0 <= i < |nodes| ==> r[i].address == nodes[i].address;
  }

  lemma OpenFollowed(w: World, t: Trace)
    requires AllFollowed(w, t, [])
    ensures AllFollowed(w, OpenLevel(t), Sort(ByKey(w), t.next))
  {
    hide Fits, Closed, Analysed, PaidOut, Continues;
    var bs, u := Sort(ByKey(w), t.next), OpenLevel(t);
    SortKeepsMembers(ByKey(w), t.next);
    if |t.visitedNodes| < MAX_NODES {
      forall e | e in u.edges && EdgeFar(e) != Zero && !w.terminal(EdgeFar(e))
        ensures Waits(w, e, bs) || Followed(w, u, e)
      {
        if Waits(w, e, t.next) {
          var i :| 0 <= i < |t.next| && Fits(w, e, t.next[i]);
          assert t.next[i] in bs;
          var j :| 0 <= j < |bs| && bs[j] == t.next[i];
        } else {
          assert Followed(w, t, e);
          FollowedStays(w, t, u, e);
        }
      }
    }
  }

  lemma LevelFollowed(w: World, seed: Address, ds: seq<Direction>, t: Trace, depth: nat)
    requires AtLevel(w, seed, ds, t, depth) && AllFollowed(w, t, [])
    ensures
      var r := Level(w, t, depth);
      r.Running? ==> AllFollowed(w, r.trace, [])
  {
    hide ProcessAll, AllFollowed, Settle, Closed, HasNode, Hangs, Sort, Loose;
    var bs := Sort(ByKey(w), t.next);
    OpenFollowed(w, t);
    SortedFrontier(w, t, seed, depth);
    forall i | 0 <= i < |bs|
      ensures HasNode(t.nodes, bs[i].address)
    {
      assert bs[i].address in t.visitedNodes by { HangsVisited(t, seed, bs[i], depth); }
    }
    ProcessAllFollowed(w, OpenLevel(t), bs, depth);
    var r := ProcessAll(w, OpenLevel(t), bs, depth);
    if r.Running? {
      var u := Level(w, t, depth).trace;
      forall a
        ensures (HasNode(r.trace.nodes, a) ==> HasNode(u.nodes, a)) && (Closed(r.trace.nodes, a) ==> Closed(u.nodes, a))
      {
        SettleKeepsNodes(r.trace.nodes, r.trace.processed - r.trace.expanded, a);
      }
      OldEdgesFollowed(w, r.trace, u, []);
    }
  }

  lemma HangsVisited(t: Trace, seed: Address, b: Branch, depth: nat)
    requires Hangs(t.edges, t.visitedNodes, seed, b, depth)
    ensures b.address in t.visitedNodes
  {
  }

  lemma {:induction false} LevelsFollowed(w: World, seed: Address, ds: seq<Direction>, t: Trace, depth: nat)
    requires Consistent(w) && AtLevel(w, seed, ds, t, depth) && AllFollowed(w, t, [])
    ensures
      var o := Levels(w, seed, ds, t, depth);
      o.Running? && |o.trace.visitedNodes| < MAX_NODES ==> AllFollowed(w, o.trace, []) && o.trace.next == []
    decreases |Universe(w, seed, ds) - t.visitedStates|, |t.next|
  {
    hide Level, AtLevel, AllFollowed, SetAllTerminal, Universe;
    if t.next != [] && |t.visitedNodes| < MAX_NODES {
      var r := Level(w, t, depth);
      if r.Running? {
        LevelFollowed(w, seed, ds, t, depth);
        LevelKeeps(w, seed, ds, t, depth);
        StatesKnown(w, seed, ds, r.trace, depth + 1);
        FewerStates(Universe(w, seed, ds), t.visitedStates, r.trace.visitedStates);
        LevelsFollowed(w, seed, ds, r.trace, depth + 1);
      }
    }
  }

  /** In a finished trace below the node limit every edge that leads to an open account was followed: every
      transfer of its asset that continues it is met, or its amount has gone on but for a rest too small to
      trace.  A contract at its end was analysed and its output traced. */
  lemma TraceFollows(w: World, seed: Address, ds: seq<Direction>, e: Edge)
    requires Consistent(w) && ds != []
    requires
      var o := TraceAll(w, seed, ds);
      o.Running? && |o.trace.visitedNodes| < MAX_NODES && e in o.trace.edges
    requires EdgeFar(e) != Zero && !w.terminal(EdgeFar(e))
    ensures Followed(w, TraceAll(w, seed, ds).trace, e)
  {
    hide Levels, AtLevel, Followed;
    StartAtLevel(w, seed, ds);
    LevelsFollowed(w, seed, ds, Start(w, seed, ds), 0);
  }
}
