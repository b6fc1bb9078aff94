/** What an extension records, in full: the amount that enters the node in an asset is laid over the transfers
    that leave it, in order (internal/tracer/extension.go, ExtendBranch). */
module ExtensionComplete {
  import opened Fifo
  import opened Sorting
  import opened Wrappers
  import opened Trace
  import opened TraceSound
  import opened TraceComplete
  import opened Extension

  /** What the first n candidates move, those that are not traced left aside. */
  function Due(w: World, d: Direction, cs: seq<Transfer>, n: nat): nat
    requires n <= |cs|
  {
    if n == 0 then 0 else Due(w, d, cs, n - 1) + if Eligible(w, d, cs[n - 1]) then cs[n - 1].amount else 0
  }

  /** What of `amount` is left for the i-th. */
  function Share(w: World, d: Direction, cs: seq<Transfer>, amount: nat, i: nat): nat
    requires i < |cs|
  {
    Min(cs[i].amount, Max(0, amount - Due(w, d, cs, i)))
  }

  /** The i-th is traced and what is left for it is worth an edge. */
  predicate Counts(w: World, d: Direction, cs: seq<Transfer>, amount: nat, i: nat)
    requires i < |cs|
  {
    var share := Share(w, d, cs, amount, i);
    Eligible(w, d, cs[i]) && share > 0 && w.above(cs[i].asset, share)
  }

  /** It counts, and its far end is not ready. */
  predicate Misses(w: World, d: Direction, cs: seq<Transfer>, amount: nat, i: nat)
    requires i < |cs|
  {
    Counts(w, d, cs, amount, i) && !w.ready(Far(d, cs[i]), d, cs[i].block)
  }

  /** The edges of the candidates from the i-th on. */
  function EdgesFrom(w: World, b: Branch, cs: seq<Transfer>, amount: nat, depth: nat, i: nat): seq<Edge>
    requires i <= |cs|
    decreases |cs| - i
  {
    if i == |cs| then []
    else
      (if Counts(w, b.direction, cs, amount, i)
       then [EdgeOf(b, cs[i], Share(w, b.direction, cs, amount, i), depth, false)] else [])
      + EdgesFrom(w, b, cs, amount, depth, i + 1)
  }

  ghost predicate NoMiss(w: World, d: Direction, cs: seq<Transfer>, amount: nat, from: nat, upTo: nat) {
    from <= upTo <= |cs| && forall k :: from <= k < upTo ==> !Misses(w, d, cs, amount, k)
  }

  /** One candidate, in terms of its share. */
  lemma TryShares(w: World, h: Hop, b: Branch, cs: seq<Transfer>, depth: nat, amount: nat, i: nat)
    requires i < |cs| && h.budget == Max(0, amount - Due(w, b.direction, cs, i))
    ensures
      var d, step := b.direction, Try(w, h, b, cs[i], depth);
      if Misses(w, d, cs, amount, i) then step == Unsynced(Far(d, cs[i]), d, cs[i].block)
      else
        && step.Done? && step.hop.budget == Max(0, amount - Due(w, d, cs, i + 1))
        && step.hop.edges == h.edges +
             if Counts(w, d, cs, amount, i) then [EdgeOf(b, cs[i], Share(w, d, cs, amount, i), depth, false)] else []
  {
    hide AppendNode, Pair, EdgeOf;
    assert h.edges + [] == h.edges;
  }

  /** An expansion ends at the first candidate that misses its far end; without one it records exactly the
      edges of the candidates that count. */
  lemma {:induction false} TryAllShares(w: World, h: Hop, b: Branch, cs: seq<Transfer>, depth: nat, amount: nat, i: nat)
    requires i <= |cs| && h.budget == Max(0, amount - Due(w, b.direction, cs, i))
    ensures
      var d, o := b.direction, TryAll(w, h, b, cs[i..], depth);
      && (o.Done? <==> NoMiss(w, d, cs, amount, i, |cs|))
      && (o.Done? ==> o.hop.edges == h.edges + EdgesFrom(w, b, cs, amount, depth, i))
      && (!o.Done? ==> exists k :: i <= k < |cs| && Misses(w, d, cs, amount, k) && NoMiss(w, d, cs, amount, i, k)
                                   && o == Unsynced(Far(d, cs[k]), d, cs[k].block))
    decreases |cs| - i
  {
    hide Try, Misses, Counts, Share, Due;
    var d := b.direction;
    if i == |cs| {
      assert cs[i..] == [];
    } else {
      assert cs[i..][0] == cs[i] && cs[i..][1..] == cs[i + 1..];
      TryShares(w, h, b, cs, depth, amount, i);
      if Misses(w, d, cs, amount, i) {
        assert NoMiss(w, d, cs, amount, i, i);
      } else {
        var step := Try(w, h, b, cs[i], depth);
        TryAllShares(w, step.hop, b, cs, depth, amount, i + 1);
        var o := TryAll(w, step.hop, b, cs[i + 1..], depth);
        if !o.Done? {
          var k :| i + 1 <= k < |cs| && Misses(w, d, cs, amount, k) && NoMiss(w, d, cs, amount, i + 1, k)
                   && o == Unsynced(Far(d, cs[k]), d, cs[k].block);
          assert NoMiss(w, d, cs, amount, i, k);
        }
      }
    }
  }

  /** An edge of a trace enters the node if and only if it was traced to it in the direction of the request, or
      is a transfer of the node to itself. */
  lemma EntersTraced(q: Request, e: Edge)
    requires e.path != [] && e.path[|e.path| - 1] == EdgeFar(e)
    ensures Enters(q, e) <==> EdgeFar(e) == q.address && (e.direction == q.direction || EdgeNear(e) == q.address)
  {
    assert q.direction == e.direction || q.direction != e.direction;
  }

  // ---------- one anchor ----------

  /** The stored transfers an anchor asks for, in the order of the expansion. */
  function Asks(w: World, q: Request, a: Anchor): seq<Transfer> {
    Sort(Earlier(q.direction), Matching(w.transfers, BranchOf(q, a)))
  }

  /** The anchor is expanded: it does not ask for too many transfers. */
  predicate Readable(w: World, q: Request, a: Anchor) {
    |Matching(w.transfers, BranchOf(q, a))| < RECORD_CAP
  }

  function AnchorEdges(w: World, q: Request, a: Anchor, depth: nat): seq<Edge> {
    if !Readable(w, q, a) then [] else EdgesFrom(w, BranchOf(q, a), Asks(w, q, a), a.amount, depth, 0)
  }

  /** Some transfer that counts for the anchor has a far end that is not ready. */
  ghost predicate AnchorMisses(w: World, q: Request, a: Anchor) {
    Readable(w, q, a) && !NoMiss(w, q.direction, Asks(w, q, a), a.amount, 0, |Asks(w, q, a)|)
  }

  /** That is reported by the first one of them. */
  ghost predicate ReportedBy(w: World, q: Request, a: Anchor, o: Extended) {
    var d, cs := q.direction, Asks(w, q, a);
    exists k :: 0 <= k < |cs| && Misses(w, d, cs, a.amount, k) && NoMiss(w, d, cs, a.amount, 0, k)
                && o == Unsynced(Far(d, cs[k]), d, cs[k].block)
  }

  lemma {:induction false} NothingToShare(w: World, b: Branch, cs: seq<Transfer>, depth: nat, i: nat)
    requires i <= |cs|
    ensures EdgesFrom(w, b, cs, 0, depth, i) == [] && NoMiss(w, b.direction, cs, 0, i, |cs|)
    decreases |cs| - i
  {
    hide Due;
    if i < |cs| {
      NothingToShare(w, b, cs, depth, i + 1);
    }
  }

  lemma FromAnchorRecords(w: World, h: Hop, q: Request, a: Anchor, depth: nat)
    ensures
      var o := FromAnchor(w, h, q, a, depth);
      && (o.Done? <==> !AnchorMisses(w, q, a))
      && (o.Done? ==> o.hop.edges == h.edges + AnchorEdges(w, q, a, depth))
      && (!o.Done? ==> ReportedBy(w, q, a, o))
  {
    hide TryAll, Matching, Sort, Misses, EdgesFrom;
    var b, cs := BranchOf(q, a), Asks(w, q, a);
    TryAllShares(w, h.(budget := a.amount), b, cs, depth, a.amount, 0);
    assert cs[0..] == cs && h.edges + [] == h.edges;
    if a.amount == 0 {
      NothingToShare(w, b, cs, depth, 0);
    }
  }

  // ---------- all anchors ----------

  function AllEdges(w: World, edges: seq<Edge>, q: Request, assets: seq<nat>, depth: nat): seq<Edge>
    decreases |assets|
  {
    if assets == [] then []
    else
      var a := AnchorOf(edges, q, assets[0]);
      (if a.None? then [] else AnchorEdges(w, q, a.value, depth)) + AllEdges(w, edges, q, assets[1..], depth)
  }

  ghost predicate SomeMisses(w: World, edges: seq<Edge>, q: Request, assets: seq<nat>) {
    exists i :: 0 <= i < |assets| && MissesIn(w, edges, q, assets[i])
  }

  ghost predicate MissesIn(w: World, edges: seq<Edge>, q: Request, asset: nat) {
    AnchorOf(edges, q, asset).Some? && AnchorMisses(w, q, AnchorOf(edges, q, asset).value)
  }

  ghost predicate ReportedIn(w: World, edges: seq<Edge>, q: Request, asset: nat, o: Extended) {
    AnchorOf(edges, q, asset).Some? && ReportedBy(w, q, AnchorOf(edges, q, asset).value, o)
  }

  lemma SomeMissesCons(w: World, edges: seq<Edge>, q: Request, assets: seq<nat>)
    requires assets != []
    ensures SomeMisses(w, edges, q, assets) <==>
      MissesIn(w, edges, q, assets[0]) || SomeMisses(w, edges, q, assets[1..])
  {
    if SomeMisses(w, edges, q, assets[1..]) {
      var i :| 0 <= i < |assets[1..]| && MissesIn(w, edges, q, assets[1..][i]);
      assert assets[i + 1] == assets[1..][i];
    }
    if SomeMisses(w, edges, q, assets) && !MissesIn(w, edges, q, assets[0]) {
      var i :| 0 <= i < |assets| && MissesIn(w, edges, q, assets[i]);
      assert assets[1..][i - 1] == assets[i];
    }
  }

  lemma {:induction false} FromAnchorsRecord(
      w: World, h: Hop, edges: seq<Edge>, q: Request, assets: seq<nat>, depth: nat)
    ensures
      var o := FromAnchors(w, h, edges, q, assets, depth);
      && (o.Done? <==> !SomeMisses(w, edges, q, assets))
      && (o.Done? ==> o.hop.edges == h.edges + AllEdges(w, edges, q, assets, depth))
      && (!o.Done? ==> exists asset :: asset in assets && ReportedIn(w, edges, q, asset, o))
    decreases |assets|
  {
    hide FromAnchor, AnchorOf, AnchorMisses, AnchorEdges, ReportedBy, SomeMisses;
    if assets == [] {
      assert !SomeMisses(w, edges, q, assets) by { NoAssets(w, edges, q); }
    } else {
      SomeMissesCons(w, edges, q, assets);
      assert assets == [assets[0]] + assets[1..];
      var a := AnchorOf(edges, q, assets[0]);
      if a.None? {
        FromAnchorsRecord(w, h, edges, q, assets[1..], depth);
      } else {
        FromAnchorRecords(w, h, q, a.value, depth);
        var step := FromAnchor(w, h, q, a.value, depth);
        if step.Done? {
          FromAnchorsRecord(w, step.hop, edges, q, assets[1..], depth);
        } else {
          assert MissesIn(w, edges, q, assets[0]) && ReportedIn(w, edges, q, assets[0], step);
        }
      }
    }
  }

  lemma NoAssets(w: World, edges: seq<Edge>, q: Request)
    ensures !SomeMisses(w, edges, q, [])
  {
  }

  /** The outcome of an extension that is not refused: it is done if and only if no transfer that counts has a
      far end that is not ready, and then its edges are exactly those of the transfers that count, anchor by
      anchor; otherwise the first transfer of an anchor that misses its far end is reported. */
  lemma ExtensionRecords(w: World, nodes: seq<Node>, edges: seq<Edge>, q: Request, assets: seq<nat>)
    requires !ExtendFrom(w, nodes, edges, q, assets).Refused?
    ensures
      var o := ExtendFrom(w, nodes, edges, q, assets);
      && FindNode(nodes, q.address).Some?
      && (o.Done? <==> !SomeMisses(w, edges, q, assets))
      && (o.Done? ==> o.hop.edges == AllEdges(w, edges, q, assets, FindNode(nodes, q.address).value.depth))
      && (!o.Done? ==> exists asset :: asset in assets && ReportedIn(w, edges, q, asset, o))
  {
    hide FromAnchors, SomeMisses, ReportedIn, AllEdges;
    var node := FindNode(nodes, q.address);
    FromAnchorsRecord(w, Hop([node.value], [], [], false, 0), edges, q, assets, node.value.depth);
  }

  // ---------- every transfer ----------

  lemma {:induction false} EdgeOfCandidate(
      w: World, b: Branch, cs: seq<Transfer>, amount: nat, depth: nat, i: nat, k: nat)
    requires i <= k < |cs| && Counts(w, b.direction, cs, amount, k)
    ensures
      EdgeOf(b, cs[k], Share(w, b.direction, cs, amount, k), depth, false) in EdgesFrom(w, b, cs, amount, depth, i)
    decreases k - i
  {
    hide Counts, Share, EdgeOf;
    if i < k {
      EdgeOfCandidate(w, b, cs, amount, depth, i + 1, k);
    }
  }

  lemma {:induction false} AnchorAmongAll(
      w: World, edges: seq<Edge>, q: Request, assets: seq<nat>, depth: nat, asset: nat, e: Edge)
    requires asset in assets && AnchorOf(edges, q, asset).Some?
    requires e in AnchorEdges(w, q, AnchorOf(edges, q, asset).value, depth)
    ensures e in AllEdges(w, edges, q, assets, depth)
    decreases |assets|
  {
    hide AnchorOf, AnchorEdges;
    if assets[0] != asset {
      AnchorAmongAll(w, edges, q, assets[1..], depth, asset, e);
    }
  }

  /** In a finished extension every stored transfer of a traced kind that leaves the node in an entering asset,
      within the anchor's blocks, has its edge, in its own amount or in what is left of the amount that entered
      when the traced transfers before it have taken theirs; it has none only if that is nothing or too little
      to trace. */
  lemma TransfersExtended(
      w: World, nodes: seq<Node>, edges: seq<Edge>, q: Request, assets: seq<nat>, asset: nat, k: nat)
    requires InOrder(assets, EnteringAssets(edges, q)) && asset in EnteringAssets(edges, q)
    requires ExtendFrom(w, nodes, edges, q, assets).Done?
    requires AnchorOf(edges, q, asset).Some? && Readable(w, q, AnchorOf(edges, q, asset).value)
    requires k < |Asks(w, q, AnchorOf(edges, q, asset).value)|
    requires Eligible(w, q.direction, Asks(w, q, AnchorOf(edges, q, asset).value)[k])
    ensures
      var a, o := AnchorOf(edges, q, asset).value, ExtendFrom(w, nodes, edges, q, assets);
      var cs := Asks(w, q, a);
      var share := Min(cs[k].amount, Max(0, Brought(edges, q, asset) - Due(w, q.direction, cs, k)));
      && FindNode(nodes, q.address).Some?
      && (share > 0 && w.above(cs[k].asset, share) ==>
            EdgeOf(BranchOf(q, a), cs[k], share, FindNode(nodes, q.address).value.depth, false) in o.hop.edges)
  {
    hide Asks, Eligible, EdgeOf, FromAnchors, AllEdges, EnteringAssets, Due;
    ExtensionRecords(w, nodes, edges, q, assets);
    AnchorSums(edges, q, asset);
    var a, depth := AnchorOf(edges, q, asset).value, FindNode(nodes, q.address).value.depth;
    var cs, b := Asks(w, q, a), BranchOf(q, a);
    if Counts(w, q.direction, cs, a.amount, k) {
      EdgeOfCandidate(w, b, cs, a.amount, depth, 0, k);
      AnchorAmongAll(w, edges, q, assets, depth, asset,
                     EdgeOf(b, cs[k], Share(w, q.direction, cs, a.amount, k), depth, false));
    }
  }

  /** The candidates of an anchor are the stored transfers of its asset on its side of the node, from its first
      block on or up to its last; block 0 is no bound. */
  lemma AsksSpelled(w: World, q: Request, a: Anchor, c: Transfer)
    ensures c in Asks(w, q, a) <==>
      && c in w.transfers && c.amount > 0 && c.asset == a.asset
      && (if q.direction == Out then c.from == q.address && a.from <= c.block
          else c.recipient == q.address && (a.through > 0 ==> c.block <= a.through))
    ensures forall i, j :: 0 <= i < j < |Asks(w, q, a)| ==>
      if q.direction == Out then Asks(w, q, a)[i].block <= Asks(w, q, a)[j].block
      else Asks(w, q, a)[i].block >= Asks(w, q, a)[j].block
  {
    var b := BranchOf(q, a);
    Candidates(w.transfers, b, Earlier(b.direction), c);
    SortOrdered(Earlier(b.direction), Matching(w.transfers, b));
  }

  // ---------- marks ----------

  /** New nodes stand one deeper, closed if and only if their address is terminal. */
  ghost predicate Marked(w: World, nodes: seq<Node>, depth: nat) {
    forall i :: 0 <= i < |nodes| ==>
      nodes[i].depth == depth && nodes[i].stop == if w.terminal(nodes[i].address) then Given else Open
  }

  ghost predicate StoppedEnd(w: World, edges: seq<Edge>) {
    exists e :: e in edges && w.stopped(EdgeFar(e))
  }

  lemma {:induction false} AppendMarked(w: World, nodes: seq<Node>, address: Address, depth: nat)
    requires Marked(w, nodes, depth)
    ensures Marked(w, AppendNode(nodes, address, depth, if w.terminal(address) then Given else Open), depth)
  {
    if nodes != [] && nodes[0].address != address {
      AppendMarked(w, nodes[1..], address, depth);
    }
  }

  /** The nodes behind the first are marked, the first is closed if and only if an anchor was unreadable, and the
      hop is partial if so or if an edge of it leads to an address that was given up. */
  ghost predicate HopMarked(w: World, h: Hop, depth: nat, at: Address, unreadable: bool) {
    && h.nodes != [] && Marked(w, h.nodes[1..], depth + 1)
    && (h.partly <==> unreadable || StoppedEnd(w, h.edges))
    && h.nodes[0].address == at && (!w.terminal(at) ==> h.nodes[0].stop == if unreadable then HighFrequency else Open)
  }

  lemma StoppedSnoc(w: World, edges: seq<Edge>, e: Edge)
    ensures StoppedEnd(w, edges + [e]) <==> StoppedEnd(w, edges) || w.stopped(EdgeFar(e))
  {
    assert e in edges + [e];
  }

  lemma TryMarks(w: World, h: Hop, b: Branch, c: Transfer, depth: nat, at: Address, unreadable: bool)
    requires HopMarked(w, h, depth, at, unreadable) && Try(w, h, b, c, depth).Done?
    ensures HopMarked(w, Try(w, h, b, c, depth).hop, depth, at, unreadable)
  {
    hide Pair, StoppedEnd;
    var u, other := Try(w, h, b, c, depth).hop, Far(b.direction, c);
    if |u.edges| > |h.edges| {
      var e := EdgeOf(b, c, Cut(Some(h.budget), c.amount), depth, false);
      assert u.edges == h.edges + [e];
      StoppedSnoc(w, h.edges, e);
      AppendMarked(w, h.nodes[1..], other, depth + 1);
      if h.nodes[0].address == other {
        assert u.nodes[1..] == h.nodes[1..];
      } else {
        assert u.nodes[1..] == AppendNode(h.nodes[1..], other, depth + 1, if w.terminal(other) then Given else Open);
      }
    }
  }

  lemma {:induction false} TryAllMarks(
      w: World, h: Hop, b: Branch, cs: seq<Transfer>, depth: nat, at: Address, unreadable: bool)
    requires HopMarked(w, h, depth, at, unreadable) && TryAll(w, h, b, cs, depth).Done?
    ensures HopMarked(w, TryAll(w, h, b, cs, depth).hop, depth, at, unreadable)
    decreases |cs|
  {
    hide Try, HopMarked;
    if cs != [] {
      TryMarks(w, h, b, cs[0], depth, at, unreadable);
      TryAllMarks(w, Try(w, h, b, cs[0], depth).hop, b, cs[1..], depth, at, unreadable);
    }
  }

  ghost predicate SomeUnreadable(w: World, edges: seq<Edge>, q: Request, assets: seq<nat>) {
    exists i :: 0 <= i < |assets| && Unreadable(w, edges, q, assets[i])
  }

  ghost predicate Unreadable(w: World, edges: seq<Edge>, q: Request, asset: nat) {
    AnchorOf(edges, q, asset).Some? && !Readable(w, q, AnchorOf(edges, q, asset).value)
  }

  lemma SomeUnreadableCons(w: World, edges: seq<Edge>, q: Request, assets: seq<nat>)
    requires assets != []
    ensures SomeUnreadable(w, edges, q, assets) <==>
      Unreadable(w, edges, q, assets[0]) || SomeUnreadable(w, edges, q, assets[1..])
  {
    if SomeUnreadable(w, edges, q, assets[1..]) {
      var i :| 0 <= i < |assets[1..]| && Unreadable(w, edges, q, assets[1..][i]);
      assert assets[i + 1] == assets[1..][i];
    }
    if SomeUnreadable(w, edges, q, assets) && !Unreadable(w, edges, q, assets[0]) {
      var i :| 0 <= i < |assets| && Unreadable(w, edges, q, assets[i]);
      assert assets[1..][i - 1] == assets[i];
    }
  }

  lemma FromAnchorMarks(w: World, h: Hop, q: Request, a: Anchor, depth: nat, at: Address, unreadable: bool)
    requires HopMarked(w, h, depth, at, unreadable) && FromAnchor(w, h, q, a, depth).Done?
    ensures
      HopMarked(w, FromAnchor(w, h, q, a, depth).hop, depth, at, unreadable || !Readable(w, q, a))
  {
    hide TryAll, Sort, Matching, StoppedEnd;
    var b := BranchOf(q, a);
    if Readable(w, q, a) && a.amount > 0 {
      var cs := Sort(Earlier(b.direction), Matching(w.transfers, b));
      TryAllMarks(w, h.(budget := a.amount), b, cs, depth, at, unreadable);
    } else if !Readable(w, q, a) {
      var u := FromAnchor(w, h, q, a, depth).hop;
      assert u.nodes[1..] == h.nodes[1..];
    }
  }

  lemma {:induction false} FromAnchorsMark(
      w: World, h: Hop, edges: seq<Edge>, q: Request, assets: seq<nat>, depth: nat, at: Address, unreadable: bool)
    requires HopMarked(w, h, depth, at, unreadable) && FromAnchors(w, h, edges, q, assets, depth).Done?
    ensures HopMarked(w, FromAnchors(w, h, edges, q, assets, depth).hop, depth,
                      at, unreadable || SomeUnreadable(w, edges, q, assets))
    decreases |assets|
  {
    hide FromAnchor, AnchorOf, HopMarked, SomeUnreadable, Readable;
    if assets == [] {
      NoneUnreadable(w, edges, q);
    } else {
      SomeUnreadableCons(w, edges, q, assets);
      var a := AnchorOf(edges, q, assets[0]);
      if a.None? {
        FromAnchorsMark(w, h, edges, q, assets[1..], depth, at, unreadable);
      } else {
        FromAnchorMarks(w, h, q, a.value, depth, at, unreadable);
        FromAnchorsMark(w, FromAnchor(w, h, q, a.value, depth).hop, edges, q, assets[1..], depth,
                        at, unreadable || !Readable(w, q, a.value));
      }
    }
  }

  lemma NoneUnreadable(w: World, edges: seq<Edge>, q: Request)
    ensures !SomeUnreadable(w, edges, q, [])
  {
  }

  /** A finished extension is marked partial exactly when an anchor asks for too many transfers or an edge leads to
      an address that was given up; its new nodes are closed exactly where the address is terminal, and the node
      itself, unless it became terminal, exactly for such an anchor or for want of edges. */
  lemma ExtensionMarks(w: World, nodes: seq<Node>, edges: seq<Edge>, q: Request, assets: seq<nat>)
    requires ExtendFrom(w, nodes, edges, q, assets).Done?
    ensures
      var h := ExtendFrom(w, nodes, edges, q, assets).hop;
      && FindNode(nodes, q.address).Some? && h.nodes != []
      && Marked(w, h.nodes[1..], FindNode(nodes, q.address).value.depth + 1)
      && (h.partly <==> SomeUnreadable(w, edges, q, assets) || StoppedEnd(w, h.edges))
      && (!w.terminal(q.address) ==>
            h.nodes[0].stop == if SomeUnreadable(w, edges, q, assets) then HighFrequency
                               else if h.edges == [] then NoMatchingTransfers else Open)
  {
    hide FromAnchors, SomeUnreadable;
    FoundNode(nodes, q.address);
    var node := FindNode(nodes, q.address).value;
    var start := Hop([node], [], [], false, 0);
    assert HopMarked(w, start, node.depth, q.address, false);
    FromAnchorsMark(w, start, edges, q, assets, node.depth, q.address, false);
    var h := FromAnchors(w, start, edges, q, assets, node.depth).hop;
    assert Settled(h).nodes[1..] == h.nodes[1..];
  }
}
