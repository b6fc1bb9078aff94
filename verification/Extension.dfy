/** Extending a trace by one hop from a node it already has
    (internal/tracer/extension.go, extensionAnchors, ExtendBranch). */
module Extension {
  import opened Fifo
  import opened Sorting
  import opened Wrappers
  import opened Trace
  import opened TraceSound

  datatype Request = Request(address: Address, direction: Direction)

  /** What enters the node in one asset: the amount in all, the block to look from or up to, the
      shortest path. */
  datatype Anchor = Anchor(asset: nat, amount: nat, from: nat, through: nat, path: seq<Address>)

  /** The first node is the one extended; `budget` is what is left of the current anchor. */
  datatype Hop = Hop(nodes: seq<Node>, edges: seq<Edge>, money: seq<MoneyState>, partly: bool, budget: nat)

  datatype Extended = Done(hop: Hop) | Unsynced(address: Address, direction: Direction, block: nat) | Refused

  // ---------- anchors ----------

  /** The edge leads to the node in the direction of the request. */
  predicate Enters(q: Request, e: Edge) {
    (if q.direction == Out then e.recipient else e.from) == q.address && e.path != [] &&
        e.path[|e.path| - 1] == q.address
  }

  function AddEdge(q: Request, a: Anchor, e: Edge): Anchor {
    Anchor(a.asset, a.amount + e.amount,
           if q.direction == Out && (a.from == 0 || e.block < a.from) then e.block else a.from,
           if q.direction == In && e.block > a.through then e.block else a.through,
           if |e.path| < |a.path| then e.path else a.path)
  }

  function AnchorOf(edges: seq<Edge>, q: Request, asset: nat): Option<Anchor> {
    if edges == [] then None
    else
      var before, e := AnchorOf(edges[..|edges| - 1], q, asset), edges[|edges| - 1];
      if !Enters(q, e) || e.asset != asset then before
      else Some(AddEdge(q, if before.Some? then before.value else Anchor(asset, 0, 0, 0, e.path), e))
  }

  function EnteringAssets(edges: seq<Edge>, q: Request): set<nat> {
    set e | e in edges && Enters(q, e) :: e.asset
  }

  /** The entering assets in the order of their keys. */
  ghost predicate InOrder(assets: seq<nat>, all: set<nat>) {
    && (forall a :: a in assets <==> a in all)
    && (forall i, j :: 0 <= i < j < |assets| ==> assets[i] < assets[j])
  }

  /** All that the edges bring to the node in an asset. */
  function Brought(edges: seq<Edge>, q: Request, asset: nat): nat {
    if edges == [] then 0
    else
      var e := edges[|edges| - 1];
      Brought(edges[..|edges| - 1], q, asset) + if Enters(q, e) && e.asset == asset then e.amount else 0
  }

  lemma {:induction false} AnchorSums(edges: seq<Edge>, q: Request, asset: nat)
    ensures AnchorOf(edges, q, asset).Some? <==> asset in EnteringAssets(edges, q)
    ensures AnchorOf(edges, q, asset).Some? ==>
      var a := AnchorOf(edges, q, asset).value;
      && a.asset == asset && a.amount == Brought(edges, q, asset)
      && exists e :: e in edges && Enters(q, e) && e.path == a.path
  {
    if edges != [] {
      var front, last := edges[..|edges| - 1], edges[|edges| - 1];
      AnchorSums(front, q, asset);
      assert edges == front + [last];
      NoneBrought(front, q, asset);
    }
  }

  /** The entering edges of one asset. */
  ghost predicate EntersIn(edges: seq<Edge>, q: Request, asset: nat, e: Edge) {
    e in edges && Enters(q, e) && e.asset == asset
  }

  /** The i-th edge enters, by a path that is shorter than those before it and no longer than those after it. */
  ghost predicate FirstShortest(edges: seq<Edge>, q: Request, asset: nat, i: nat)
    requires i < |edges|
  {
    && Enters(q, edges[i]) && edges[i].asset == asset
    && (forall j :: 0 <= j < i && Enters(q, edges[j]) && edges[j].asset == asset ==> |edges[i].path| < |edges[j].path|)
    && (forall j :: i < j < |edges| && Enters(q, edges[j]) && edges[j].asset == asset ==>
          |edges[i].path| <= |edges[j].path|)
  }

  /** The first edge that enters is the first shortest so far, and stays so until a shorter one comes. */
  lemma ShortestSnoc(front: seq<Edge>, last: Edge, q: Request, asset: nat, i: nat)
    requires i < |front| && FirstShortest(front, q, asset, i) && Enters(q, last) && last.asset == asset
    ensures
      FirstShortest(front + [last], q, asset, if |last.path| < |front[i].path| then |front| else i)
  {
    hide Enters;
  }

  lemma ShortestStays(front: seq<Edge>, last: Edge, q: Request, asset: nat, i: nat)
    requires i < |front| && FirstShortest(front, q, asset, i) && !(Enters(q, last) && last.asset == asset)
    ensures FirstShortest(front + [last], q, asset, i)
  {
    hide Enters;
  }

  /** The path is that of the first shortest entering edge; an outgoing extension looks from the earliest
      entering block on, an incoming one up to the latest.  (Block 0 counts as no bound.) */
  lemma {:induction false} AnchorExtremes(edges: seq<Edge>, q: Request, asset: nat)
    requires AnchorOf(edges, q, asset).Some?
    ensures
      var a := AnchorOf(edges, q, asset).value;
      && (exists i :: 0 <= i < |edges| && FirstShortest(edges, q, asset, i) && a.path == edges[i].path)
      && (q.direction == In ==> a.from == 0)
      && (q.direction == In ==> forall e :: EntersIn(edges, q, asset, e) ==> e.block <= a.through)
      && (q.direction == In ==> exists e :: EntersIn(edges, q, asset, e) && e.block == a.through)
      && (q.direction == Out ==> a.through == 0)
    ensures
      var a := AnchorOf(edges, q, asset).value;
      q.direction == Out && (forall e :: EntersIn(edges, q, asset, e) ==> e.block > 0) ==>
        && (forall e :: EntersIn(edges, q, asset, e) ==> a.from <= e.block)
        && (exists e :: EntersIn(edges, q, asset, e) && e.block == a.from)
  {
    var front, last := edges[..|edges| - 1], edges[|edges| - 1];
    assert edges == front + [last];
    var before := AnchorOf(front, q, asset);
    if before.Some? {
      AnchorExtremes(front, q, asset);
      var i :| 0 <= i < |front| && FirstShortest(front, q, asset, i) && before.value.path == front[i].path;
      if Enters(q, last) && last.asset == asset {
        ShortestSnoc(front, last, q, asset, i);
      } else {
        ShortestStays(front, last, q, asset, i);
      }
    } else {
      AnchorSums(front, q, asset);
      NoneEnters(front, q, asset);
      assert FirstShortest(edges, q, asset, |front|);
      assert forall e :: EntersIn(front, q, asset, e) ==> e.asset in EnteringAssets(front, q);
    }
    hide FirstShortest;
    assert forall e ::
        EntersIn(edges, q, asset, e) <==>
            EntersIn(front, q, asset, e) || (e == last && Enters(q, e) && e.asset == asset);
  }

  lemma NoneEnters(edges: seq<Edge>, q: Request, asset: nat)
    requires asset !in EnteringAssets(edges, q)
    ensures forall i :: 0 <= i < |edges| ==> !(Enters(q, edges[i]) && edges[i].asset == asset)
  {
    forall i | 0 <= i < |edges|
      ensures !(Enters(q, edges[i]) && edges[i].asset == asset)
    {
      assert Enters(q, edges[i]) ==> edges[i].asset in EnteringAssets(edges, q);
    }
  }

  lemma {:induction false} NoneBrought(edges: seq<Edge>, q: Request, asset: nat)
    ensures asset !in EnteringAssets(edges, q) ==> Brought(edges, q, asset) == 0
  {
    if edges != [] {
      NoneBrought(edges[..|edges| - 1], q, asset);
      assert edges[|edges| - 1] in edges;
    }
  }

  // ---------- one anchor ----------

  function AppendNode(nodes: seq<Node>, address: Address, depth: nat, stop: Stop): seq<Node> {
    if nodes == [] then [Node(address, depth, stop)]
    else if nodes[0].address == address then [if stop != Open then nodes[0].(stop := stop) else nodes[0]] + nodes[1..]
    else [nodes[0]] + AppendNode(nodes[1..], address, depth, stop)
  }

  /** The branch an anchor stands for. */
  function BranchOf(q: Request, a: Anchor): Branch {
    var anchor := if q.direction == Out then a.from else a.through;
    Branch(q.address, q.direction, Only(a.asset), anchor, None, Some(a.amount), false, a.path)
  }

  function Try(w: World, h: Hop, b: Branch, c: Transfer, depth: nat): Extended {
    var other := Far(b.direction, c);
    if !w.supported(c.asset) || !w.above(c.asset, c.amount) || other == Nobody || c.amount == 0 || h.budget == 0 then
      Done(h)
    else
      var amount := Cut(Some(h.budget), c.amount);
      var spent := h.(budget := h.budget - amount);
      if !w.above(c.asset, amount) then Done(spent)
      else if !w.ready(other, b.direction, c.block) then Unsynced(other, b.direction, c.block)
      else
        var e := EdgeOf(b, c, amount, depth, false);
        Done(spent.(edges := h.edges + [e], money := h.money + Pair(w, e), partly := h.partly || w.stopped(other),
                    nodes := AppendNode(h.nodes, other, depth + 1, if w.terminal(other) then Given else Open)))
  }

  function TryAll(w: World, h: Hop, b: Branch, cs: seq<Transfer>, depth: nat): Extended
    decreases |cs|
  {
    if cs == [] then Done(h)
    else
      var step := Try(w, h, b, cs[0], depth);
      if !step.Done? then step else TryAll(w, step.hop, b, cs[1..], depth)
  }

  function CloseFirst(h: Hop, stop: Stop): Hop {
    if h.nodes == [] then h else h.(nodes := h.nodes[0 := h.nodes[0].(stop := stop)])
  }

  function FromAnchor(w: World, h: Hop, q: Request, a: Anchor, depth: nat): Extended {
    var b := BranchOf(q, a);
    var found := Matching(w.transfers, b);
    if |found| >= RECORD_CAP then Done(CloseFirst(h.(partly := true), HighFrequency))
    else if a.amount == 0 then Done(h)
    else TryAll(w, h.(budget := a.amount), b, Sort(Earlier(b.direction), found), depth)
  }

  function FromAnchors(w: World, h: Hop, edges: seq<Edge>, q: Request, assets: seq<nat>, depth: nat): Extended
    decreases |assets|
  {
    if assets == [] then Done(h)
    else
      var a := AnchorOf(edges, q, assets[0]);
      if a.None? then FromAnchors(w, h, edges, q, assets[1..], depth)
      else
        var step := FromAnchor(w, h, q, a.value, depth);
        if !step.Done? then step else FromAnchors(w, step.hop, edges, q, assets[1..], depth)
  }

  /** A node that nothing leaves is closed. */
  function Settled(h: Hop): Hop {
    if h.edges == [] && h.nodes != [] && h.nodes[0].stop == Open then CloseFirst(h, NoMatchingTransfers) else h
  }

  function FindNode(nodes: seq<Node>, address: Address): Option<Node> {
    if nodes == [] then None
    else if nodes[0].address == address then Some(nodes[0])
    else FindNode(nodes[1..], address)
  }

  /** Only an open node that some edge enters can be extended. */
  function ExtendFrom(w: World, nodes: seq<Node>, edges: seq<Edge>, q: Request, assets: seq<nat>): Extended {
    var node := FindNode(nodes, q.address);
    if node.None? || node.value.stop != Open || assets == [] then Refused
    else
      var r := FromAnchors(w, Hop([node.value], [], [], false, 0), edges, q, assets, node.value.depth);
      if r.Done? then Done(Settled(r.hop)) else r
  }

  method ExtendBranch(w: World, nodes: seq<Node>, edges: seq<Edge>, q: Request, assets: seq<nat>)
    returns (r: Extended)
    requires InOrder(assets, EnteringAssets(edges, q))
    ensures r == ExtendFrom(w, nodes, edges, q, assets)
  {
    hide TryAll, Matching, Sort, AnchorOf, EnteringAssets;
    var node := FindNode(nodes, q.address);
    if node.None? || node.value.stop != Open || assets == [] {
      return Refused;
    }
    var depth := node.value.depth;
    var h := Hop([node.value], [], [], false, 0);
    ghost var goal := FromAnchors(w, h, edges, q, assets, depth);
    var i := 0;
    while i < |assets|
      invariant 0 <= i <= |assets|
      invariant FromAnchors(w, h, edges, q, assets[i..], depth) == goal
    {
      assert assets[i..][0] == assets[i] && assets[i..][1..] == assets[i + 1..];
      var anchor := AnchorOf(edges, q, assets[i]);
      i := i + 1;
      if anchor.None? {
        continue;
      }
      var b := BranchOf(q, anchor.value);
      var found := Matching(w.transfers, b);
      if |found| >= RECORD_CAP {
        h := CloseFirst(h.(partly := true), HighFrequency);
        continue;
      }
      if anchor.value.amount == 0 {
        continue;
      }
      var step := Expand(w, h.(budget := anchor.value.amount), b, Sort(Earlier(b.direction), found), depth);
      if !step.Done? {
        return step;
      }
      h := step.hop;
    }
    assert assets[i..] == [];
    r := Done(Settled(h));
  }

  method Expand(w: World, before: Hop, b: Branch, cs: seq<Transfer>, depth: nat) returns (r: Extended)
    ensures r == TryAll(w, before, b, cs, depth)
  {
    var h := before;
    for i := 0 to |cs|
      invariant TryAll(w, h, b, cs[i..], depth) == TryAll(w, before, b, cs, depth)
    {
      assert cs[i..][0] == cs[i] && cs[i..][1..] == cs[i + 1..];
      var step := Try(w, h, b, cs[i], depth);
      if !step.Done? {
        return step;
      }
      h := step.hop;
    }
    assert cs[|cs|..] == [];
    r := Done(h);
  }

  // ---------- what an extension keeps ----------

  /** What the new edges carry in an asset. */
  function Carries(edges: seq<Edge>, asset: nat): nat {
    if edges == [] then 0
    else
      var e := edges[|edges| - 1];
      Carries(edges[..|edges| - 1], asset) + if e.asset == asset then e.amount else 0
  }

  /** An edge leaves the node in the direction of the request, one step further on the path of an edge
      that enters it. */
  ghost predicate Leaves(root: seq<Edge>, q: Request, depth: nat, e: Edge) {
    && e.direction == q.direction && EdgeNear(e) == q.address && e.depth == depth + 1
    && exists f :: f in root && Enters(q, f) && e.path == f.path + [EdgeFar(e)]
  }

  ghost predicate HopSound(w: World, root: seq<Edge>, q: Request, depth: nat, h: Hop) {
    && (forall e :: e in h.edges ==> Leaves(root, q, depth, e) && HasNode(h.nodes, EdgeFar(e)))
    && (forall i, j :: 0 <= i < j < |h.nodes| ==> h.nodes[i].address != h.nodes[j].address)
    && h.nodes != [] && h.nodes[0].address == q.address
    && h.money == Pairs(w, h.edges)
  }

  lemma {:induction false} AppendNodeSound(nodes: seq<Node>, address: Address, depth: nat, stop: Stop, a: Address)
    ensures HasNode(AppendNode(nodes, address, depth, stop), a) <==> HasNode(nodes, a) || a == address
  {
    var r := AppendNode(nodes, address, depth, stop);
    if nodes == [] {
      assert r[0].address == address;
    } else if nodes[0].address == address {
      assert r[0].address == address;
      if HasNode(nodes, a) {
        var i :| 0 <= i < |nodes| && nodes[i].address == a;
        assert r[i].address == a;
      }
    } else {
      AppendNodeSound(nodes[1..], address, depth, stop, a);
      HasNodeCons(nodes, a);
      HasNodeCons(r, a);
    }
  }

  lemma HasNodeCons(nodes: seq<Node>, a: Address)
    requires nodes != []
    ensures HasNode(nodes, a) <==> nodes[0].address == a || HasNode(nodes[1..], a)
  {
    if HasNode(nodes[1..], a) {
      var i :| 0 <= i < |nodes[1..]| && nodes[1..][i].address == a;
      assert nodes[i + 1].address == a;
    }
    if HasNode(nodes, a) && nodes[0].address != a {
      var i :| 0 <= i < |nodes| && nodes[i].address == a;
      assert nodes[1..][i - 1].address == a;
    }
  }

  lemma {:induction false} AppendNodeDistinct(nodes: seq<Node>, address: Address, depth: nat, stop: Stop)
    requires forall i, j :: 0 <= i < j < |nodes| ==> nodes[i].address != nodes[j].address
    ensures
      var r := AppendNode(nodes, address, depth, stop);
      && (forall i, j :: 0 <= i < j < |r| ==> r[i].address != r[j].address)
      && r != [] && (nodes != [] ==> r[0].address == nodes[0].address)
  {
    if nodes != [] && nodes[0].address != address {
      var r := AppendNode(nodes[1..], address, depth, stop);
      AppendNodeDistinct(nodes[1..], address, depth, stop);
      forall i | 0 <= i < |r|
        ensures r[i].address != nodes[0].address
      {
        AppendNodeSound(nodes[1..], address, depth, stop, r[i].address);
        assert HasNode(r, r[i].address);
      }
    }
  }

  lemma CarriesSnoc(edges: seq<Edge>, e: Edge, asset: nat)
    ensures Carries(edges + [e], asset) == Carries(edges, asset) + if e.asset == asset then e.amount else 0
  {
    assert (edges + [e])[..|edges|] == edges;
  }

  /** A step keeps the hop sound, and pays for what it records in the branch's asset. */
  lemma TrySound(w: World, root: seq<Edge>, q: Request, a: Anchor, h: Hop, c: Transfer, depth: nat, asset: nat)
    requires HopSound(w, root, q, depth, h) && Asked(BranchOf(q, a), c)
    requires exists f :: f in root && Enters(q, f) && f.path == a.path
    ensures
      var step := Try(w, h, BranchOf(q, a), c, depth);
      step.Done? ==>
        && HopSound(w, root, q, depth, step.hop)
        && (a.asset == asset ==> Carries(step.hop.edges, asset) + step.hop.budget <= Carries(h.edges, asset) + h.budget)
        && (a.asset != asset ==> Carries(step.hop.edges, asset) == Carries(h.edges, asset))
  {
    hide Pair, AppendNode, Enters, HasNode, Carries;
    var b := BranchOf(q, a);
    var step := Try(w, h, b, c, depth);
    if step.Done? && |step.hop.edges| == |h.edges| {
      assert step.hop in {h, h.(budget := step.hop.budget)} && step.hop.budget <= h.budget;
    } else if step.Done? {
      var amount := Cut(Some(h.budget), c.amount);
      var e := EdgeOf(b, c, amount, depth, false);
      var other := Far(b.direction, c);
      assert step.hop.edges == h.edges + [e];
      var stop := if w.terminal(other) then Given else Open;
      AppendNodeDistinct(h.nodes, other, depth + 1, stop);
      forall x
        ensures HasNode(step.hop.nodes, x) <==> HasNode(h.nodes, x) || x == other
      {
        AppendNodeSound(h.nodes, other, depth + 1, stop, x);
      }
      PairsSnoc(w, h.edges, e);
      CarriesSnoc(h.edges, e, asset);
      assert Leaves(root, q, depth, e);
      forall f | f in step.hop.edges
        ensures Leaves(root, q, depth, f) && HasNode(step.hop.nodes, EdgeFar(f))
      {
        if f !in h.edges {
          assert f == e;
        }
      }
    }
  }

  lemma {:induction false} TryAllSound(
      w: World, root: seq<Edge>, q: Request, a: Anchor, h: Hop, cs: seq<Transfer>, depth: nat, asset: nat)
    requires HopSound(w, root, q, depth, h) && forall c :: c in cs ==> Asked(BranchOf(q, a), c)
    requires exists f :: f in root && Enters(q, f) && f.path == a.path
    ensures
      var o := TryAll(w, h, BranchOf(q, a), cs, depth);
      o.Done? ==>
        && HopSound(w, root, q, depth, o.hop)
        && (a.asset == asset ==> Carries(o.hop.edges, asset) + o.hop.budget <= Carries(h.edges, asset) + h.budget)
        && (a.asset != asset ==> Carries(o.hop.edges, asset) == Carries(h.edges, asset))
    decreases |cs|
  {
    hide Try, HopSound, Asked, Carries;
    if cs != [] {
      TrySound(w, root, q, a, h, cs[0], depth, asset);
      var step := Try(w, h, BranchOf(q, a), cs[0], depth);
      if step.Done? {
        TryAllSound(w, root, q, a, step.hop, cs[1..], depth, asset);
      }
    }
  }

  lemma MatchingAsked(w: World, b: Branch)
    ensures forall c :: c in Sort(Earlier(b.direction), Matching(w.transfers, b)) ==> Asked(b, c)
  {
    forall c | c in Sort(Earlier(b.direction), Matching(w.transfers, b))
      ensures Asked(b, c)
    {
      Candidates(w.transfers, b, Earlier(b.direction), c);
    }
  }

  lemma CloseFirstSound(w: World, root: seq<Edge>, q: Request, depth: nat, h: Hop, stop: Stop)
    requires HopSound(w, root, q, depth, h)
    ensures HopSound(w, root, q, depth, CloseFirst(h, stop))
  {
    var u := CloseFirst(h, stop);
    forall a | HasNode(h.nodes, a)
      ensures HasNode(u.nodes, a)
    {
      var i :| 0 <= i < |h.nodes| && h.nodes[i].address == a;
      assert u.nodes[i].address == a;
    }
  }

  lemma FromAnchorSound(w: World, root: seq<Edge>, q: Request, h: Hop, a: Anchor, depth: nat, asset: nat)
    requires HopSound(w, root, q, depth, h) && AnchorOf(root, q, a.asset) == Some(a)
    ensures
      var o := FromAnchor(w, h, q, a, depth);
      o.Done? ==>
        && HopSound(w, root, q, depth, o.hop)
        && (a.asset == asset ==> Carries(o.hop.edges, asset) <= Carries(h.edges, asset) + Brought(root, q, asset))
        && (a.asset != asset ==> Carries(o.hop.edges, asset) == Carries(h.edges, asset))
  {
    assert HopSound(w, root, q, depth, h.(budget := a.amount));
    hide HopSound, TryAll, Matching, Sort, Carries, AnchorOf, Brought;
    AnchorSums(root, q, a.asset);
    CloseHop(w, root, q, depth, h);
    MatchingAsked(w, BranchOf(q, a));
    TryAllSound(w, root, q, a, h.(budget := a.amount),
        Sort(Earlier(q.direction), Matching(w.transfers, BranchOf(q, a))), depth, asset);
  }

  lemma CloseHop(w: World, root: seq<Edge>, q: Request, depth: nat, h: Hop)
    requires HopSound(w, root, q, depth, h)
    ensures HopSound(w, root, q, depth, CloseFirst(h.(partly := true), HighFrequency))
  {
    CloseFirstSound(w, root, q, depth, h.(partly := true), HighFrequency);
  }

  lemma {:induction false} FromAnchorsSound(
      w: World, root: seq<Edge>, q: Request, h: Hop, assets: seq<nat>, depth: nat, asset: nat)
    requires HopSound(w, root, q, depth, h)
    requires forall i, j :: 0 <= i < j < |assets| ==> assets[i] < assets[j]
    ensures
      var o := FromAnchors(w, h, root, q, assets, depth);
      o.Done? ==>
        && HopSound(w, root, q, depth, o.hop)
        && Carries(o.hop.edges, asset) <= Carries(h.edges, asset) +
            (if asset in assets then Brought(root, q, asset) else 0)
    decreases |assets|
  {
    hide HopSound, FromAnchor, Carries, Brought, AnchorOf;
    if assets != [] {
      var rest := assets[1..];
      assert assets == [assets[0]] + rest;
      assert assets[0] !in rest;
      AnchorSums(root, q, assets[0]);
      var a := AnchorOf(root, q, assets[0]);
      if a.None? {
        FromAnchorsSound(w, root, q, h, rest, depth, asset);
      } else {
        FromAnchorSound(w, root, q, h, a.value, depth, asset);
        var step := FromAnchor(w, h, q, a.value, depth);
        if step.Done? {
          FromAnchorsSound(w, root, q, step.hop, rest, depth, asset);
        }
      }
    }
  }

  lemma {:induction false} FoundNode(nodes: seq<Node>, address: Address)
    ensures HasNode(nodes, address) <==> FindNode(nodes, address).Some?
    ensures FindNode(nodes, address).Some? ==>
      FindNode(nodes, address).value in nodes && FindNode(nodes, address).value.address == address
  {
    if nodes != [] && nodes[0].address != address {
      FoundNode(nodes[1..], address);
      HasNodeCons(nodes, address);
    } else if nodes != [] {
      assert nodes[0] in nodes;
    }
  }

  /** An extension is refused exactly when its node is missing, closed, or entered by no edge.
      Otherwise it carries in one asset no more than the edges that enter the node brought; its
      edges leave the node and continue the path of an entering edge, their ends are nodes, nodes
      are distinct, and a node that stays open has an edge. */
  lemma ExtensionSound(w: World, nodes: seq<Node>, edges: seq<Edge>, q: Request, assets: seq<nat>, asset: nat)
    requires InOrder(assets, EnteringAssets(edges, q))
    ensures
      var o := ExtendFrom(w, nodes, edges, q, assets);
      && (o.Refused? <==>
          FindNode(nodes, q.address).None? || FindNode(nodes, q.address).value.stop != Open
          || forall e :: e in edges ==> !Enters(q, e))
      && (o.Done? ==>
          && HopSound(w, edges, q, FindNode(nodes, q.address).value.depth, o.hop)
          && Carries(o.hop.edges, asset) <= Brought(edges, q, asset)
          && (o.hop.nodes[0].stop == Open ==> o.hop.edges != []))
  {
    assert Carries([], asset) == 0;
    NoneEnter(edges, q, assets);
    FoundNode(nodes, q.address);
    hide FromAnchors, Carries, Brought, Enters;
    var node := FindNode(nodes, q.address);
    if node.Some? && node.value.stop == Open && assets != [] {
      var depth, start := node.value.depth, Hop([node.value], [], [], false, 0);
      assert HopSound(w, edges, q, depth, start);
      FromAnchorsSound(w, edges, q, start, assets, depth, asset);
      NeverRefused(w, start, edges, q, assets, depth);
      var r := FromAnchors(w, start, edges, q, assets, depth);
      if r.Done? {
        CloseFirstSound(w, edges, q, depth, r.hop, NoMatchingTransfers);
      }
    }
  }

  lemma NoneEnter(edges: seq<Edge>, q: Request, assets: seq<nat>)
    requires InOrder(assets, EnteringAssets(edges, q))
    ensures assets == [] <==> forall e :: e in edges ==> !Enters(q, e)
  {
    if e :| e in edges && Enters(q, e) {
      assert e.asset in EnteringAssets(edges, q);
    } else if assets != [] {
      assert assets[0] in EnteringAssets(edges, q);
    }
  }

  lemma {:induction false} TryNeverRefused(w: World, h: Hop, b: Branch, cs: seq<Transfer>, depth: nat)
    ensures !TryAll(w, h, b, cs, depth).Refused?
    decreases |cs|
  {
    if cs != [] && Try(w, h, b, cs[0], depth).Done? {
      TryNeverRefused(w, Try(w, h, b, cs[0], depth).hop, b, cs[1..], depth);
    }
  }

  lemma {:induction false} NeverRefused(
      w: World, h: Hop, edges: seq<Edge>, q: Request, assets: seq<nat>, depth: nat)
    ensures !FromAnchors(w, h, edges, q, assets, depth).Refused?
    decreases |assets|
  {
    hide TryAll, Matching, Sort, AnchorOf;
    if assets != [] {
      var a := AnchorOf(edges, q, assets[0]);
      if a.None? {
        NeverRefused(w, h, edges, q, assets[1..], depth);
      } else {
        var b := BranchOf(q, a.value);
        TryNeverRefused(w, h.(budget := a.value.amount), b, Sort(Earlier(b.direction), Matching(w.transfers, b)),
            depth);
        var step := FromAnchor(w, h, q, a.value, depth);
        if step.Done? {
          NeverRefused(w, step.hop, edges, q, assets[1..], depth);
        }
      }
    }
  }
}
