/** What a trace does not miss (internal/tracer/tracer.go, expand). */
module TraceComplete {
  import opened Fifo
  import opened Sorting
  import opened Wrappers
  import opened Trace
  import opened TraceSound
  import opened TraceSteps
  import opened TraceRun

  /** A transfer of a kind that is traced. */
  predicate Eligible(w: World, d: Direction, c: Transfer) {
    w.supported(c.asset) && w.above(c.asset, c.amount) && Far(d, c) != Nobody && c.amount > 0
  }

  /** Its branch state was met, it went to the zero address, or the node limit was reached. */
  ghost predicate Met(t: Trace, d: Direction, c: Transfer) {
    || ChildKey(d, c) in t.visitedStates
    || (exists e :: e in t.edges && EdgeKey(e) == ChildKey(d, c))
    || |t.visitedNodes| >= MAX_NODES
  }

  /** When its turn came, less money was left than it moves, and that was nothing or too little to trace. */
  ghost predicate OutOfMoney(w: World, t: Trace, c: Transfer) {
    exists left: nat :: TooLittle(w, t, c, left)
  }

  ghost predicate TooLittle(w: World, t: Trace, c: Transfer, left: nat) {
    t.budget.Some? && t.budget.value <= left < c.amount && (left == 0 || !w.above(c.asset, left))
  }

  /** Steps in the expansion of one branch: what was met stays met, and money is only spent. */
  ghost predicate Later(t: Trace, u: Trace) {
    && t.edges <= u.edges && t.visitedStates <= u.visitedStates && |t.visitedNodes| <= |u.visitedNodes|
    && (if t.budget.Some? then u.budget.Some? && u.budget.value <= t.budget.value else u.budget.None?)
  }

  lemma LaterKeeps(w: World, t: Trace, u: Trace, d: Direction, c: Transfer)
    requires Later(t, u)
    ensures Met(t, d, c) ==> Met(u, d, c)
    ensures OutOfMoney(w, t, c) ==> OutOfMoney(w, u, c)
  {
    if OutOfMoney(w, t, c) {
      var left :| TooLittle(w, t, c, left);
      assert TooLittle(w, u, c, left);
    }
  }

  lemma VisitLater(w: World, t: Trace, b: Branch, c: Transfer, depth: nat, converted: bool)
    ensures
      var step := Visit(w, t, b, c, depth, converted);
      step.Running? ==> Later(t, step.trace)
  {
    hide SetTerminal, Pair, Child, EdgeOf;
  }

  lemma VisitMeets(w: World, t: Trace, b: Branch, c: Transfer, depth: nat, converted: bool)
    requires Eligible(w, b.direction, c)
    ensures
      var step := Visit(w, t, b, c, depth, converted);
      step.Running? ==> Met(step.trace, b.direction, c) || OutOfMoney(w, step.trace, c)
  {
    hide SetTerminal;
    var step := Visit(w, t, b, c, depth, converted);
    if step.Running? {
      var amount := Cut(t.budget, c.amount);
      if !Considered(w, t, b, c) {
        if ChildKey(b.direction, c) !in t.visitedStates {
          assert TooLittle(w, step.trace, c, 0);
        }
      } else if !w.above(c.asset, amount) {
        assert TooLittle(w, step.trace, c, amount);
      } else if step.trace.edges != t.edges {
        var e := EdgeOf(b, c, amount, depth, converted);
        assert step.trace.edges == t.edges + [e];
        assert e in step.trace.edges && EdgeKey(e) == ChildKey(b.direction, c);
      }
    }
  }

  /** Expanding a branch passes over an eligible transfer only for want of money. */
  lemma {:induction false} ExpandMeets(
      w: World, t: Trace, b: Branch, cs: seq<Transfer>, depth: nat, converted: bool, i: nat)
    requires i < |cs| && Eligible(w, b.direction, cs[i])
    ensures
      var o := VisitAll(w, t, b, cs, depth, converted);
      o.Running? ==> Met(o.trace, b.direction, cs[i]) || OutOfMoney(w, o.trace, cs[i])
    decreases |cs|
  {
    hide Visit, Met, OutOfMoney, Later, Eligible;
    var step := Visit(w, t, b, cs[0], depth, converted);
    if step.Running? {
      if i == 0 {
        VisitMeets(w, t, b, cs[0], depth, converted);
        AllLater(w, step.trace, b, cs[1..], depth, converted);
        var o := VisitAll(w, step.trace, b, cs[1..], depth, converted);
        if o.Running? {
          LaterKeeps(w, step.trace, o.trace, b.direction, cs[0]);
        }
      } else {
        ExpandMeets(w, step.trace, b, cs[1..], depth, converted, i - 1);
      }
    }
  }

  lemma {:induction false} AllLater(w: World, t: Trace, b: Branch, cs: seq<Transfer>, depth: nat, converted: bool)
    ensures
      var o := VisitAll(w, t, b, cs, depth, converted);
      o.Running? ==> Later(t, o.trace)
    decreases |cs|
  {
    hide Visit;
    if cs != [] {
      VisitLater(w, t, b, cs[0], depth, converted);
      var step := Visit(w, t, b, cs[0], depth, converted);
      if step.Running? {
        AllLater(w, step.trace, b, cs[1..], depth, converted);
      }
    }
  }

  // ---------- the seed ----------

  ghost predicate Wider(t: Trace, u: Trace) {
    t.edges <= u.edges && t.visitedStates <= u.visitedStates && |t.visitedNodes| <= |u.visitedNodes|
  }

  lemma ProcessWider(w: World, t: Trace, b: Branch, depth: nat)
    ensures
      var step := Process(w, t, b, depth);
      step.Running? ==> Wider(t, step.trace)
  {
    hide VisitAll, Matching, AlreadyTraced, IsTerminal, SetTerminal;
    var seen := t.(processed := t.processed + {b.address});
    if b.entering.Some? {
      var x := w.convert(b.address, b.direction, b.entering.value);
      if x.Some? {
        AllLater(w, seen.(budget := None), b, [x.value.transfer], depth, true);
      }
    }
    AllLater(w, seen.(budget := b.amount), b, Sort(Earlier(b.direction), Matching(w.transfers, b)), depth, false);
  }

  lemma {:induction false} ProcessAllWider(w: World, t: Trace, bs: seq<Branch>, depth: nat)
    ensures
      var step := ProcessAll(w, t, bs, depth);
      step.Running? ==> Wider(t, step.trace)
    decreases |bs|
  {
    hide Process;
    if bs != [] {
      ProcessWider(w, t, bs[0], depth);
      var step := Process(w, t, bs[0], depth);
      if step.Running? {
        ProcessAllWider(w, step.trace, bs[1..], depth);
      }
    }
  }

  /** The seed is the first node, and only the node limit closes it while its branches are expanded. */
  ghost predicate SeedOpen(t: Trace, seed: Address) {
    |t.nodes| > 0 && t.nodes[0].address == seed && (t.nodes[0].stop == Open || |t.visitedNodes| >= MAX_NODES)
  }

  lemma VisitSeedOpen(w: World, t: Trace, seed: Address, b: Branch, c: Transfer, depth: nat, converted: bool)
    requires SeedOpen(t, seed)
    ensures
      var step := Visit(w, t, b, c, depth, converted);
      step.Running? ==> SeedOpen(step.trace, seed)
  {
  }

  lemma {:induction false} AllSeedOpen(
      w: World, t: Trace, seed: Address, b: Branch, cs: seq<Transfer>, depth: nat, converted: bool)
    requires SeedOpen(t, seed)
    ensures
      var o := VisitAll(w, t, b, cs, depth, converted);
      o.Running? ==> SeedOpen(o.trace, seed)
    decreases |cs|
  {
    hide Visit, SeedOpen;
    if cs != [] {
      VisitSeedOpen(w, t, seed, b, cs[0], depth, converted);
      var step := Visit(w, t, b, cs[0], depth, converted);
      if step.Running? {
        AllSeedOpen(w, step.trace, seed, b, cs[1..], depth, converted);
      }
    }
  }

  // ---------- which transfer is recorded ----------

  /** The traced transfers of one branch state: they share far end, asset, block and transaction. */
  function Rivals(w: World, d: Direction, c: Transfer): Transfer -> bool {
    (x: Transfer) => Eligible(w, d, x) && ChildKey(d, x) == ChildKey(d, c)
  }

  function FirstRival(w: World, d: Direction, cs: seq<Transfer>, c: Transfer): Transfer {
    var rivals := Filter(Rivals(w, d, c), cs);
    if rivals == [] then c else rivals[0]
  }

  /** The one that is recorded: the first of its branch state.  Transfers to the zero address, which is
      no branch state to be met, are recorded one by one. */
  function Recorded(w: World, d: Direction, cs: seq<Transfer>, c: Transfer): Transfer {
    if Far(d, c) == Zero then c else FirstRival(w, d, cs, c)
  }

  lemma FirstRivalCons(w: World, d: Direction, cs: seq<Transfer>, c: Transfer)
    requires cs != []
    ensures
      FirstRival(w, d, cs, c) == if Rivals(w, d, c)(cs[0]) then cs[0] else FirstRival(w, d, cs[1..], c)
  {
    var keep := Rivals(w, d, c);
    assert cs == [cs[0]] + cs[1..];
    FilterConcat(keep, [cs[0]], cs[1..]);
    assert [cs[0]][..0] == [];
    assert Filter(keep, [cs[0]]) == if keep(cs[0]) then [cs[0]] else [];
  }

  /** Sorting by block leaves the first rival the first: they share their block. */
  lemma FirstRivalSorted(w: World, d: Direction, cs: seq<Transfer>, c: Transfer)
    ensures FirstRival(w, d, Sort(Earlier(d), cs), c) == FirstRival(w, d, cs, c)
  {
    SortStable(Earlier(d), cs, Rivals(w, d, c));
  }

  /** The recorded transfer is a stored one that the seed's branch asks for, with the same key. */
  lemma RecordedIsStored(w: World, d: Direction, cs: seq<Transfer>, c: Transfer)
    requires c in cs && Eligible(w, d, c)
    ensures Recorded(w, d, cs, c) in cs && Eligible(w, d, Recorded(w, d, cs, c))
    ensures ChildKey(d, Recorded(w, d, cs, c)) == ChildKey(d, c)
  {
    var rivals := Filter(Rivals(w, d, c), cs);
    FilterMembers(Rivals(w, d, c), cs, c);
    if rivals != [] {
      FilterMembers(Rivals(w, d, c), cs, rivals[0]);
    }
  }

  /** A candidate that is passed over, or has another branch state, or goes to the zero address, leaves
      a branch state as unmet as it was. */
  lemma KeyStaysNew(w: World, t: Trace, b: Branch, c: Transfer, depth: nat, key: StateKey)
    requires key !in t.visitedStates && t.budget.None?
    requires key.address == Zero || !Eligible(w, b.direction, c) || ChildKey(b.direction, c) != key
    ensures
      var step := Visit(w, t, b, c, depth, false);
      step.Running? ==> key !in step.trace.visitedStates && step.trace.budget.None?
  {
    hide SetTerminal, Pair, Child, EdgeOf;
  }

  /** An eligible candidate with a new branch state, and no budget, is recorded in full. */
  lemma VisitRecords(w: World, t: Trace, b: Branch, c: Transfer, depth: nat)
    requires Eligible(w, b.direction, c) && ChildKey(b.direction, c) !in t.visitedStates && t.budget.None?
    ensures
      var step := Visit(w, t, b, c, depth, false);
      step.Running? ==>
        EdgeOf(b, c, c.amount, depth, false) in step.trace.edges || |step.trace.visitedNodes| >= MAX_NODES
  {
    hide SetTerminal, Pair, Child;
    var step := Visit(w, t, b, c, depth, false);
    if step.Running? && step.trace.edges != t.edges {
      assert step.trace.edges == t.edges + [EdgeOf(b, c, c.amount, depth, false)];
    }
  }

  /** A trace has the edge, or reached the node limit. */
  ghost predicate Has(t: Trace, e: Edge) {
    e in t.edges || |t.visitedNodes| >= MAX_NODES
  }

  lemma {:induction false} AllRecord(w: World, t: Trace, b: Branch, cs: seq<Transfer>, depth: nat, c: Transfer)
    requires c in cs && Eligible(w, b.direction, c) && ChildKey(b.direction, c) !in t.visitedStates && t.budget.None?
    ensures
      var o := VisitAll(w, t, b, cs, depth, false);
      var r := Recorded(w, b.direction, cs, c);
      o.Running? ==> Has(o.trace, EdgeOf(b, r, r.amount, depth, false))
    decreases |cs|
  {
    hide Visit, Eligible, FirstRival, Later;
    var d := b.direction;
    FirstRivalCons(w, d, cs, c);
    AllLater(w, t, b, cs, depth, false);
    var step := Visit(w, t, b, cs[0], depth, false);
    if step.Running? {
      var here := if Far(d, c) == Zero then cs[0] == c else Rivals(w, d, c)(cs[0]);
      if here {
        VisitRecords(w, t, b, cs[0], depth);
        AllLater(w, step.trace, b, cs[1..], depth, false);
        var o := VisitAll(w, step.trace, b, cs[1..], depth, false);
        if o.Running? {
          LaterHas(step.trace, o.trace, EdgeOf(b, cs[0], cs[0].amount, depth, false));
        }
      } else {
        KeyStaysNew(w, t, b, cs[0], depth, ChildKey(d, c));
        assert c in cs[1..];
        AllRecord(w, step.trace, b, cs[1..], depth, c);
      }
    }
  }

  lemma LaterHas(t: Trace, u: Trace, e: Edge)
    requires (Later(t, u) || Wider(t, u)) && Has(t, e)
    ensures Has(u, e)
  {
  }

  // ---------- the seed's branches ----------

  /** The edge of a transfer of the seed. */
  function SeedEdge(w: World, seed: Address, d: Direction, c: Transfer): Edge {
    var r := Recorded(w, d, Matching(w.transfers, Root(seed, d)), c);
    EdgeOf(Root(seed, d), r, r.amount, 0, false)
  }

  /** It leaves the seed at depth 1, has the key of the transfer, and carries in full a stored transfer
      that the seed's branch asks for. */
  lemma SeedEdgeShape(w: World, seed: Address, d: Direction, c: Transfer)
    requires c in w.transfers && Asked(Root(seed, d), c) && Eligible(w, d, c)
    ensures
      var e := SeedEdge(w, seed, d, c);
      && EdgeNear(e) == seed && e.depth == 1 && e.path == [seed, Far(d, c)] && EdgeKey(e) == ChildKey(d, c)
      && exists r :: r in w.transfers && Asked(Root(seed, d), r) && e == EdgeOf(Root(seed, d), r, r.amount, 0, false)
  {
    var b := Root(seed, d);
    var cs := Matching(w.transfers, b);
    FilterMembers(x => Asked(b, x), w.transfers, c);
    RecordedIsStored(w, d, cs, c);
    FilterMembers(x => Asked(b, x), w.transfers, Recorded(w, d, cs, c));
  }

  /** No branch state of that direction was met but the seed's. */
  ghost predicate Fresh(t: Trace, d: Direction) {
    forall k :: k in t.visitedStates && k.direction == d ==> k.asset.All?
  }

  lemma VisitFresh(w: World, t: Trace, b: Branch, c: Transfer, depth: nat, d: Direction)
    requires Fresh(t, d) && b.direction != d
    ensures
      var step := Visit(w, t, b, c, depth, false);
      step.Running? ==> Fresh(step.trace, d)
  {
    hide SetTerminal, Pair, Child, EdgeOf;
  }

  lemma {:induction false} AllFresh(w: World, t: Trace, b: Branch, cs: seq<Transfer>, depth: nat, d: Direction)
    requires Fresh(t, d) && b.direction != d
    ensures
      var o := VisitAll(w, t, b, cs, depth, false);
      o.Running? ==> Fresh(o.trace, d)
    decreases |cs|
  {
    hide Visit, Fresh;
    if cs != [] {
      VisitFresh(w, t, b, cs[0], depth, d);
      var step := Visit(w, t, b, cs[0], depth, false);
      if step.Running? {
        AllFresh(w, step.trace, b, cs[1..], depth, d);
      }
    }
  }

  lemma RootRecords(w: World, t: Trace, seed: Address, d: Direction, c: Transfer)
    requires SeedOpen(t, seed) && |Matching(w.transfers, Root(seed, d))| < RECORD_CAP && Fresh(t, d)
    requires c in w.transfers && Asked(Root(seed, d), c) && Eligible(w, d, c)
    ensures
      var step := Process(w, t, Root(seed, d), 0);
      step.Running? ==> Has(step.trace, SeedEdge(w, seed, d, c))
  {
    hide VisitAll, Matching, Eligible, Asked, FirstRival;
    var b := Root(seed, d);
    var step := Process(w, t, b, 0);
    if step.Running? && !IsTerminal(t.nodes, seed) {
      var u := t.(processed := t.processed + {seed}, budget := None);
      var cs := Sort(Earlier(d), Matching(w.transfers, b));
      assert step == VisitAll(w, u, b, cs, 0, false);
      Candidates(w.transfers, b, Earlier(d), c);
      FirstRivalSorted(w, d, Matching(w.transfers, b), c);
      AllRecord(w, u, b, cs, 0, c);
    }
  }

  /** The other direction's branch leaves the seed open and this direction's states unmet. */
  lemma RootPasses(w: World, t: Trace, seed: Address, x: Direction, d: Direction)
    requires SeedOpen(t, seed) && |Matching(w.transfers, Root(seed, x))| < RECORD_CAP && Fresh(t, d) && x != d
    ensures
      var step := Process(w, t, Root(seed, x), 0);
      step.Running? ==> SeedOpen(step.trace, seed) && Fresh(step.trace, d)
  {
    hide VisitAll, Matching, SeedOpen;
    var b := Root(seed, x);
    if !IsTerminal(t.nodes, seed) {
      var u := t.(processed := t.processed + {seed}, budget := None);
      var cs := Sort(Earlier(x), Matching(w.transfers, b));
      SameSeedOpen(t, u, seed);
      AllSeedOpen(w, u, seed, b, cs, 0, false);
      AllFresh(w, u, b, cs, 0, d);
    }
  }

  lemma SameSeedOpen(t: Trace, u: Trace, seed: Address)
    requires SeedOpen(t, seed) && u.nodes == t.nodes && u.visitedNodes == t.visitedNodes
    ensures SeedOpen(u, seed)
  {
  }

  ghost predicate RootsFit(w: World, seed: Address, bs: seq<Branch>) {
    forall i :: 0 <= i < |bs| ==> bs[i] == Root(seed, bs[i].direction) && |Matching(w.transfers, bs[i])| < RECORD_CAP
  }

  lemma {:induction false} RootsRecord(w: World, t: Trace, seed: Address, bs: seq<Branch>, d: Direction, c: Transfer)
    requires SeedOpen(t, seed) && RootsFit(w, seed, bs) && Root(seed, d) in bs && Fresh(t, d)
    requires c in w.transfers && Asked(Root(seed, d), c) && Eligible(w, d, c)
    ensures
      var o := ProcessAll(w, t, bs, 0);
      o.Running? ==> Has(o.trace, SeedEdge(w, seed, d, c))
    decreases |bs|
  {
    hide Process, Has, SeedOpen, Asked, Eligible, Wider, Fresh, SeedEdge;
    var step := Process(w, t, bs[0], 0);
    if step.Running? {
      if bs[0].direction == d {
        RootRecords(w, t, seed, d, c);
        ProcessAllWider(w, step.trace, bs[1..], 0);
        var o := ProcessAll(w, step.trace, bs[1..], 0);
        if o.Running? {
          LaterHas(step.trace, o.trace, SeedEdge(w, seed, d, c));
        }
      } else {
        RootPasses(w, t, seed, bs[0].direction, d);
        assert Root(seed, d) in bs[1..];
        RootsRecord(w, step.trace, seed, bs[1..], d, c);
      }
    }
  }

  /** Every eligible transfer of an open seed has its edge in the finished trace, unless the node limit
      was reached: an edge from the seed at depth 1 for the first stored transfer that shares far end,
      asset, block and transaction with it, in full amount. */
  lemma SeedTransfersTraced(w: World, seed: Address, ds: seq<Direction>, d: Direction, c: Transfer)
    requires Consistent(w) && d in ds && !w.terminal(seed)
    requires forall x :: x in ds ==> |Matching(w.transfers, Root(seed, x))| < RECORD_CAP
    requires c in w.transfers && Asked(Root(seed, d), c) && Eligible(w, d, c)
    ensures
      var o := TraceAll(w, seed, ds);
      o.Running? ==> Has(o.trace, SeedEdge(w, seed, d, c))
    ensures
      var e := SeedEdge(w, seed, d, c);
      EdgeNear(e) == seed && e.depth == 1 && e.path == [seed, Far(d, c)] && EdgeKey(e) == ChildKey(d, c)
  {
    SeedEdgeShape(w, seed, d, c);
    hide Level, Eligible, Asked, Matching, SeedEdge, Has, TraceAll, Consistent;
    var o := TraceAll(w, seed, ds);
    if o.Running? {
      FirstLevelRecords(w, seed, ds, d, c);
      FirstLevelStays(w, seed, ds);
      LaterHas(Level(w, Start(w, seed, ds), 0).trace, o.trace, SeedEdge(w, seed, d, c));
    }
  }

  /** What the first level recorded is in the finished trace. */
  lemma FirstLevelStays(w: World, seed: Address, ds: seq<Direction>)
    requires Consistent(w) && ds != []
    ensures
      var o, r := TraceAll(w, seed, ds), Level(w, Start(w, seed, ds), 0);
      o.Running? ==> r.Running? && Wider(r.trace, o.trace)
  {
    hide Level, AtLevel;
    var t := Start(w, seed, ds);
    StartAtLevel(w, seed, ds);
    var r := Level(w, t, 0);
    if TraceAll(w, seed, ds).Running? && r.Running? {
      LevelKeeps(w, seed, ds, t, 0);
      StatesKnown(w, seed, ds, r.trace, 1);
      LevelsWider(w, seed, ds, r.trace, 1);
    }
  }

  lemma FirstLevelRecords(w: World, seed: Address, ds: seq<Direction>, d: Direction, c: Transfer)
    requires d in ds && !w.terminal(seed)
    requires forall x :: x in ds ==> |Matching(w.transfers, Root(seed, x))| < RECORD_CAP
    requires c in w.transfers && Asked(Root(seed, d), c) && Eligible(w, d, c)
    ensures
      var r := Level(w, Start(w, seed, ds), 0);
      r.Running? ==> Has(r.trace, SeedEdge(w, seed, d, c))
  {
    hide ProcessAll, Asked, Eligible, Matching, SeedEdge;
    var t := Start(w, seed, ds);
    var bs := Sort(ByKey(w), t.next);
    SortKeepsMembers(ByKey(w), t.next);
    forall i | 0 <= i < |bs|
      ensures bs[i] == Root(seed, bs[i].direction) && bs[i].direction in ds
    {
      assert bs[i] in t.next;
    }
    assert Root(seed, d) in bs by {
      var j :| 0 <= j < |ds| && ds[j] == d;
      assert t.next[j] == Root(seed, d);
    }
    RootsRecord(w, OpenLevel(t), seed, bs, d, c);
  }

  lemma {:induction false} LevelsWider(w: World, seed: Address, ds: seq<Direction>, t: Trace, depth: nat)
    requires Consistent(w) && AtLevel(w, seed, ds, t, depth)
    ensures
      var o := Levels(w, seed, ds, t, depth);
      o.Running? ==> Wider(t, o.trace)
    decreases |Universe(w, seed, ds) - t.visitedStates|, |t.next|
  {
    hide ProcessAll, Sound, AllHang, Loose, SetAllTerminal, Universe, Settle;
    if t.next != [] && |t.visitedNodes| < MAX_NODES {
      var r := Level(w, t, depth);
      if r.Running? {
        LevelKeeps(w, seed, ds, t, depth);
        StatesKnown(w, seed, ds, r.trace, depth + 1);
        FewerStates(Universe(w, seed, ds), t.visitedStates, r.trace.visitedStates);
        ProcessAllWider(w, OpenLevel(t), Sort(ByKey(w), t.next), depth);
        LevelsWider(w, seed, ds, r.trace, depth + 1);
      }
    }
  }
}
