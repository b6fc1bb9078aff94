/** Traced money never grows along a trace (internal/tracer/tracer.go, the budget of expand). */
module TraceFlow {
  import opened Fifo
  import opened Sorting
  import opened Wrappers
  import opened Trace
  import opened TraceSound
  import opened TraceSteps
  import opened TraceRun

  /** An asset traced in a direction. */
  datatype Stream = Stream(direction: Direction, asset: nat)

  /** What the edges of one depth carry; without `all`, only transfers, no conversions. */
  function Flow(edges: seq<Edge>, depth: nat, m: Stream, all: bool): nat {
    if edges == [] then 0
    else
      var e := edges[|edges| - 1];
      Flow(edges[..|edges| - 1], depth, m, all)
      + if e.depth == depth && e.direction == m.direction && e.asset == m.asset && (all || !e.converted)
        then e.amount else 0
  }

  function Carried(b: Branch, m: Stream): nat {
    if b.direction == m.direction && b.asset == Only(m.asset) && b.amount.Some? then b.amount.value else 0
  }

  /** What enters the branches of a frontier. */
  function Entering(bs: seq<Branch>, m: Stream): nat {
    if bs == [] then 0 else Entering(bs[..|bs| - 1], m) + Carried(bs[|bs| - 1], m)
  }

  lemma FlowSnoc(edges: seq<Edge>, e: Edge, depth: nat, m: Stream, all: bool)
    ensures Flow(edges + [e], depth, m, all) == Flow(edges, depth, m, all) + Flow([e], depth, m, all)
  {
    assert (edges + [e])[..|edges|] == edges;
    assert [e][..0] == [];
  }

  lemma EnteringSnoc(bs: seq<Branch>, b: Branch, m: Stream)
    ensures Entering(bs + [b], m) == Entering(bs, m) + Carried(b, m)
  {
    assert (bs + [b])[..|bs|] == bs;
  }

  lemma {:induction false} EnteringSplit(bs: seq<Branch>, m: Stream)
    requires bs != []
    ensures Entering(bs, m) == Carried(bs[0], m) + Entering(bs[1..], m)
  {
    if |bs| > 1 {
      var front := bs[..|bs| - 1];
      EnteringSplit(front, m);
      assert front[1..] == bs[1..][..|bs| - 2];
    } else {
      assert bs[..0] == [] && bs[1..] == [];
      assert Entering(bs[..0], m) == 0;
    }
  }

  lemma {:induction false} EnteringInsert(less: (Branch, Branch) -> bool, b: Branch, bs: seq<Branch>, m: Stream)
    ensures Entering(Insert(less, b, bs), m) == Entering(bs, m) + Carried(b, m)
  {
    if bs == [] || !less(b, bs[|bs| - 1]) {
      EnteringSnoc(bs, b, m);
    } else {
      EnteringInsert(less, b, bs[..|bs| - 1], m);
      EnteringSnoc(Insert(less, b, bs[..|bs| - 1]), bs[|bs| - 1], m);
    }
  }

  lemma {:induction false} EnteringSort(less: (Branch, Branch) -> bool, bs: seq<Branch>, m: Stream)
    ensures Entering(Sort(less, bs), m) == Entering(bs, m)
  {
    if bs != [] {
      EnteringSort(less, bs[..|bs| - 1], m);
      EnteringInsert(less, bs[|bs| - 1], Sort(less, bs[..|bs| - 1]), m);
    }
  }

  // ---------- one candidate ----------

  /** What is left of the amount that entered the branch being expanded. */
  function Left(t: Trace, b: Branch, m: Stream): nat {
    Carried(b.(amount := t.budget), m)
  }

  /** A step at this depth: other depths keep their flow, queued branches carry no more than the
      edges that lead to them, and new transfers are paid from `before`. */
  ghost predicate Pays(t: Trace, u: Trace, depth: nat, m: Stream, before: nat, after: nat) {
    && (forall k {:trigger Flow(u.edges, k, m, true)} ::
        k != depth + 1 ==> Flow(u.edges, k, m, true) == Flow(t.edges, k, m, true))
    && (forall k {:trigger Flow(u.edges, k, m, false)} ::
        k != depth + 1 ==> Flow(u.edges, k, m, false) == Flow(t.edges, k, m, false))
    && Entering(u.next, m) + Flow(t.edges, depth + 1, m, true) <= Entering(t.next, m) +
        Flow(u.edges, depth + 1, m, true)
    && (depth > 0 ==> Flow(u.edges, depth + 1, m, false) + after <= Flow(t.edges, depth + 1, m, false) + before)
  }

  /** A conversion is not paid from the entering amount; a transfer is, in the branch's own asset. */
  ghost predicate InAsset(b: Branch, c: Transfer, depth: nat, converted: bool) {
    converted || depth == 0 || b.asset == Only(c.asset)
  }

  /** What a visit leaves: money spent, and perhaps one edge and one branch with what was spent. */
  lemma VisitShape(w: World, t: Trace, b: Branch, c: Transfer, depth: nat, converted: bool)
    ensures
      var step := Visit(w, t, b, c, depth, converted);
      var amount := Cut(t.budget, c.amount);
      step.Running? ==>
        || (step.trace.edges == t.edges && step.trace.next == t.next &&
            step.trace.budget in {t.budget, Spend(t.budget, amount)})
        || (step.trace.edges == t.edges + [EdgeOf(b, c, amount, depth, converted)]
            && step.trace.next in [t.next, t.next + [Child(w, b, c, amount)]]
            && step.trace.budget == Spend(t.budget, amount))
  {
    hide SetTerminal;
  }

  lemma RecordPays(w: World, t: Trace, u: Trace, b: Branch, c: Transfer, depth: nat, converted: bool, m: Stream)
    requires InAsset(b, c, depth, converted) && (t.budget.None? ==> converted || depth == 0)
    requires
      var amount := Cut(t.budget, c.amount);
      && u.edges == t.edges + [EdgeOf(b, c, amount, depth, converted)]
      && u.next in [t.next, t.next + [Child(w, b, c, amount)]]
      && u.budget == Spend(t.budget, amount)
    ensures Pays(t, u, depth, m, Left(t, b, m), Left(u, b, m))
  {
    hide Entering, Flow;
    var amount := Cut(t.budget, c.amount);
    var e := EdgeOf(b, c, amount, depth, converted);
    forall k: nat, all: bool
      ensures Flow(u.edges, k, m, all) == Flow(t.edges, k, m, all) + Flow([e], k, m, all)
    {
      FlowSnoc(t.edges, e, k, m, all);
    }
    FlowOfOne(e, m);
    EnteringSnoc(t.next, Child(w, b, c, amount), m);
  }

  lemma VisitPays(w: World, t: Trace, b: Branch, c: Transfer, depth: nat, converted: bool, m: Stream)
    requires InAsset(b, c, depth, converted) && (t.budget.None? ==> converted || depth == 0)
    ensures
      var step := Visit(w, t, b, c, depth, converted);
      step.Running? ==>
        && Pays(t, step.trace, depth, m, Left(t, b, m), Left(step.trace, b, m))
        && (step.trace.budget.None? <==> t.budget.None?)
  {
    hide Visit, Pays;
    VisitShape(w, t, b, c, depth, converted);
    var step := Visit(w, t, b, c, depth, converted);
    if step.Running? {
      if step.trace.edges == t.edges {
        PaysNothing(t, step.trace, depth, m, Left(t, b, m), Left(step.trace, b, m));
      } else {
        RecordPays(w, t, step.trace, b, c, depth, converted, m);
      }
    }
  }

  lemma FlowOfOne(e: Edge, m: Stream)
    ensures forall k {:trigger Flow([e], k, m, true)} :: k != e.depth ==> Flow([e], k, m, true) == 0
    ensures forall k {:trigger Flow([e], k, m, false)} :: k != e.depth ==> Flow([e], k, m, false) == 0
    ensures forall all {:trigger Flow([e], e.depth, m, all)} ::
      Flow([e], e.depth, m, all) ==
          (if e.direction == m.direction && e.asset == m.asset && (all || !e.converted) then e.amount else 0)
  {
    assert [e][..0] == [];
  }

  lemma PaysTransitive(t: Trace, u: Trace, v: Trace, depth: nat, m: Stream, x: nat, y: nat, z: nat)
    requires Pays(t, u, depth, m, x, y) && Pays(u, v, depth, m, y, z)
    ensures Pays(t, v, depth, m, x, z)
  {
    hide Entering, Flow;
    forall k: nat | k != depth + 1
      ensures Flow(v.edges, k, m, true) == Flow(t.edges, k, m, true) &&
        Flow(v.edges, k, m, false) == Flow(t.edges, k, m, false)
    {
      assert Flow(u.edges, k, m, true) == Flow(t.edges, k, m, true);
      assert Flow(u.edges, k, m, false) == Flow(t.edges, k, m, false);
    }
  }

  lemma {:induction false} VisitAllPays(
      w: World, t: Trace, b: Branch, cs: seq<Transfer>, depth: nat, converted: bool, m: Stream)
    requires forall c :: c in cs ==> InAsset(b, c, depth, converted)
    requires t.budget.None? ==> converted || depth == 0
    ensures
      var step := VisitAll(w, t, b, cs, depth, converted);
      step.Running? ==> Pays(t, step.trace, depth, m, Left(t, b, m), Left(step.trace, b, m))
    decreases |cs|
  {
    hide Visit, Pays, Left;
    if cs == [] {
      PaysNothing(t, t, depth, m, Left(t, b, m), Left(t, b, m));
    } else {
      VisitPays(w, t, b, cs[0], depth, converted, m);
      var step := Visit(w, t, b, cs[0], depth, converted);
      if step.Running? {
        VisitAllPays(w, step.trace, b, cs[1..], depth, converted, m);
        var last := VisitAll(w, step.trace, b, cs[1..], depth, converted);
        if last.Running? {
          PaysTransitive(t, step.trace, last.trace, depth, m, Left(t, b, m), Left(step.trace, b, m),
              Left(last.trace, b, m));
        }
      }
    }
  }

  // ---------- one branch and one level ----------

  lemma PaysNothing(t: Trace, u: Trace, depth: nat, m: Stream, before: nat, after: nat)
    requires u.edges == t.edges && u.next == t.next && after <= before
    ensures Pays(t, u, depth, m, before, after)
  {
  }

  lemma PaysLess(t: Trace, u: Trace, depth: nat, m: Stream, before: nat, after: nat, more: nat)
    requires Pays(t, u, depth, m, before, after) && before <= more
    ensures Pays(t, u, depth, m, more, 0)
  {
  }

  lemma PaysMore(t: Trace, u: Trace, depth: nat, m: Stream, before: nat, after: nat, extra: nat)
    requires Pays(t, u, depth, m, before, after)
    ensures Pays(t, u, depth, m, before + extra, after + extra)
  {
  }

  lemma MatchingInAsset(w: World, b: Branch, depth: nat, c: Transfer)
    requires c in Sort(Earlier(b.direction), Matching(w.transfers, b)) && (depth > 0 ==> b.asset.Only?)
    ensures InAsset(b, c, depth, false)
  {
    Candidates(w.transfers, b, Earlier(b.direction), c);
  }

  lemma ProcessPays(w: World, seed: Address, t: Trace, b: Branch, depth: nat, m: Stream)
    requires Standing(t, seed, b, depth)
    ensures
      var step := Process(w, t, b, depth);
      step.Running? ==> Pays(t, step.trace, depth, m, Carried(b, m), 0)
  {
    hide VisitAll, Pays, Matching, AlreadyTraced, IsTerminal;
    var step := Process(w, t, b, depth);
    if step.Running? {
      if step.trace.edges == t.edges && step.trace.next == t.next {
        PaysNothing(t, step.trace, depth, m, Carried(b, m), 0);
      } else if b.entering.Some? && b.contract {
        var x := w.convert(b.address, b.direction, b.entering.value);
        var seen := t.(processed := t.processed + {b.address}, budget := None);
        VisitAllPays(w, seen, b, [x.value.transfer], depth, true, m);
        PaysFrom(t, seen, step.trace, depth, m, Left(seen, b, m), Left(step.trace, b, m));
        PaysLess(t, step.trace, depth, m, Left(seen, b, m), Left(step.trace, b, m), Carried(b, m));
      } else {
        var cs := Sort(Earlier(b.direction), Matching(w.transfers, b));
        var seen := t.(processed := t.processed + {b.address}, budget := b.amount);
        forall c | c in cs
          ensures InAsset(b, c, depth, false)
        {
          MatchingInAsset(w, b, depth, c);
        }
        VisitAllPays(w, seen, b, cs, depth, false, m);
        PaysFrom(t, seen, step.trace, depth, m, Left(seen, b, m), Left(step.trace, b, m));
        PaysLess(t, step.trace, depth, m, Left(seen, b, m), Left(step.trace, b, m), Carried(b, m));
      }
    }
  }

  lemma PaysFrom(t: Trace, seen: Trace, u: Trace, depth: nat, m: Stream, before: nat, after: nat)
    requires seen.edges == t.edges && seen.next == t.next && Pays(seen, u, depth, m, before, after)
    ensures Pays(t, u, depth, m, before, after)
  {
  }

  lemma {:induction false} ProcessAllPays(
      w: World, seed: Address, ds: seq<Direction>, t: Trace, bs: seq<Branch>, depth: nat, m: Stream)
    requires Consistent(w) && Fine(w, seed, ds, t, depth) && AllHang(t.edges, t.visitedNodes, seed, bs, depth)
    requires Loose(t, t.processed + Addresses(bs))
    ensures
      var step := ProcessAll(w, t, bs, depth);
      step.Running? ==> Pays(t, step.trace, depth, m, Entering(bs, m), 0)
    decreases |bs|
  {
    hide Process, Fine, Loose, Hangs, Pays;
    if bs == [] {
      PaysNothing(t, t, depth, m, 0, 0);
    } else {
      var rest := Addresses(bs[1..]);
      assert t.processed + Addresses(bs) == t.processed + rest + {bs[0].address} by {
        assert forall i {:trigger bs[i]} :: 1 <= i < |bs| ==> bs[i] == bs[1..][i - 1];
      }
      ProcessKeeps(w, seed, ds, t, bs[0], depth, rest);
      ProcessPays(w, seed, t, bs[0], depth, m);
      EnteringSplit(bs, m);
      var step := Process(w, t, bs[0], depth);
      if step.Running? {
        AllHangGrows(t, step.trace, seed, bs[1..], depth);
        ProcessAllPays(w, seed, ds, step.trace, bs[1..], depth, m);
        var last := ProcessAll(w, step.trace, bs[1..], depth);
        if last.Running? {
          var later := Entering(bs[1..], m);
          PaysMore(t, step.trace, depth, m, Carried(bs[0], m), 0, later);
          PaysTransitive(t, step.trace, last.trace, depth, m, Entering(bs, m), later, 0);
        }
      }
    }
  }

  // ---------- the whole trace ----------

  /** Between levels: transfers at each depth carry no more than the edges one depth before, the
      frontier no more than the edges that lead to it, and nothing is deeper. */
  ghost predicate Tapers(t: Trace, depth: nat, m: Stream) {
    && (forall k {:trigger Flow(t.edges, k + 1, m, false)} ::
        1 <= k < depth ==> Flow(t.edges, k + 1, m, false) <= Flow(t.edges, k, m, true))
    && (depth > 0 ==> Entering(t.next, m) <= Flow(t.edges, depth, m, true))
    && (forall k {:trigger Flow(t.edges, k, m, true)} :: k > depth ==> Flow(t.edges, k, m, true) == 0)
    && (forall k {:trigger Flow(t.edges, k, m, false)} :: k > depth ==> Flow(t.edges, k, m, false) == 0)
  }

  lemma PaysTapers(t: Trace, u: Trace, depth: nat, m: Stream)
    requires Tapers(t, depth, m) && Pays(OpenLevel(t), u, depth, m, Entering(t.next, m), 0)
    ensures Tapers(u, depth + 1, m)
  {
    hide Flow;
    assert Flow(t.edges, depth + 1, m, true) == 0 && Flow(t.edges, depth + 1, m, false) == 0;
    assert Entering([], m) == 0;
    forall k {:trigger Flow(u.edges, k + 1, m, false)} | 1 <= k < depth + 1
      ensures Flow(u.edges, k + 1, m, false) <= Flow(u.edges, k, m, true)
    {
      assert Flow(u.edges, k, m, true) == Flow(t.edges, k, m, true);
      if k < depth {
        assert Flow(u.edges, k + 1, m, false) == Flow(t.edges, k + 1, m, false);
      }
    }
  }

  lemma TapersSame(t: Trace, u: Trace, depth: nat, m: Stream)
    requires Tapers(t, depth, m) && u.edges == t.edges && u.next == t.next
    ensures Tapers(u, depth, m)
  {
  }

  lemma LevelTapers(w: World, seed: Address, ds: seq<Direction>, t: Trace, depth: nat, m: Stream)
    requires Consistent(w) && AtLevel(w, seed, ds, t, depth) && Tapers(t, depth, m)
    ensures
      var r := Level(w, t, depth);
      r.Running? ==> Tapers(r.trace, depth + 1, m)
  {
    hide ProcessAll, Loose, Hangs, Universe, AllLinked, NodesSound, KeysBacked, EndsKnown, Flow, Entering, Tapers, Pays;
    var o := OpenLevel(t);
    var bs := Sort(ByKey(w), t.next);
    SortedFrontier(w, t, seed, depth);
    OpenLevelLoose(w, seed, t, depth);
    assert o.processed + Addresses(bs) == Addresses(bs);
    ProcessAllPays(w, seed, ds, o, bs, depth, m);
    EnteringSort(ByKey(w), t.next, m);
    var r := ProcessAll(w, o, bs, depth);
    if r.Running? {
      PaysTapers(t, r.trace, depth, m);
      TapersSame(r.trace, Level(w, t, depth).trace, depth + 1, m);
    }
  }

  lemma TapersAt(t: Trace, depth: nat, m: Stream, k: nat)
    requires Tapers(t, depth, m) && k > 0
    ensures Flow(t.edges, k + 1, m, false) <= Flow(t.edges, k, m, true)
  {
    hide Flow, Entering;
    if k >= depth {
      assert Flow(t.edges, k + 1, m, false) == 0;
    }
  }

  lemma {:induction false} LevelsTaper(
      w: World, seed: Address, ds: seq<Direction>, t: Trace, depth: nat, m: Stream, k: nat)
    requires Consistent(w) && AtLevel(w, seed, ds, t, depth) && Tapers(t, depth, m) && k > 0
    ensures
      var o := Levels(w, seed, ds, t, depth);
      o.Running? ==> Flow(o.trace.edges, k + 1, m, false) <= Flow(o.trace.edges, k, m, true)
    decreases |Universe(w, seed, ds) - t.visitedStates|, |t.next|
  {
    hide Level, Sound, AllHang, Loose, Flow, Entering, Tapers;
    if t.next == [] || |t.visitedNodes| >= MAX_NODES {
      TapersAt(t, depth, m, k);
    } else {
      var r := Level(w, t, depth);
      if r.Running? {
        LevelKeeps(w, seed, ds, t, depth);
        StatesKnown(w, seed, ds, r.trace, depth + 1);
        FewerStates(Universe(w, seed, ds), t.visitedStates, r.trace.visitedStates);
        LevelTapers(w, seed, ds, t, depth, m);
        LevelsTaper(w, seed, ds, r.trace, depth + 1, m, k);
      }
    }
  }

  /** Per direction and asset, the transfers recorded one step further carry no more than the edges
      recorded before them; only conversions bring new money into an asset. */
  lemma FlowNeverGrows(w: World, seed: Address, ds: seq<Direction>, m: Stream, k: nat)
    requires Consistent(w) && ds != [] && k > 0
    ensures
      var o := TraceAll(w, seed, ds);
      o.Running? ==> Flow(o.trace.edges, k + 1, m, false) <= Flow(o.trace.edges, k, m, true)
  {
    StartAtLevel(w, seed, ds);
    assert Tapers(Start(w, seed, ds), 0, m);
    LevelsTaper(w, seed, ds, Start(w, seed, ds), 0, m, k);
  }
}
