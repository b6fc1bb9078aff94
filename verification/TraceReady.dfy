/** Where the edges of a trace come from, and that a trace ends only when nothing is missing
    (internal/tracer/tracer.go, expand). */
module TraceReady {
  import opened Fifo
  import opened Sorting
  import opened Wrappers
  import opened Trace
  import opened TraceSound
  import opened TraceSteps
  import opened TraceRun

  /** The edge is that transfer, in full or in part. */
  ghost predicate Carries(e: Edge, c: Transfer) {
    && e.from == c.from && e.recipient == c.recipient && e.asset == c.asset && e.block == c.block && e.tx == c.tx
    && 0 < e.amount <= c.amount
  }

  /** The transfer is what a conversion of the near end put out. */
  ghost predicate PutOut(w: World, e: Edge, x: Transfer) {
    && w.convert(EdgeNear(e), e.direction, x).Some?
    && x.block == e.block && Carries(e, w.convert(EdgeNear(e), e.direction, x).value.transfer)
  }

  /** An edge is a stored transfer or a conversion, of an asset and amount that are traced, and its far end
      needs no further synchronisation. */
  ghost predicate Sourced(w: World, e: Edge) {
    && (if e.converted then exists x :: PutOut(w, e, x) else exists c :: c in w.transfers && Carries(e, c))
    && w.supported(e.asset) && w.above(e.asset, e.amount)
    && EdgeFar(e) != Nobody
    && (EdgeFar(e) != Zero ==> w.ready(EdgeFar(e), e.direction, e.block))
  }

  ghost predicate AllSourced(w: World, t: Trace) {
    forall e :: e in t.edges ==> Sourced(w, e)
  }

  /** What an expansion may be given: stored transfers, or the one a conversion put out. */
  ghost predicate Source(w: World, b: Branch, c: Transfer, converted: bool) {
    && Near(b.direction, c) == b.address
    && if converted then
         exists x :: w.convert(b.address, b.direction, x).Some? && x.block == c.block
                     && w.convert(b.address, b.direction, x).value.transfer == c
       else c in w.transfers
  }

  lemma EdgeSourced(w: World, t: Trace, b: Branch, c: Transfer, depth: nat, converted: bool)
    requires Source(w, b, c, converted) && Considered(w, t, b, c) && w.above(c.asset, Cut(t.budget, c.amount))
    requires Far(b.direction, c) == Zero || w.ready(Far(b.direction, c), b.direction, c.block)
    ensures Sourced(w, EdgeOf(b, c, Cut(t.budget, c.amount), depth, converted))
  {
    var e := EdgeOf(b, c, Cut(t.budget, c.amount), depth, converted);
    assert Carries(e, c) && EdgeNear(e) == b.address && EdgeFar(e) == Far(b.direction, c);
    if converted {
      var x :| w.convert(b.address, b.direction, x).Some? && x.block == c.block
               && w.convert(b.address, b.direction, x).value.transfer == c;
      assert PutOut(w, e, x);
    }
  }

  lemma VisitSourced(w: World, t: Trace, b: Branch, c: Transfer, depth: nat, converted: bool)
    requires AllSourced(w, t) && Source(w, b, c, converted)
    ensures
      var step := Visit(w, t, b, c, depth, converted);
      step.Running? ==> AllSourced(w, step.trace)
  {
    hide SetTerminal, Pair, Child, Sourced, Source;
    var step := Visit(w, t, b, c, depth, converted);
    if step.Running? && step.trace.edges != t.edges {
      assert step.trace.edges == t.edges + [EdgeOf(b, c, Cut(t.budget, c.amount), depth, converted)];
      EdgeSourced(w, t, b, c, depth, converted);
    }
  }

  lemma {:induction false} VisitAllSourced(
      w: World, t: Trace, b: Branch, cs: seq<Transfer>, depth: nat, converted: bool)
    requires AllSourced(w, t) && forall c :: c in cs ==> Source(w, b, c, converted)
    ensures
      var o := VisitAll(w, t, b, cs, depth, converted);
      o.Running? ==> AllSourced(w, o.trace)
    decreases |cs|
  {
    hide Visit, AllSourced, Source;
    if cs != [] {
      VisitSourced(w, t, b, cs[0], depth, converted);
      var step := Visit(w, t, b, cs[0], depth, converted);
      if step.Running? {
        VisitAllSourced(w, step.trace, b, cs[1..], depth, converted);
      }
    }
  }

  lemma SameSourced(w: World, t: Trace, u: Trace)
    requires AllSourced(w, t) && u.edges == t.edges
    ensures AllSourced(w, u)
  {
  }

  lemma ProcessSourced(w: World, t: Trace, b: Branch, depth: nat)
    requires Consistent(w) && AllSourced(w, t)
    ensures
      var step := Process(w, t, b, depth);
      step.Running? ==> AllSourced(w, step.trace)
  {
    hide VisitAll, Matching, AlreadyTraced, IsTerminal, SetTerminal, AllSourced;
    var seen := t.(processed := t.processed + {b.address});
    SameSourced(w, t, seen.(budget := None));
    SameSourced(w, t, seen.(budget := b.amount));
    if b.entering.Some? {
      var x := w.convert(b.address, b.direction, b.entering.value);
      if x.Some? {
        assert Source(w, b, x.value.transfer, true);
        VisitAllSourced(w, seen.(budget := None), b, [x.value.transfer], depth, true);
      }
    }
    var cs := Sort(Earlier(b.direction), Matching(w.transfers, b));
    forall c | c in cs
      ensures Source(w, b, c, false)
    {
      Candidates(w.transfers, b, Earlier(b.direction), c);
    }
    VisitAllSourced(w, seen.(budget := b.amount), b, cs, depth, false);
    var step := Process(w, t, b, depth);
    if step.Running? && step.trace.edges == t.edges {
      SameSourced(w, t, step.trace);
    }
  }

  lemma {:induction false} ProcessAllSourced(w: World, t: Trace, bs: seq<Branch>, depth: nat)
    requires Consistent(w) && AllSourced(w, t)
    ensures
      var step := ProcessAll(w, t, bs, depth);
      step.Running? ==> AllSourced(w, step.trace)
    decreases |bs|
  {
    hide Process, AllSourced;
    if bs != [] {
      ProcessSourced(w, t, bs[0], depth);
      var step := Process(w, t, bs[0], depth);
      if step.Running? {
        ProcessAllSourced(w, step.trace, bs[1..], depth);
      }
    }
  }

  lemma {:induction false} LevelsSourced(w: World, seed: Address, ds: seq<Direction>, t: Trace, depth: nat)
    requires Consistent(w) && AtLevel(w, seed, ds, t, depth) && AllSourced(w, t)
    ensures
      var o := Levels(w, seed, ds, t, depth);
      o.Running? ==> AllSourced(w, o.trace)
    decreases |Universe(w, seed, ds) - t.visitedStates|, |t.next|
  {
    hide ProcessAll, Sound, AllHang, Loose, SetAllTerminal, AllSourced, Universe, Settle;
    if t.next == [] || |t.visitedNodes| >= MAX_NODES {
      SameSourced(w, t, Finish(t));
    } else {
      var r := Level(w, t, depth);
      if r.Running? {
        LevelKeeps(w, seed, ds, t, depth);
        SameSourced(w, t, OpenLevel(t));
        ProcessAllSourced(w, OpenLevel(t), Sort(ByKey(w), t.next), depth);
        SameSourced(w, ProcessAll(w, OpenLevel(t), Sort(ByKey(w), t.next), depth).trace, r.trace);
        StatesKnown(w, seed, ds, r.trace, depth + 1);
        FewerStates(Universe(w, seed, ds), t.visitedStates, r.trace.visitedStates);
        LevelsSourced(w, seed, ds, r.trace, depth + 1);
      }
    }
  }

  /** A finished trace has seen a ready seed, and every edge of it is a transfer or conversion that is traced,
      with a far end that needs no further synchronisation. */
  lemma TraceIsSourced(w: World, seed: Address, ds: seq<Direction>)
    requires Consistent(w) && ds != []
    ensures
      var o := TraceAll(w, seed, ds);
      o.Running? ==> w.seedReady && forall e :: e in o.trace.edges ==> Sourced(w, e)
  {
    hide Levels, AtLevel;
    if w.seedReady {
      StartAtLevel(w, seed, ds);
      LevelsSourced(w, seed, ds, Start(w, seed, ds), 0);
    }
  }

  // ---------- where an expansion stops ----------

  /** The candidate has its turn, is worth an edge with the money left, and its far end is not ready. */
  ghost predicate Misses(w: World, t: Trace, b: Branch, c: Transfer) {
    var far, left := Far(b.direction, c), if t.budget.Some? then Min(t.budget.value, c.amount) else c.amount;
    && w.supported(c.asset) && w.above(c.asset, c.amount) && left > 0 && w.above(c.asset, left)
    && far != Nobody && far != Zero && !w.ready(far, b.direction, c.block)
    && StateKey(far, b.direction, Only(c.asset), c.block, c.tx) !in t.visitedStates
    && (far in t.visitedNodes || |t.visitedNodes| < MAX_NODES)
  }

  /** One candidate ends the expansion exactly when it misses its far end, which is then reported for the
      traced direction and the block of the transfer. */
  lemma VisitStops(w: World, t: Trace, b: Branch, c: Transfer, depth: nat, converted: bool)
    ensures Visit(w, t, b, c, depth, converted).NotSynced? <==> Misses(w, t, b, c)
    ensures Misses(w, t, b, c) ==>
      Visit(w, t, b, c, depth, converted) == NotSynced(Far(b.direction, c), b.direction, c.block)
  {
    hide SetTerminal, Pair, Child, Reach, AddNode;
  }

  /** The candidates before the i-th pass, and the i-th misses its far end. */
  ghost predicate StopsAt(w: World, t: Trace, b: Branch, cs: seq<Transfer>, depth: nat, converted: bool, i: nat) {
    i < |cs| &&
    var before := VisitAll(w, t, b, cs[..i], depth, converted);
    before.Running? && Misses(w, before.trace, b, cs[i])
  }

  lemma {:induction false} VisitAllSplit(
      w: World, t: Trace, b: Branch, cs: seq<Transfer>, depth: nat, converted: bool, i: nat)
    requires i <= |cs|
    ensures
      var before := VisitAll(w, t, b, cs[..i], depth, converted);
      VisitAll(w, t, b, cs, depth, converted) ==
        if before.NotSynced? then before else VisitAll(w, before.trace, b, cs[i..], depth, converted)
    decreases i
  {
    hide Visit;
    if i > 0 {
      assert cs[..i][1..] == cs[1..][..i - 1] && cs[1..][i - 1..] == cs[i..];
      var step := Visit(w, t, b, cs[0], depth, converted);
      if step.Running? {
        VisitAllSplit(w, step.trace, b, cs[1..], depth, converted, i - 1);
      }
    } else {
      assert cs[..0] == [] && cs[0..] == cs;
    }
  }

  /** The first candidate that misses its far end stops the expansion with that address. */
  lemma StopReports(w: World, t: Trace, b: Branch, cs: seq<Transfer>, depth: nat, converted: bool, i: nat)
    requires StopsAt(w, t, b, cs, depth, converted, i)
    ensures
      VisitAll(w, t, b, cs, depth, converted) == NotSynced(Far(b.direction, cs[i]), b.direction, cs[i].block)
  {
    hide Visit, Misses;
    VisitAllSplit(w, t, b, cs, depth, converted, i);
    VisitStops(w, VisitAll(w, t, b, cs[..i], depth, converted).trace, b, cs[i], depth, converted);
    assert cs[i..][0] == cs[i];
  }

  lemma {:induction false} FindsStop(
      w: World, t: Trace, b: Branch, cs: seq<Transfer>, depth: nat, converted: bool, i: nat) returns (k: nat)
    requires i <= |cs| && VisitAll(w, t, b, cs, depth, converted).NotSynced?
    requires VisitAll(w, t, b, cs[..i], depth, converted).Running?
    ensures StopsAt(w, t, b, cs, depth, converted, k)
    decreases |cs| - i
  {
    hide Visit, Misses;
    assert cs[..|cs|] == cs;
    VisitAllSplit(w, t, b, cs, depth, converted, i);
    var u := VisitAll(w, t, b, cs[..i], depth, converted).trace;
    VisitStops(w, u, b, cs[i], depth, converted);
    k := i;
    if !Misses(w, u, b, cs[i]) {
      assert cs[..i + 1][..i] == cs[..i] && cs[..i + 1][i..] == [cs[i]];
      VisitAllSplit(w, t, b, cs[..i + 1], depth, converted, i);
      assert [cs[i]][1..] == [];
      k := FindsStop(w, t, b, cs, depth, converted, i + 1);
    }
  }

  /** An expansion ends in a missing address if and only if some candidate has its turn, is worth an edge, and
      its far end is not ready; the address, direction and block reported are those of that candidate. */
  lemma ExpandStops(w: World, t: Trace, b: Branch, cs: seq<Transfer>, depth: nat, converted: bool)
    ensures
      var o := VisitAll(w, t, b, cs, depth, converted);
      && (o.NotSynced? <==> exists i: nat :: StopsAt(w, t, b, cs, depth, converted, i))
      && forall i: nat :: StopsAt(w, t, b, cs, depth, converted, i) ==>
           o == NotSynced(Far(b.direction, cs[i]), b.direction, cs[i].block)
  {
    hide VisitAll, Misses;
    forall i: nat | StopsAt(w, t, b, cs, depth, converted, i)
      ensures VisitAll(w, t, b, cs, depth, converted) == NotSynced(Far(b.direction, cs[i]), b.direction, cs[i].block)
    {
      StopReports(w, t, b, cs, depth, converted, i);
    }
    if VisitAll(w, t, b, cs, depth, converted).NotSynced? {
      NothingVisited(w, t, b, cs, depth, converted);
      var k := FindsStop(w, t, b, cs, depth, converted, 0);
    }
  }

  lemma NothingVisited(w: World, t: Trace, b: Branch, cs: seq<Transfer>, depth: nat, converted: bool)
    ensures VisitAll(w, t, b, cs[..0], depth, converted) == Running(t)
  {
  }
}
