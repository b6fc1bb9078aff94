/** A trace records each branch state once (internal/tracer/tracer.go, branchStateKey and the visited
    states of expand). */
module TraceOnce {
  import opened Fifo
  import opened Sorting
  import opened Wrappers
  import opened Trace
  import opened TraceSound
  import opened TraceSteps
  import opened TraceRun

  /** While the node limit is not reached, an edge to anywhere but the zero address has a branch state
      of its own, and that state counts as met. */
  ghost predicate Once(t: Trace) {
    |t.visitedNodes| < MAX_NODES ==>
      && (forall i :: 0 <= i < |t.edges| && EdgeFar(t.edges[i]) != Zero ==> EdgeKey(t.edges[i]) in t.visitedStates)
      && (forall i, j ::
          0 <= i < j < |t.edges| && EdgeFar(t.edges[i]) != Zero ==> EdgeKey(t.edges[i]) != EdgeKey(t.edges[j]))
  }

  lemma OnceSame(t: Trace, u: Trace)
    requires Once(t) && u.edges == t.edges && t.visitedStates <= u.visitedStates && |t.visitedNodes| <= |u.visitedNodes|
    ensures Once(u)
  {
  }

  /** A recorded edge whose state was new, and counts as met afterwards. */
  lemma OnceMore(t: Trace, u: Trace, e: Edge)
    requires Once(t) && u.edges == t.edges + [e] && t.visitedStates <= u.visitedStates &&
      |t.visitedNodes| <= |u.visitedNodes|
    requires EdgeKey(e) !in t.visitedStates
    requires EdgeFar(e) == Zero || EdgeKey(e) in u.visitedStates || |u.visitedNodes| >= MAX_NODES
    ensures Once(u)
  {
    if |u.visitedNodes| < MAX_NODES {
      forall i, j | 0 <= i < j < |u.edges| && EdgeFar(u.edges[i]) != Zero
        ensures EdgeKey(u.edges[i]) != EdgeKey(u.edges[j])
      {
        assert u.edges[i] == t.edges[i];
      }
    }
  }

  lemma VisitOnce(w: World, t: Trace, b: Branch, c: Transfer, depth: nat, converted: bool)
    requires Once(t)
    ensures
      var step := Visit(w, t, b, c, depth, converted);
      step.Running? ==> Once(step.trace)
  {
    hide Once, SetTerminal, Pair, Child;
    var step := Visit(w, t, b, c, depth, converted);
    if step.Running? {
      if |step.trace.edges| == |t.edges| {
        OnceSame(t, step.trace);
      } else {
        OnceMore(t, step.trace, EdgeOf(b, c, Cut(t.budget, c.amount), depth, converted));
      }
    }
  }

  lemma {:induction false} VisitAllOnce(w: World, t: Trace, b: Branch, cs: seq<Transfer>, depth: nat, converted: bool)
    requires Once(t)
    ensures
      var o := VisitAll(w, t, b, cs, depth, converted);
      o.Running? ==> Once(o.trace)
    decreases |cs|
  {
    hide Once, Visit;
    if cs != [] {
      VisitOnce(w, t, b, cs[0], depth, converted);
      var step := Visit(w, t, b, cs[0], depth, converted);
      if step.Running? {
        VisitAllOnce(w, step.trace, b, cs[1..], depth, converted);
      }
    }
  }

  lemma ProcessOnce(w: World, t: Trace, b: Branch, depth: nat)
    requires Once(t)
    ensures
      var step := Process(w, t, b, depth);
      step.Running? ==> Once(step.trace)
  {
    hide Once, VisitAll, Matching, AlreadyTraced, IsTerminal, SetTerminal;
    var seen := t.(processed := t.processed + {b.address});
    OnceSame(t, seen.(budget := None));
    OnceSame(t, seen.(budget := b.amount));
    if b.entering.Some? {
      var x := w.convert(b.address, b.direction, b.entering.value);
      if x.Some? {
        VisitAllOnce(w, seen.(budget := None), b, [x.value.transfer], depth, true);
      }
    }
    VisitAllOnce(w, seen.(budget := b.amount), b, Sort(Earlier(b.direction), Matching(w.transfers, b)), depth, false);
    var step := Process(w, t, b, depth);
    if step.Running? && step.trace.edges == t.edges && step.trace.visitedStates == t.visitedStates &&
        step.trace.visitedNodes == t.visitedNodes {
      OnceSame(t, step.trace);
    }
  }

  lemma {:induction false} ProcessAllOnce(w: World, t: Trace, bs: seq<Branch>, depth: nat)
    requires Once(t)
    ensures
      var step := ProcessAll(w, t, bs, depth);
      step.Running? ==> Once(step.trace)
    decreases |bs|
  {
    hide Once, Process;
    if bs != [] {
      ProcessOnce(w, t, bs[0], depth);
      var step := Process(w, t, bs[0], depth);
      if step.Running? {
        ProcessAllOnce(w, step.trace, bs[1..], depth);
      }
    }
  }

  lemma LevelOnce(w: World, t: Trace, depth: nat)
    requires Once(t)
    ensures
      var r := Level(w, t, depth);
      r.Running? ==> Once(r.trace)
  {
    hide Once, ProcessAll, Settle;
    OnceSame(t, OpenLevel(t));
    ProcessAllOnce(w, OpenLevel(t), Sort(ByKey(w), t.next), depth);
    var r := ProcessAll(w, OpenLevel(t), Sort(ByKey(w), t.next), depth);
    if r.Running? {
      OnceSame(r.trace, Level(w, t, depth).trace);
    }
  }

  lemma {:induction false} LevelsOnce(w: World, seed: Address, ds: seq<Direction>, t: Trace, depth: nat)
    requires Consistent(w) && AtLevel(w, seed, ds, t, depth) && Once(t)
    ensures
      var o := Levels(w, seed, ds, t, depth);
      o.Running? ==> Once(o.trace)
    decreases |Universe(w, seed, ds) - t.visitedStates|, |t.next|
  {
    hide Level, Sound, AllHang, Loose, SetAllTerminal, Once, Universe;
    if t.next == [] || |t.visitedNodes| >= MAX_NODES {
      OnceSame(t, Finish(t));
    } else {
      var r := Level(w, t, depth);
      if r.Running? {
        LevelKeeps(w, seed, ds, t, depth);
        LevelOnce(w, t, depth);
        StatesKnown(w, seed, ds, r.trace, depth + 1);
        FewerStates(Universe(w, seed, ds), t.visitedStates, r.trace.visitedStates);
        LevelsOnce(w, seed, ds, r.trace, depth + 1);
      }
    }
  }

  /** In a finished trace below the node limit no two edges to a nonzero address share far end,
      direction, asset, block and transaction: of several transfers of one asset that reach an
      address in one transaction, whatever branch meets them, one is recorded. */
  lemma EdgesAreDistinct(w: World, seed: Address, ds: seq<Direction>, i: nat, j: nat)
    requires Consistent(w) && ds != []
    requires
      var o := TraceAll(w, seed, ds);
      o.Running? && |o.trace.visitedNodes| < MAX_NODES && i < j < |o.trace.edges| && EdgeFar(o.trace.edges[i]) != Zero
    ensures
      var edges := TraceAll(w, seed, ds).trace.edges;
      EdgeKey(edges[i]) != EdgeKey(edges[j])
  {
    hide Levels, AtLevel;
    StartAtLevel(w, seed, ds);
    assert Once(Start(w, seed, ds));
    LevelsOnce(w, seed, ds, Start(w, seed, ds), 0);
  }
}
