/** The retry loop around a root trace: what the trace reports as missing. */
module TraceRetry {
  import opened Fifo
  import opened Sorting
  import opened Wrappers
  import opened Trace
  import opened TraceSound
  import opened TraceSteps
  import opened TraceReady
  import opened TraceReasons
  import opened TraceRun
  import R = Retry

  /** The world with some addresses given up: they are terminal and need no further data. */
  function With(w: World, terminal: set<Address>): World {
    w.(ready := (a: Address, d: Direction, block: nat) => w.ready(a, d, block) || a in terminal,
       terminal := a => w.terminal(a) || a in terminal,
       stopped := a => w.stopped(a) || a in terminal)
  }

  function DependencyOf(k: StateKey): R.Dependency {
    if k.direction == Out then R.Dependency(k.address, k.anchor, 0) else R.Dependency(k.address, 0, k.anchor)
  }

  function AnswerOf(o: Outcome): R.Answer {
    if o.Running? then R.Done
    else if o.direction == Out then R.Missing(R.Dependency(o.address, o.block, 0))
    else R.Missing(R.Dependency(o.address, 0, o.block))
  }

  // ---------- what can be missing ----------

  /** A reported address is reached by a transfer: its state names an asset. */
  ghost predicate Known(keys: set<StateKey>, o: Outcome) {
    o.NotSynced? ==>
      exists k :: k in keys && k.address == o.address && k.direction == o.direction
                  && k.anchor == o.block && k.asset.Only?
  }

  /** Only an address that is not ready is reported, for a branch state there is. */
  ghost predicate Reported(w: World, keys: set<StateKey>, o: Outcome) {
    Known(keys, o) && (o.NotSynced? ==> !w.ready(o.address, o.direction, o.block))
  }

  lemma VisitReports(w: World, keys: set<StateKey>, t: Trace, b: Branch, c: Transfer, depth: nat, converted: bool)
    requires ChildKey(b.direction, c) in keys
    ensures Reported(w, keys, Visit(w, t, b, c, depth, converted))
  {
    hide SetTerminal, Reach, Record, AddNode;
  }

  lemma {:induction false} VisitAllReports(
      w: World, keys: set<StateKey>, t: Trace, b: Branch, cs: seq<Transfer>, depth: nat, converted: bool)
    requires forall c :: c in cs ==> ChildKey(b.direction, c) in keys
    ensures Reported(w, keys, VisitAll(w, t, b, cs, depth, converted))
    decreases |cs|
  {
    assert Reported(w, keys, Running(t));
    hide Visit, Reported;
    if cs != [] {
      VisitReports(w, keys, t, b, cs[0], depth, converted);
      var step := Visit(w, t, b, cs[0], depth, converted);
      if step.Running? {
        VisitAllReports(w, keys, step.trace, b, cs[1..], depth, converted);
      }
    }
  }

  lemma ProcessReports(w: World, seed: Address, ds: seq<Direction>, t: Trace, b: Branch, depth: nat)
    requires Consistent(w)
    ensures Reported(w, Universe(w, seed, ds), Process(w, t, b, depth))
  {
    hide VisitAll, Matching, AlreadyTraced, IsTerminal, SetTerminal;
    var keys := Universe(w, seed, ds);
    var seen := t.(processed := t.processed + {b.address});
    if b.entering.Some? {
      var x := w.convert(b.address, b.direction, b.entering.value);
      if x.Some? {
        VisitAllReports(w, keys, seen.(budget := None), b, [x.value.transfer], depth, true);
      }
    }
    var cs := Sort(Earlier(b.direction), Matching(w.transfers, b));
    forall c | c in cs
      ensures ChildKey(b.direction, c) in keys
    {
      MatchingFollows(w, seed, ds, b, c);
    }
    VisitAllReports(w, keys, seen.(budget := b.amount), b, cs, depth, false);
  }

  lemma {:induction false} ProcessAllReports(
      w: World, seed: Address, ds: seq<Direction>, t: Trace, bs: seq<Branch>, depth: nat)
    requires Consistent(w)
    ensures Reported(w, Universe(w, seed, ds), ProcessAll(w, t, bs, depth))
    decreases |bs|
  {
    hide Process, Universe;
    if bs != [] {
      ProcessReports(w, seed, ds, t, bs[0], depth);
      var step := Process(w, t, bs[0], depth);
      if step.Running? {
        ProcessAllReports(w, seed, ds, step.trace, bs[1..], depth);
      }
    }
  }

  lemma {:induction false} LevelsReport(w: World, seed: Address, ds: seq<Direction>, t: Trace, depth: nat)
    requires Consistent(w) && AtLevel(w, seed, ds, t, depth)
    ensures Reported(w, Universe(w, seed, ds), Levels(w, seed, ds, t, depth))
    decreases |Universe(w, seed, ds) - t.visitedStates|, |t.next|
  {
    hide ProcessAll, Sound, AllHang, Loose, Finish, Settle, Universe;
    if t.next != [] && |t.visitedNodes| < MAX_NODES {
      ProcessAllReports(w, seed, ds, OpenLevel(t), Sort(ByKey(w), t.next), depth);
      var r := Level(w, t, depth);
      if r.Running? {
        LevelKeeps(w, seed, ds, t, depth);
        StatesKnown(w, seed, ds, r.trace, depth + 1);
        FewerStates(Universe(w, seed, ds), t.visitedStates, r.trace.visitedStates);
        LevelsReport(w, seed, ds, r.trace, depth + 1);
      }
    }
  }

  /** A trace reports its seed exactly when the seed is not ready; otherwise an address that is neither given up nor
      ready, to be synchronised from its block on when traced outwards and up to it inwards; and it ends only when
      every far end it met is one or the other.  The given-up ones are closed, and mark it as partial. */
  lemma TraceReports(w: World, terminal: set<Address>, seed: Address, ds: seq<Direction>)
    requires Consistent(w) && ds != []
    ensures
      Consistent(With(w, terminal)) &&
      var o := TraceAll(With(w, terminal), seed, ds);
      if !w.seedReady then o == NotSynced(seed, Out, 0)
      else if o.NotSynced? then
        && o.address !in terminal && !w.ready(o.address, o.direction, o.block)
        && Known(Universe(w, seed, ds), o)
        && AnswerOf(o).Missing? && AnswerOf(o).dependency.address == o.address
        && (o.direction == Out ==> AnswerOf(o).dependency.start == o.block && AnswerOf(o).dependency.end == 0)
        && (o.direction == In ==> AnswerOf(o).dependency.start == 0 && AnswerOf(o).dependency.end == o.block)
      else
        && (forall e :: e in o.trace.edges ==>
              EdgeFar(e) == Zero || EdgeFar(e) in terminal || w.ready(EdgeFar(e), e.direction, e.block))
        && (forall n :: n in o.trace.nodes && n.address in terminal ==>
              n.stop != Open && (n.address == Zero || o.trace.partialData))
  {
    var v := With(w, terminal);
    assert Consistent(v) && Universe(v, seed, ds) == Universe(w, seed, ds);
    TraceIsSourced(v, seed, ds);
    ReasonsHold(v, seed, ds);
    if w.seedReady {
      StartAtLevel(v, seed, ds);
      LevelsReport(v, seed, ds, Start(v, seed, ds), 0);
    }
  }

  // ---------- the loop around it ----------

  /** Round n traces the repository as it is then, with what was given up so far. */
  ghost predicate Drives(s: R.Setting, worlds: nat -> World, seed: Address, ds: seq<Direction>, keys: set<StateKey>) {
    && ds != []
    && (s.first.Some? ==> s.first.value == R.Dependency(seed, 0, 0))
    && (forall n: nat :: Consistent(worlds(n)) && Universe(worlds(n), seed, ds) <= keys)
    && forall n, terminal {:trigger s.attempt(n, terminal)} ::
         Consistent(With(worlds(n), terminal)) &&
             s.attempt(n, terminal) == AnswerOf(TraceAll(With(worlds(n), terminal), seed, ds))
  }

  /** Whether the seed needs no synchronisation in each round. */
  function SeedReady(worlds: nat -> World): nat -> bool {
    (n: nat) => worlds(n).seedReady
  }

  function Dependencies(seed: Address, keys: set<StateKey>): set<R.Dependency> {
    {R.Dependency(seed, 0, 0)} + set k | k in keys :: DependencyOf(k)
  }

  lemma DrivesGated(s: R.Setting, worlds: nat -> World, seed: Address, ds: seq<Direction>, keys: set<StateKey>)
    requires Drives(s, worlds, seed, ds, keys)
    ensures R.Gated(s, seed, SeedReady(worlds))
    ensures R.Within(s, Dependencies(seed, keys))
  {
    hide Universe;
    forall n, terminal {:trigger s.attempt(n, terminal)}
      ensures
        if worlds(n).seedReady then s.attempt(n, terminal).Missing? ==>
            s.attempt(n, terminal).dependency.address !in terminal
        else s.attempt(n, terminal) == R.Missing(R.Dependency(seed, 0, 0))
      ensures s.attempt(n, terminal).Missing? ==> s.attempt(n, terminal).dependency in Dependencies(seed, keys)
    {
      TraceReports(worlds(n), terminal, seed, ds);
      var o := TraceAll(With(worlds(n), terminal), seed, ds);
      if worlds(n).seedReady && o.NotSynced? {
        var k :| k in Universe(worlds(n), seed, ds) && k.address == o.address && k.direction == o.direction
                 && k.anchor == o.block && k.asset.Only?;
        assert k in keys && DependencyOf(k) in Dependencies(seed, keys);
      }
    }
  }

  /** Branch states that a transfer leads to lie in a block after the genesis block. */
  ghost predicate PositiveBlocks(keys: set<StateKey>) {
    forall k :: k in keys && k.asset.Only? ==> k.anchor > 0
  }

  /** A trace reports the open range of the seed exactly when the seed is not ready. */
  lemma SeedReported(
      s: R.Setting, worlds: nat -> World, seed: Address, ds: seq<Direction>, keys: set<StateKey>,
      n: nat, terminal: set<Address>)
    requires Drives(s, worlds, seed, ds, keys) && PositiveBlocks(keys)
    ensures s.attempt(n, terminal) == R.Missing(R.Dependency(seed, 0, 0)) <==> !worlds(n).seedReady
  {
    hide Universe;
    TraceReports(worlds(n), terminal, seed, ds);
    var o := TraceAll(With(worlds(n), terminal), seed, ds);
    if worlds(n).seedReady && o.NotSynced? {
      var k :| k in Universe(worlds(n), seed, ds) && k.anchor == o.block && k.asset.Only?;
      assert k in keys;
    }
  }

  /** The loop meets a seed that is not ready in round m. */
  predicate Unready(s: R.Setting, worlds: nat -> World, m: nat) {
    R.Waiting(R.After(s, m)) && !worlds(m).seedReady
  }

  lemma ReportsSeed(
      s: R.Setting, worlds: nat -> World, seed: Address, ds: seq<Direction>, keys: set<StateKey>, m: nat)
    requires Drives(s, worlds, seed, ds, keys) && PositiveBlocks(keys)
    ensures R.Reports(s, m, R.Dependency(seed, 0, 0)) <==> Unready(s, worlds, m)
  {
    var terminal := if m == 0 then {} else R.After(s, m).terminal;
    SeedReported(s, worlds, seed, ds, keys, m, terminal);
    hide Drives;
  }

  /** A seed that stays ready once it is meets the loop unready only from the first round on. */
  lemma UnreadyFirst(s: R.Setting, worlds: nat -> World, n: nat)
    requires forall m: nat :: worlds(m).seedReady ==> worlds(m + 1).seedReady
    ensures (exists m: nat :: m < n && Unready(s, worlds, m)) <==> n > 0 && Unready(s, worlds, 0)
  {
    hide R.After;
    forall m: nat | m < n && Unready(s, worlds, m)
      ensures n > 0 && Unready(s, worlds, 0)
    {
      R.WaitingBefore(s, 0, m);
      ReadyBefore(worlds, m);
    }
  }

  /** Of all ranges only the open range of the seed, asked for before the loop, is asked for again:
      exactly when the seed is not ready in a round that runs.  For a seed that stays ready once it
      is, that means: exactly when it is not ready in the first trace. */
  lemma SeedRequestedTwice(
      s: R.Setting, worlds: nat -> World, seed: Address, ds: seq<Direction>, keys: set<StateKey>, n: nat)
    requires Drives(s, worlds, seed, ds, keys) && PositiveBlocks(keys) && s.first.Some?
    ensures
      var r := R.Requests(s, R.After(s, n));
      && (forall i, k :: 0 <= i < k < |r| && r[i] == r[k] ==> i == 0 && r[k] == R.Dependency(seed, 0, 0))
      && (R.Dependency(seed, 0, 0) in r[1..] <==> exists m: nat :: m < n && Unready(s, worlds, m))
      && ((forall m: nat :: worlds(m).seedReady ==> worlds(m + 1).seedReady) ==>
          (R.Dependency(seed, 0, 0) in r[1..] <==> n > 0 && Unready(s, worlds, 0)))
  {
    assert s.first.value == R.Dependency(seed, 0, 0);
    DrivesGated(s, worlds, seed, ds, keys);
    hide Drives, PositiveBlocks, R.After, R.Reports, R.Within, R.Gated, Unready;
    R.RequestedOnce(s, Dependencies(seed, keys), n);
    forall m: nat
      ensures R.Reports(s, m, R.Dependency(seed, 0, 0)) <==> Unready(s, worlds, m)
    {
      ReportsSeed(s, worlds, seed, ds, keys, m);
    }
    if forall m: nat :: worlds(m).seedReady ==> worlds(m + 1).seedReady {
      UnreadyFirst(s, worlds, n);
    }
  }

  lemma {:induction false} ReadyBefore(worlds: nat -> World, m: nat)
    requires forall n: nat :: worlds(n).seedReady ==> worlds(n + 1).seedReady
    ensures !worlds(m).seedReady ==> !worlds(0).seedReady
  {
    if m > 0 {
      ReadyBefore(worlds, m - 1);
      assert worlds(m - 1).seedReady ==> worlds(m - 1 + 1).seedReady;
    }
  }

  /** A root trace job ends unless its seed, once asked for, is never ready again; while the
      repository keeps the seed as it is, that is: if and only if the seed is ready or its
      synchronisation fails. */
  lemma TraceJobEnds(s: R.Setting, worlds: nat -> World, seed: Address, ds: seq<Direction>, keys: set<StateKey>)
    requires Drives(s, worlds, seed, ds, keys)
    ensures R.Halts(s) <==> !exists k: nat :: R.StuckAt(s, seed, SeedReady(worlds), k)
    ensures
      (forall n: nat :: worlds(n).seedReady == worlds(0).seedReady) ==>
        (R.Halts(s) <==> worlds(0).seedReady || R.Begin(s).failed || !s.syncs(1))
  {
    hide Drives;
    DrivesGated(s, worlds, seed, ds, keys);
    var ready := SeedReady(worlds);
    R.RootHaltsUnlessStuck(s, Dependencies(seed, keys), seed, ready);
    if forall n: nat :: worlds(n).seedReady == worlds(0).seedReady {
      R.FixedSeedHalts(s, Dependencies(seed, keys), seed, ready);
    }
  }

  /** The loop of a root trace whose seed needs no synchronisation runs to its end. */
  method ResolveTrace(s: R.Setting, worlds: nat -> World, seed: Address, ds: seq<Direction>, ghost keys: set<StateKey>)
    returns (j: R.Job)
    requires Drives(s, worlds, seed, ds, keys) && forall n: nat :: worlds(n).seedReady
    ensures exists n: nat :: j == R.After(s, n) && !R.Waiting(j)
  {
    hide Drives;
    DrivesGated(s, worlds, seed, ds, keys);
    forall n: nat, terminal {:trigger s.attempt(n, terminal)} | s.attempt(n, terminal).Missing?
      ensures s.attempt(n, terminal).dependency.address !in terminal
    {
      assert SeedReady(worlds)(n);
    }
    j := R.Resolve(s, Dependencies(seed, keys));
  }
}
