/** The loops of a trace (internal/tracer/tracer.go, traceSameChain and expand). */
module Tracer {
  import opened Fifo
  import opened Ledgers
  import opened LedgerTime
  import opened Sorting
  import opened Wrappers
  import opened Trace
  import opened TraceSound
  import opened TraceRun

  /** One pass over the transfers of a branch, in block order of its direction. */
  method Expand(
      w: World, before: Trace, b: Branch, candidates: seq<Transfer>, depth: nat, converted: bool) returns (o: Outcome)
    ensures o == VisitAll(w, before, b, Sort(Earlier(b.direction), candidates), depth, converted)
  {
    hide SetTerminal, Sort, Reach, Record, AddNode;
    var cs := Sort(Earlier(b.direction), candidates);
    var t := before;
    var i := 0;
    while i < |cs|
      invariant 0 <= i <= |cs|
      invariant VisitAll(w, t, b, cs[i..], depth, converted) == VisitAll(w, before, b, cs, depth, converted)
    {
      var c := cs[i];
      assert cs[i..][0] == c && cs[i..][1..] == cs[i + 1..];
      i := i + 1;
      if !w.supported(c.asset) || !w.above(c.asset, c.amount) {
        continue;
      }
      var other := Far(b.direction, c);
      if other == Nobody || ChildKey(b.direction, c) in t.visitedStates {
        continue;
      }
      if c.amount == 0 || t.budget == Some(0) {
        continue;
      }
      var amount := c.amount;
      if t.budget.Some? {
        if t.budget.value < amount {
          amount := t.budget.value;
        }
        t := t.(budget := Some(t.budget.value - amount));
      }
      if !w.above(c.asset, amount) {
        continue;
      }
      if other !in t.visitedNodes && |t.visitedNodes| >= MAX_NODES {
        t := t.(partialData := true, nodes := SetTerminal(t.nodes, b.address, NodeLimit));
        continue;
      }
      t := Record(w, t, b.address, EdgeOf(b, c, amount, depth, converted));
      if other == Zero {
        t := AddNode(t, Zero, depth + 1, Given);
        continue;
      }
      if !w.ready(other, b.direction, c.block) {
        return NotSynced(other, b.direction, c.block);
      }
      t := Reach(w, t, b, c, amount, depth);
    }
    assert cs[i..] == [];
    o := Running(t);
  }

  method ExpandBranch(w: World, before: Trace, b: Branch, depth: nat) returns (o: Outcome)
    ensures o == Process(w, before, b, depth)
  {
    hide VisitAll, SetTerminal, Matching, Sort, AlreadyTraced;
    if IsTerminal(before.nodes, b.address) {
      return Running(before);
    }
    var t := before.(processed := before.processed + {b.address});
    if b.entering.Some? && b.contract {
      if !w.analyzes || b.entering.value.tx == "" {
        return Running(Halt(t, b.address, UnsupportedContract));
      }
      var x := w.convert(b.address, b.direction, b.entering.value);
      if x.None? {
        return Running(Halt(t, b.address, AmbiguousConversion));
      }
      if AlreadyTraced(t.edges, x.value) || !w.above(x.value.transfer.asset, x.value.transfer.amount) {
        return Running(t);
      }
      SortOne(Earlier(b.direction), x.value.transfer);
      o := Expand(w, t.(budget := None), b, [x.value.transfer], depth, true);
    } else {
      var found := Matching(w.transfers, b);
      if |found| >= RECORD_CAP {
        return Running(Halt(t.(partialData := true), b.address, HighFrequency));
      }
      o := Expand(w, t.(budget := b.amount), b, found, depth, false);
    }
  }

  lemma SortOne<T>(less: (T, T) -> bool, x: T)
    ensures Sort(less, [x]) == [x]
  {
    assert [x][..0] == [];
    assert Sort(less, [x]) == Insert(less, x, Sort(less, []));
  }

  method TraceLevel(w: World, before: Trace, depth: nat) returns (o: Outcome)
    ensures o == Level(w, before, depth)
  {
    hide Process, Settle, Sort;
    var frontier := Sort(ByKey(w), before.next);
    var t := OpenLevel(before);
    var i := 0;
    while i < |frontier|
      invariant 0 <= i <= |frontier|
      invariant ProcessAll(w, t, frontier[i..], depth) == ProcessAll(w, OpenLevel(before), frontier, depth)
    {
      assert frontier[i..][0] == frontier[i] && frontier[i..][1..] == frontier[i + 1..];
      var step := ExpandBranch(w, t, frontier[i], depth);
      if step.NotSynced? {
        return step;
      }
      t := step.trace;
      i := i + 1;
    }
    assert frontier[i..] == [];
    o := Running(t.(nodes := Settle(t.nodes, t.processed - t.expanded)));
  }

  /** The whole trace, level by level, with no bound on the depth. */
  method TraceLevels(w: World, seed: Address, ds: seq<Direction>) returns (o: Outcome)
    requires Consistent(w) && ds != []
    ensures o == TraceAll(w, seed, ds)
  {
    hide Level, AtLevel, Settled;
    if !w.seedReady {
      return NotSynced(seed, Out, 0);
    }
    StartAtLevel(w, seed, ds);
    var t := Start(w, seed, ds);
    var depth := 0;
    while t.next != [] && |t.visitedNodes| < MAX_NODES
      invariant AtLevel(w, seed, ds, t, depth)
      invariant Levels(w, seed, ds, t, depth) == TraceAll(w, seed, ds)
      decreases |Universe(w, seed, ds) - t.visitedStates|, |t.next|
    {
      var r := TraceLevel(w, t, depth);
      if r.NotSynced? {
        return r;
      }
      LevelKeeps(w, seed, ds, t, depth);
      StatesKnown(w, seed, ds, r.trace, depth + 1);
      FewerStates(Universe(w, seed, ds), t.visitedStates, r.trace.visitedStates);
      t := r.trace;
      depth := depth + 1;
    }
    if t.next != [] {
      t := t.(partialData := true, nodes := SetAllTerminal(t.nodes, t.next));
    }
    o := Running(t);
  }

  /** The trace, then its money states matched, and their ledgers: the opening balance of each is the least with
      which its account covers, in the order of blocks, all it gives out, and the trace is reconciled when none
      is needed.  Nothing is matched when an address is missing. */
  method TraceSameChain(w: World, seed: Address, ds: seq<Direction>)
    returns (o: Outcome, money: seq<MoneyState>, ledgers: map<nat, Ledger>, reconciled: bool)
    requires Consistent(w) && ds != []
    ensures o == TraceAll(w, seed, ds)
    ensures o.Running? ==>
      && money == Matched(StableSort(o.trace.money))
      && (forall account: nat :: account in ledgers <==> exists i :: 0 <= i < |money| && money[i].account == account)
      && (forall account :: account in ledgers ==> ledgers[account] == LedgerOf(money, account, |money|))
      && BooksInTime(o.trace.money, ledgers, reconciled)
  {
    o := TraceLevels(w, seed, ds);
    money, ledgers, reconciled := [], map[], false;
    hide TraceAll, Matched, StableSort, LedgerOf, Reconciled, BooksInTime;
    if o.Running? {
      var all := new MoneyState[|o.trace.money|](i requires 0 <= i < |o.trace.money| => o.trace.money[i]);
      assert all[..] == o.trace.money;
      ConsumeMoneyStates(all);
      money := all[..];
      ledgers := BuildLedgers(money);
      reconciled := AllComplete(money, ledgers);
      BooksAreInTime(o.trace.money, ledgers, reconciled);
    }
  }
}
