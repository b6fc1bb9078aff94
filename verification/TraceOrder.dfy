/** The order in which a trace spends money, and the order in which it does not matter
    (internal/tracer/tracer.go, expand and the sorted frontier). */
module TraceOrder {
  import opened Fifo
  import opened Sorting
  import opened Wrappers
  import opened Trace
  import opened BoundedHeap

  /** Outwards from earlier blocks to later ones, inwards the other way. */
  predicate InLine(d: Direction, x: nat, y: nat) {
    if d == Out then x <= y else x >= y
  }

  /** The edges recorded since are in line. */
  ghost predicate AddedInLine(d: Direction, before: seq<Edge>, after: seq<Edge>) {
    before <= after && forall i, j :: |before| <= i < j < |after| ==> InLine(d, after[i].block, after[j].block)
  }

  /** Their blocks do not come before that one. */
  ghost predicate AddedBehind(d: Direction, before: seq<Edge>, after: seq<Edge>, block: nat) {
    before <= after && forall i :: |before| <= i < |after| ==> InLine(d, block, after[i].block)
  }

  ghost predicate CandidatesInLine(d: Direction, cs: seq<Transfer>) {
    forall i, j :: 0 <= i < j < |cs| ==> InLine(d, cs[i].block, cs[j].block)
  }

  lemma VisitAddsOne(w: World, t: Trace, b: Branch, c: Transfer, depth: nat, converted: bool)
    ensures
      var step := Visit(w, t, b, c, depth, converted);
      step.Running? ==>
        || step.trace.edges == t.edges
        || (|step.trace.edges| == |t.edges| + 1 && t.edges <= step.trace.edges
            && step.trace.edges[|t.edges|].block == c.block)
  {
    hide SetTerminal, Pair, Child;
  }

  lemma {:induction false} ExpandInLine(
      w: World, t: Trace, b: Branch, cs: seq<Transfer>, depth: nat, converted: bool, block: nat)
    requires CandidatesInLine(b.direction, cs) && forall c :: c in cs ==> InLine(b.direction, block, c.block)
    ensures
      var o := VisitAll(w, t, b, cs, depth, converted);
      o.Running? ==>
        AddedInLine(b.direction, t.edges, o.trace.edges) && AddedBehind(b.direction, t.edges, o.trace.edges, block)
    decreases |cs|
  {
    hide Visit;
    if cs != [] {
      var step := Visit(w, t, b, cs[0], depth, converted);
      VisitAddsOne(w, t, b, cs[0], depth, converted);
      if step.Running? {
        forall c | c in cs[1..]
          ensures InLine(b.direction, cs[0].block, c.block)
        {
          var i :| 0 <= i < |cs[1..]| && cs[1..][i] == c;
          assert cs[i + 1] == c;
        }
        assert cs[0] in cs;
        ExpandInLine(w, step.trace, b, cs[1..], depth, converted, cs[0].block);
        var o := VisitAll(w, step.trace, b, cs[1..], depth, converted);
        if o.Running? {
          LineCompose(b.direction, t.edges, step.trace.edges, o.trace.edges, cs[0].block, block);
        }
      }
    }
  }

  lemma LineCompose(d: Direction, before: seq<Edge>, middle: seq<Edge>, after: seq<Edge>, here: nat, block: nat)
    requires middle == before || (|middle| == |before| + 1 && before <= middle && middle[|before|].block == here)
    requires AddedInLine(d, middle, after) && AddedBehind(d, middle, after, here) && InLine(d, block, here)
    ensures AddedInLine(d, before, after) && AddedBehind(d, before, after, block)
  {
    forall i, j | |before| <= i < j < |after|
      ensures InLine(d, after[i].block, after[j].block)
    {
      if i < |middle| {
        assert after[i] == middle[i];
      }
    }
    forall i | |before| <= i < |after|
      ensures InLine(d, block, after[i].block)
    {
      if i < |middle| {
        assert after[i] == middle[i];
      }
    }
  }

  /** A branch that is no contract spends its money on transfers in the order of their blocks: outwards the
      earliest first, inwards the latest. */
  lemma BranchInLine(w: World, t: Trace, b: Branch, depth: nat)
    requires !(b.entering.Some? && b.contract)
    ensures
      var step := Process(w, t, b, depth);
      step.Running? ==> AddedInLine(b.direction, t.edges, step.trace.edges)
  {
    hide VisitAll, IsTerminal, SetTerminal, Matching;
    var cs := Sort(Earlier(b.direction), Matching(w.transfers, b));
    SortOrdered(Earlier(b.direction), Matching(w.transfers, b));
    var first := if cs == [] then 0 else cs[0].block;
    forall c | c in cs
      ensures InLine(b.direction, first, c.block)
    {
      var i :| 0 <= i < |cs| && cs[i] == c;
    }
    var u := t.(processed := t.processed + {b.address}, budget := b.amount);
    ExpandInLine(w, u, b, cs, depth, false, first);
  }

  /** The frontier is expanded in the order of its keys: the order in which branches were queued is of no
      consequence, where their keys tell them apart. */
  lemma LevelIgnoresQueue(w: World, t: Trace, next: seq<Branch>, depth: nat)
    requires multiset(next) == multiset(t.next)
    requires forall x, y {:trigger BranchKey(x), BranchKey(y)} ::
      x in next && y in next && w.rank(BranchKey(x)) == w.rank(BranchKey(y)) ==> x == y
    ensures Level(w, t.(next := next), depth) == Level(w, t, depth)
  {
    hide ProcessAll, Settle;
    var less := ByKey(w);
    var a, b := Sort(less, t.next), Sort(less, next);
    SortOrdered(less, t.next);
    SortOrdered(less, next);
    SortPermutes(less, t.next);
    SortPermutes(less, next);
    forall x | x in a
      ensures x in next
    {
      assert x in multiset(a);
      assert x in multiset(next);
    }
    assert TellsApart(less, a);
    SortedUnique(less, a, b);
  }
}
