/** The money states of a trace, and the ledgers made of them
    (internal/tracer/tracer.go, traceSameChain, consumeMoneyStates and buildLedgers). */
module TraceMoney {
  import opened Fifo
  import opened Sorting
  import opened Trace
  import opened TraceSound
  import opened TraceRun
  import opened Ledgers

  /** Total amount of an asset going one way; `kind` gives the asset of an account. */
  function Total(s: seq<MoneyState>, kind: nat -> nat, asset: nat, d: Direction): nat {
    if s == [] then 0
    else
      var last := s[|s| - 1];
      Total(s[..|s| - 1], kind, asset, d)
      + if last.direction == d && kind(last.account) == asset then last.amount else 0
  }

  lemma TotalSnoc(s: seq<MoneyState>, x: MoneyState, kind: nat -> nat, asset: nat, d: Direction)
    ensures Total(s + [x], kind, asset, d) ==
      Total(s, kind, asset, d) + (if x.direction == d && kind(x.account) == asset then x.amount else 0)
  {
    assert (s + [x])[..|s|] == s;
  }

  ghost predicate KindOf(w: World, kind: nat -> nat) {
    forall a, x {:trigger w.account(a, x)} :: kind(w.account(a, x)) == x
  }

  lemma {:induction false} PairsBalance(w: World, kind: nat -> nat, edges: seq<Edge>, asset: nat)
    requires KindOf(w, kind)
    ensures Total(Pairs(w, edges), kind, asset, In) == Total(Pairs(w, edges), kind, asset, Out)
  {
    if edges != [] {
      var front, e := edges[..|edges| - 1], edges[|edges| - 1];
      PairsBalance(w, kind, front, asset);
      var s, pair := Pairs(w, front), Pair(w, e);
      assert Pairs(w, edges) == s + [pair[0]] + [pair[1]];
      forall d: Direction
        ensures
          Total(Pairs(w, edges), kind, asset, d)
          == Total(s, kind, asset, d) + if e.asset == asset then e.amount else 0
      {
        TotalSnoc(s, pair[0], kind, asset, d);
        TotalSnoc(s + [pair[0]], pair[1], kind, asset, d);
      }
    }
  }

  lemma {:induction false} PairsUndrawn(w: World, edges: seq<Edge>)
    ensures AllUndrawn(Pairs(w, edges))
  {
    if edges != [] {
      PairsUndrawn(w, edges[..|edges| - 1]);
    }
  }

  lemma {:induction false} TotalInsert(x: MoneyState, s: seq<MoneyState>, kind: nat -> nat, asset: nat, d: Direction)
    ensures Total(Insert(Less, x, s), kind, asset, d) == Total(s + [x], kind, asset, d)
  {
    TotalSnoc(s, x, kind, asset, d);
    if s != [] && Less(x, s[|s| - 1]) {
      var front, last := s[..|s| - 1], s[|s| - 1];
      TotalInsert(x, front, kind, asset, d);
      TotalSnoc(front, x, kind, asset, d);
      TotalSnoc(Insert(Less, x, front), last, kind, asset, d);
    }
  }

  lemma {:induction false} TotalSort(s: seq<MoneyState>, kind: nat -> nat, asset: nat, d: Direction)
    ensures Total(StableSort(s), kind, asset, d) == Total(s, kind, asset, d)
  {
    if s != [] {
      var front, last := s[..|s| - 1], s[|s| - 1];
      TotalSort(front, kind, asset, d);
      TotalInsert(last, StableSort(front), kind, asset, d);
      TotalSnoc(StableSort(front), last, kind, asset, d);
    }
  }

  // ---------- totals over the ledgers ----------

  /** Incoming and outgoing amounts of the ledgers of an asset, over the accounts below n. */
  function Booked(states: seq<MoneyState>, kind: nat -> nat, asset: nat, n: nat, d: Direction): nat {
    if n == 0 then 0
    else
      var ledger := LedgerOf(states, n - 1, |states|);
      Booked(states, kind, asset, n - 1, d)
      + if kind(n - 1) != asset then 0 else if d == In then ledger.incoming else ledger.outgoing
  }

  lemma {:induction false} BookedSnoc(
      s: seq<MoneyState>, x: MoneyState, kind: nat -> nat, asset: nat, n: nat, d: Direction)
    ensures Booked(s + [x], kind, asset, n, d) == Booked(s, kind, asset, n, d) +
      if x.account < n && x.direction == d && kind(x.account) == asset then x.amount else 0
  {
    if n > 0 {
      BookedSnoc(s, x, kind, asset, n - 1, d);
      LedgerPrefix(s, x, n - 1, |s|);
    }
  }

  lemma {:induction false} LedgerPrefix(s: seq<MoneyState>, x: MoneyState, account: nat, k: nat)
    requires k <= |s|
    ensures LedgerOf(s + [x], account, k) == LedgerOf(s, account, k)
  {
    if k > 0 {
      LedgerPrefix(s, x, account, k - 1);
    }
  }

  /** Every state is booked once, on the ledger of its account. */
  lemma {:induction false} BookedIsTotal(s: seq<MoneyState>, kind: nat -> nat, asset: nat, n: nat, d: Direction)
    requires forall x :: x in s ==> x.account < n
    ensures Booked(s, kind, asset, n, d) == Total(s, kind, asset, d)
  {
    if s == [] {
      BookedNone(kind, asset, n, d);
    } else {
      var front, last := s[..|s| - 1], s[|s| - 1];
      assert s == front + [last];
      BookedIsTotal(front, kind, asset, n, d);
      BookedSnoc(front, last, kind, asset, n, d);
    }
  }

  lemma {:induction false} BookedNone(kind: nat -> nat, asset: nat, n: nat, d: Direction)
    ensures Booked([], kind, asset, n, d) == 0
  {
    if n > 0 {
      BookedNone(kind, asset, n - 1, d);
    }
  }

  lemma {:induction false} MatchedKeepsTotal(
      s: seq<MoneyState>, t: seq<MoneyState>, kind: nat -> nat, asset: nat, d: Direction)
    requires |s| == |t| && forall i :: 0 <= i < |s| ==> s[i] == t[i].(remaining := s[i].remaining)
    ensures Total(s, kind, asset, d) == Total(t, kind, asset, d)
  {
    if s != [] {
      MatchedKeepsTotal(s[..|s| - 1], t[..|t| - 1], kind, asset, d);
    }
  }

  /** The two states an edge leaves: its sender's account gives the amount out, its recipient's takes it in, in the
      block and transaction of the edge, and nothing is drawn yet. */
  predicate Books(w: World, e: Edge, given: MoneyState, taken: MoneyState) {
    && given.direction == Out && given.account == w.account(e.from, e.asset)
    && taken.direction == In && taken.account == w.account(e.recipient, e.asset)
    && given.amount == given.remaining == taken.amount == taken.remaining == e.amount
    && given.block == taken.block == e.block && given.entry == taken.entry == e.tx
    && given.path == taken.path == e.path
  }

  lemma {:induction false} PairAt(w: World, edges: seq<Edge>, k: nat)
    requires k < |edges|
    ensures |Pairs(w, edges)| == 2 * |edges| && Books(w, edges[k], Pairs(w, edges)[2 * k], Pairs(w, edges)[2 * k + 1])
  {
    var front := edges[..|edges| - 1];
    PairsLength(w, edges);
    PairsLength(w, front);
    if k < |front| {
      PairAt(w, front, k);
      assert Pairs(w, edges)[2 * k] == Pairs(w, front)[2 * k];
      assert Pairs(w, edges)[2 * k + 1] == Pairs(w, front)[2 * k + 1];
    }
  }

  lemma {:induction false} PairsLength(w: World, edges: seq<Edge>)
    ensures |Pairs(w, edges)| == 2 * |edges|
  {
    if edges != [] {
      PairsLength(w, edges[..|edges| - 1]);
    }
  }

  /** The money states of a finished trace are those of its edges, two for each, in their order. */
  lemma MoneyOfEdges(w: World, seed: Address, ds: seq<Direction>)
    requires Consistent(w) && ds != []
    ensures
      var o := TraceAll(w, seed, ds);
      o.Running? ==>
        && |o.trace.money| == 2 * |o.trace.edges|
        && forall k :: 0 <= k < |o.trace.edges| ==>
             Books(w, o.trace.edges[k], o.trace.money[2 * k], o.trace.money[2 * k + 1])
  {
    hide TraceAll, Consistent, Books, Pairs;
    TraceSettles(w, seed, ds);
    var o := TraceAll(w, seed, ds);
    if o.Running? {
      PairsLength(w, o.trace.edges);
      forall k | 0 <= k < |o.trace.edges|
        ensures Books(w, o.trace.edges[k], o.trace.money[2 * k], o.trace.money[2 * k + 1])
      {
        PairAt(w, o.trace.edges, k);
      }
    }
  }

  /** Over a whole trace the ledgers of an asset take in what they give out, and nothing was drawn
      from a money state before matching. */
  lemma TraceBalances(w: World, seed: Address, ds: seq<Direction>, kind: nat -> nat, asset: nat, n: nat)
    requires Consistent(w) && ds != [] && KindOf(w, kind)
    requires
      var o := TraceAll(w, seed, ds);
      o.Running? && forall x :: x in o.trace.money ==> x.account < n
    ensures
      var money := TraceAll(w, seed, ds).trace.money;
      && AllUndrawn(money)
      && Booked(Matched(StableSort(money)), kind, asset, n, In) ==
          Booked(Matched(StableSort(money)), kind, asset, n, Out)
  {
    hide Levels, NodesSound, AllLinked, KeysBacked, EndsKnown, Settled, Universe;
    StartAtLevel(w, seed, ds);
    LevelsSound(w, seed, ds, Start(w, seed, ds), 0);
    var t := TraceAll(w, seed, ds).trace;
    BalancedOnceMatched(w, t.edges, kind, asset, n);
  }

  lemma SortedAccounts(money: seq<MoneyState>, n: nat)
    requires forall x :: x in money ==> x.account < n
    ensures forall x :: x in Matched(StableSort(money)) ==> x.account < n
  {
    var sorted := StableSort(money);
    SortKeepsMembers(Less, money);
    var s := Matched(sorted);
    forall i | 0 <= i < |s|
      ensures s[i].account < n
    {
      assert sorted[i] in money;
    }
  }

  lemma MatchedShape(s: seq<MoneyState>)
    ensures forall i :: 0 <= i < |s| ==> Matched(s)[i] == s[i].(remaining := Matched(s)[i].remaining)
  {
  }

  lemma BalancedOnceMatched(w: World, edges: seq<Edge>, kind: nat -> nat, asset: nat, n: nat)
    requires KindOf(w, kind) && forall x :: x in Pairs(w, edges) ==> x.account < n
    ensures
      var s := Matched(StableSort(Pairs(w, edges)));
      AllUndrawn(Pairs(w, edges)) && Booked(s, kind, asset, n, In) == Booked(s, kind, asset, n, Out)
  {
    hide Matched, StableSort, Booked, Total, Pairs, KindOf;
    var money := Pairs(w, edges);
    PairsUndrawn(w, edges);
    PairsBalance(w, kind, edges, asset);
    var s := Matched(StableSort(money));
    SortedAccounts(money, n);
    MatchedShape(StableSort(money));
    forall d: Direction
      ensures Booked(s, kind, asset, n, d) == Total(money, kind, asset, d)
    {
      BookedIsTotal(s, kind, asset, n, d);
      MatchedKeepsTotal(s, StableSort(money), kind, asset, d);
      TotalSort(money, kind, asset, d);
    }
  }
}
