/** What FIFO matching means for an account's ledger (internal/tracer/tracer.go, buildLedgers). */
module Ledgers {
  import opened Fifo

  // ---------- the unexplained total is the least opening balance ----------

  /** With that opening balance the account never goes negative. */
  ghost predicate Solvent(s: seq<MoneyState>, account: nat, opening: int) {
    forall k {:trigger Inflow(s, account, k)} ::
        0 <= k <= |s| ==> opening + Inflow(s, account, k) - Outflow(s, account, k) >= 0
  }

  lemma {:induction false} DeficitBounds(s: seq<MoneyState>, account: nat, k: nat)
    requires k <= |s|
    ensures forall j {:trigger Inflow(s, account, j)} ::
      0 <= j <= k ==> Outflow(s, account, j) - Inflow(s, account, j) <= Deficit(s, account, k)
    ensures exists j {:trigger Inflow(s, account, j)} ::
      0 <= j <= k && Outflow(s, account, j) - Inflow(s, account, j) == Deficit(s, account, k)
  {
    if k == 0 {
      assert Outflow(s, account, 0) - Inflow(s, account, 0) == Deficit(s, account, 0);
    } else {
      DeficitBounds(s, account, k - 1);
      assert Outflow(s, account, k) - Inflow(s, account, k) <= Deficit(s, account, k);
    }
  }

  lemma LeastOpening(s: seq<MoneyState>, account: nat, opening: int)
    ensures Solvent(s, account, opening) <==> opening >= Deficit(s, account, |s|)
  {
    DeficitBounds(s, account, |s|);
    if Solvent(s, account, opening) {
      var j :| 0 <= j <= |s| && Outflow(s, account, j) - Inflow(s, account, j) == Deficit(s, account, |s|);
      assert opening + Inflow(s, account, j) - Outflow(s, account, j) >= 0;
    }
  }

  // ---------- no matching explains more ----------

  /** Outflow `target` takes `quantity` from inflow `source`. */
  datatype Draw = Draw(target: nat, source: nat, quantity: nat)

  function DrawnFrom(draws: seq<Draw>, source: nat): nat {
    if draws == [] then 0
    else DrawnFrom(draws[1..], source) + if draws[0].source == source then draws[0].quantity else 0
  }

  function DrawnBy(draws: seq<Draw>, target: nat): nat {
    if draws == [] then 0 else DrawnBy(draws[1..], target) + if draws[0].target == target then draws[0].quantity else 0
  }

  function TotalDrawn(draws: seq<Draw>): nat {
    if draws == [] then 0 else TotalDrawn(draws[1..]) + draws[0].quantity
  }

  /** A matching of one account draws only on earlier inflows, within their capacity, and no
      outflow takes more than its amount. */
  ghost predicate IsMatching(s: seq<MoneyState>, account: nat, draws: seq<Draw>) {
    && (forall d ::
        d in draws ==> d.source < d.target < |s| && Takes(s, account, d.source, In) && Takes(s, account, d.target, Out))
    && (forall i :: 0 <= i < |s| ==> DrawnFrom(draws, i) <= s[i].remaining)
    && (forall i :: 0 <= i < |s| ==> DrawnBy(draws, i) <= s[i].amount)
  }

  /** What draws take from sources before k, and for targets before k. */
  function FromBefore(draws: seq<Draw>, k: nat): nat {
    if draws == [] then 0 else FromBefore(draws[1..], k) + if draws[0].source < k then draws[0].quantity else 0
  }

  function ByBefore(draws: seq<Draw>, k: nat): nat {
    if draws == [] then 0 else ByBefore(draws[1..], k) + if draws[0].target < k then draws[0].quantity else 0
  }

  lemma {:induction false} BeforeNext(draws: seq<Draw>, k: nat)
    ensures FromBefore(draws, k + 1) == FromBefore(draws, k) + DrawnFrom(draws, k)
    ensures ByBefore(draws, k + 1) == ByBefore(draws, k) + DrawnBy(draws, k)
    ensures FromBefore(draws, 0) == 0 && ByBefore(draws, 0) == 0
  {
    if draws != [] {
      BeforeNext(draws[1..], k);
    }
  }

  lemma {:induction false} TargetsAfterSources(draws: seq<Draw>, k: nat)
    requires forall d :: d in draws ==> d.source < d.target
    ensures ByBefore(draws, k) <= FromBefore(draws, k)
  {
    if draws != [] {
      assert draws[0] in draws && forall d :: d in draws[1..] ==> d in draws;
      TargetsAfterSources(draws[1..], k);
    }
  }

  lemma {:induction false} AllTargetsBefore(draws: seq<Draw>, k: nat)
    requires forall d :: d in draws ==> d.target < k
    ensures ByBefore(draws, k) == TotalDrawn(draws)
  {
    if draws != [] {
      assert draws[0] in draws && forall d :: d in draws[1..] ==> d in draws;
      AllTargetsBefore(draws[1..], k);
    }
  }

  lemma {:induction false} NoDrawsFrom(draws: seq<Draw>, i: nat)
    ensures (forall d :: d in draws ==> d.source != i) ==> DrawnFrom(draws, i) == 0
    ensures (forall d :: d in draws ==> d.target != i) ==> DrawnBy(draws, i) == 0
  {
    if draws != [] {
      assert draws[0] in draws && forall d :: d in draws[1..] ==> d in draws;
      NoDrawsFrom(draws[1..], i);
    }
  }

  lemma {:induction false} FromBeforeWithinInflow(s: seq<MoneyState>, account: nat, draws: seq<Draw>, k: nat)
    requires IsMatching(s, account, draws) && k <= |s|
    ensures FromBefore(draws, k) <= Inflow(s, account, k)
  {
    BeforeNext(draws, 0);
    if k > 0 {
      FromBeforeWithinInflow(s, account, draws, k - 1);
      BeforeNext(draws, k - 1);
      if !Takes(s, account, k - 1, In) {
        NoDrawsFrom(draws, k - 1);
      }
    }
  }

  /** The amount outflows k.. still have to go, bounded by what their draws leave. */
  lemma {:induction false} LaterOutflows(s: seq<MoneyState>, account: nat, draws: seq<Draw>, k: nat)
    requires IsMatching(s, account, draws) && k <= |s|
    ensures ByBefore(draws, |s|) - ByBefore(draws, k) <= Outflow(s, account, |s|) - Outflow(s, account, k)
    decreases |s| - k
  {
    if k < |s| {
      LaterOutflows(s, account, draws, k + 1);
      BeforeNext(draws, k);
      if !Takes(s, account, k, Out) {
        NoDrawsFrom(draws, k);
      }
    }
  }

  /** Any matching leaves at least the deficit unexplained; FIFO leaves exactly the deficit. */
  lemma FifoIsOptimal(s: seq<MoneyState>, account: nat, draws: seq<Draw>)
    requires IsMatching(s, account, draws)
    ensures Outflow(s, account, |s|) - TotalDrawn(draws) >= Deficit(s, account, |s|)
  {
    DeficitBounds(s, account, |s|);
    var k: nat :| 0 <= k <= |s| && Outflow(s, account, k) - Inflow(s, account, k) == Deficit(s, account, |s|);
    AllTargetsBefore(draws, |s|);
    LaterOutflows(s, account, draws, k);
    TargetsAfterSources(draws, k);
    FromBeforeWithinInflow(s, account, draws, k);
  }

  // ---------- FIFO is a matching ----------

  /** How far the stretches [a, b) and [c, d) overlap. */
  function Overlap(a: int, b: int, c: int, d: int): nat {
    Max(0, Min(b, d) - Max(a, c))
  }

  /** Lay all capacity of an account end to end, oldest first, and give each outflow the stretch it
      draws: outflow i takes from inflow j where their stretches overlap. */
  function Share(s: seq<MoneyState>, account: nat, i: nat, j: nat): nat
    requires i < |s| && j < |s|
  {
    Overlap(Drawn(s, account, i), Drawn(s, account, i + 1), Inflow(s, account, j), Inflow(s, account, j + 1))
  }

  /** The draws of outflow i on the inflows before j, and of the outflows before i on all earlier ones. */
  function DrawsOn(s: seq<MoneyState>, account: nat, i: nat, j: nat): seq<Draw>
    requires j <= i < |s|
  {
    if j == 0 || !Takes(s, account, i, Out) then []
    else if !Takes(s, account, j - 1, In) then DrawsOn(s, account, i, j - 1)
    else [Draw(i, j - 1, Share(s, account, i, j - 1))] + DrawsOn(s, account, i, j - 1)
  }

  function FifoDraws(s: seq<MoneyState>, account: nat, k: nat): seq<Draw>
    requires k <= |s|
  {
    if k == 0 then [] else DrawsOn(s, account, k - 1, k - 1) + FifoDraws(s, account, k - 1)
  }

  lemma {:induction false} DrawnConcat(a: seq<Draw>, b: seq<Draw>, i: nat)
    ensures DrawnFrom(a + b, i) == DrawnFrom(a, i) + DrawnFrom(b, i)
    ensures DrawnBy(a + b, i) == DrawnBy(a, i) + DrawnBy(b, i)
  {
    if a == [] {
      assert a + b == b;
    } else {
      DrawnConcat(a[1..], b, i);
      assert (a + b)[1..] == a[1..] + b;
    }
  }

  lemma OneDraw(d: Draw, i: nat)
    ensures DrawnFrom([d], i) == if d.source == i then d.quantity else 0
    ensures DrawnBy([d], i) == if d.target == i then d.quantity else 0
  {
    assert [d][1..] == [];
  }

  /** Two adjacent stretches overlap a third as their union does. */
  lemma OverlapsAdd(a: int, b: int, c: int, d: int, e: int)
    requires a <= b && c <= d <= e
    ensures Overlap(a, b, c, d) + Overlap(a, b, d, e) == Overlap(a, b, c, e)
    ensures Overlap(c, d, a, b) + Overlap(d, e, a, b) == Overlap(c, e, a, b)
  {
  }

  lemma {:induction false} DrawsOnSources(s: seq<MoneyState>, account: nat, i: nat, j: nat)
    requires j <= i < |s|
    ensures forall d :: d in DrawsOn(s, account, i, j) ==>
      d.source < j && d.target == i && Takes(s, account, d.source, In) && Takes(s, account, i, Out)
  {
    hide Share;
    if j > 0 {
      DrawsOnSources(s, account, i, j - 1);
    }
  }

  lemma {:induction false} DrawsOnTotals(s: seq<MoneyState>, account: nat, i: nat, j: nat, x: nat)
    requires j <= i < |s| && Takes(s, account, i, Out)
    ensures DrawnBy(DrawsOn(s, account, i, j), x)
         == if x == i then Overlap(Drawn(s, account, i), Drawn(s, account, i + 1), 0, Inflow(s, account, j)) else 0
    ensures DrawnFrom(DrawsOn(s, account, i, j), x)
         == if x < j && Takes(s, account, x, In) then Share(s, account, i, x) else 0
  {
    hide Drawn, Overlap, Share;
    DrawnMonotone(s, account, i, i + 1);
    if j == 0 {
      EmptyOverlap(Drawn(s, account, i), Drawn(s, account, i + 1), 0);
    } else {
      DrawsOnTotals(s, account, i, j - 1, x);
      if Takes(s, account, j - 1, In) {
        var d := Draw(i, j - 1, Share(s, account, i, j - 1));
        OneDraw(d, x);
        DrawnConcat([d], DrawsOn(s, account, i, j - 1), x);
        ShareWidens(s, account, i, j - 1);
      }
    }
  }

  lemma ShareWidens(s: seq<MoneyState>, account: nat, i: nat, j: nat)
    requires j < i < |s|
    ensures
      var from, upTo := Drawn(s, account, i), Drawn(s, account, i + 1);
      Share(s, account, i, j) + Overlap(from, upTo, 0, Inflow(s, account, j)) ==
          Overlap(from, upTo, 0, Inflow(s, account, j + 1))
  {
    DrawnMonotone(s, account, i, i + 1);
    OverlapsAdd(Drawn(s, account, i), Drawn(s, account, i + 1), 0, Inflow(s, account, j), Inflow(s, account, j + 1));
  }

  lemma EmptyOverlap(a: int, b: int, c: int)
    ensures a <= b ==> Overlap(a, b, c, c) == 0 && Overlap(c, c, a, b) == 0
  {
  }

  lemma NothingDrawnOn(s: seq<MoneyState>, account: nat, i: nat, j: nat)
    requires j <= i < |s| && !Takes(s, account, i, Out)
    ensures DrawsOn(s, account, i, j) == []
  {
  }

  lemma {:induction false} DrawnMonotone(s: seq<MoneyState>, account: nat, i: nat, k: nat)
    requires i <= k <= |s|
    ensures Drawn(s, account, i) <= Drawn(s, account, k)
  {
    if i < k {
      DrawnMonotone(s, account, i, k - 1);
      NextPosition(s, account, k - 1);
    }
  }

  lemma DrawnWithinInflow(s: seq<MoneyState>, account: nat, i: nat)
    requires i < |s| && Takes(s, account, i, Out)
    ensures Drawn(s, account, i) <= Drawn(s, account, i + 1) <= Inflow(s, account, i)
  {
    DrawnMonotone(s, account, i, i + 1);
  }

  /** The draws of one outflow. */
  lemma OutflowTotals(s: seq<MoneyState>, account: nat, i: nat, x: nat)
    requires i < |s| && x < |s|
    ensures forall d :: d in DrawsOn(s, account, i, i) ==>
      d.source < d.target == i && Takes(s, account, d.source, In) && Takes(s, account, d.target, Out)
    ensures DrawnBy(DrawsOn(s, account, i, i), x)
         == if x == i && Takes(s, account, i, Out) then Drawn(s, account, i + 1) - Drawn(s, account, i) else 0
    ensures DrawnFrom(DrawsOn(s, account, i, i), x)
         == if Takes(s, account, x, In) then Share(s, account, i, x) else 0
  {
    hide Drawn;
    DrawsOnSources(s, account, i, i);
    if Takes(s, account, i, Out) {
      DrawsOnTotals(s, account, i, i, x);
      DrawnWithinInflow(s, account, i);
      if x >= i {
        InflowMonotone(s, account, i, x);
      }
    } else {
      NothingDrawnOn(s, account, i, i);
      NextPosition(s, account, i);
      EmptyOverlap(Inflow(s, account, x), Inflow(s, account, x + 1), Drawn(s, account, i));
    }
  }

  /** The outflows before k have drawn on an inflow as far as all together reach into its stretch. */
  lemma {:induction false} FifoTotals(s: seq<MoneyState>, account: nat, k: nat, x: nat)
    requires k <= |s| && x < |s|
    ensures DrawnBy(FifoDraws(s, account, k), x)
         == if x < k && Takes(s, account, x, Out) then Drawn(s, account, x + 1) - Drawn(s, account, x) else 0
    ensures DrawnFrom(FifoDraws(s, account, k), x)
         == if Takes(s, account, x, In) then
              Overlap(0, Drawn(s, account, k), Inflow(s, account, x), Inflow(s, account, x + 1)) else 0
  {
    hide Drawn, Overlap, Share, DrawsOn, DrawnBy, DrawnFrom, Inflow;
    if k > 0 {
      FifoTotals(s, account, k - 1, x);
      OutflowTotals(s, account, k - 1, x);
      DrawnConcat(DrawsOn(s, account, k - 1, k - 1), FifoDraws(s, account, k - 1), x);
      ShareAdds(s, account, k - 1, x);
    } else {
      NothingDrawnYet(s, account, x);
    }
  }

  lemma ShareAdds(s: seq<MoneyState>, account: nat, i: nat, x: nat)
    requires i < |s| && x < |s|
    ensures Overlap(0, Drawn(s, account, i), Inflow(s, account, x), Inflow(s, account, x + 1)) + Share(s, account, i, x)
         == Overlap(0, Drawn(s, account, i + 1), Inflow(s, account, x), Inflow(s, account, x + 1))
  {
    DrawnMonotone(s, account, i, i + 1);
    OverlapsAdd(Inflow(s, account, x), Inflow(s, account, x + 1), 0, Drawn(s, account, i), Drawn(s, account, i + 1));
  }

  lemma NothingDrawnYet(s: seq<MoneyState>, account: nat, x: nat)
    requires x < |s|
    ensures DrawnBy([], x) == 0 && DrawnFrom([], x) == 0
    ensures Overlap(0, Drawn(s, account, 0), Inflow(s, account, x), Inflow(s, account, x + 1)) == 0
  {
    EmptyOverlap(Inflow(s, account, x), Inflow(s, account, x + 1), 0);
  }

  /** In terms of the matched states. */
  lemma DrawnIsMatched(s: seq<MoneyState>, account: nat, x: nat)
    requires x < |s|
    ensures Takes(s, account, x, Out) ==>
      Drawn(s, account, x + 1) - Drawn(s, account, x) == s[x].amount - Matched(s)[x].remaining
    ensures Takes(s, account, x, In) ==>
      Overlap(0, Drawn(s, account, |s|), Inflow(s, account, x), Inflow(s, account, x + 1))
      == s[x].remaining - Matched(s)[x].remaining
  {
  }

  /** Each outflow takes what the account's matching draws for it. */
  ghost predicate TakesItsShare(s: seq<MoneyState>, account: nat, draws: seq<Draw>) {
    forall x :: 0 <= x < |s| ==>
      DrawnBy(draws, x) == if Takes(s, account, x, Out) then Drawn(s, account, x + 1) - Drawn(s, account, x) else 0
  }

  lemma {:induction false} TotalUpTo(s: seq<MoneyState>, account: nat, draws: seq<Draw>, k: nat)
    requires k <= |s| && TakesItsShare(s, account, draws)
    ensures ByBefore(draws, k) == Drawn(s, account, k)
  {
    BeforeNext(draws, 0);
    if k > 0 {
      TotalUpTo(s, account, draws, k - 1);
      BeforeNext(draws, k - 1);
      NextPosition(s, account, k - 1);
    }
  }

  /** FIFO is a matching: outflows draw on earlier inflows only.  Every outflow takes exactly what
      the matched states say it has received, every inflow gives exactly what they say it has lost,
      and no matching leaves less unexplained. */
  lemma FifoIsMatching(s: seq<MoneyState>, account: nat)
    ensures
      var draws := FifoDraws(s, account, |s|);
      && IsMatching(s, account, draws)
      && (forall i ::
          0 <= i < |s| && Takes(s, account, i, Out) ==> DrawnBy(draws, i) == s[i].amount - Matched(s)[i].remaining)
      && (forall j ::
          0 <= j < |s| && Takes(s, account, j, In) ==> DrawnFrom(draws, j) == s[j].remaining - Matched(s)[j].remaining)
      && TotalDrawn(draws) == Outflow(s, account, |s|) - Deficit(s, account, |s|)
      && forall other :: IsMatching(s, account, other) ==> TotalDrawn(other) <= TotalDrawn(draws)
  {
    hide Drawn, Overlap, DrawsOn, Matched, Inflow, Outflow, Deficit;
    var draws := FifoDraws(s, account, |s|);
    forall x | 0 <= x < |s|
      ensures
        DrawnBy(draws, x) == if Takes(s, account, x, Out) then Drawn(s, account, x + 1) - Drawn(s, account, x) else 0
      ensures DrawnBy(draws, x) == if Takes(s, account, x, Out) then s[x].amount - Matched(s)[x].remaining else 0
      ensures DrawnFrom(draws, x) == if Takes(s, account, x, In) then s[x].remaining - Matched(s)[x].remaining else 0
    {
      FifoTotals(s, account, |s|, x);
      DrawnIsMatched(s, account, x);
    }
    FifoSources(s, account, |s|);
    AllTargetsBefore(draws, |s|);
    TotalUpTo(s, account, draws, |s|);
    DrawnTotal(s, account);
    forall other | IsMatching(s, account, other)
      ensures TotalDrawn(other) <= TotalDrawn(draws)
    {
      FifoIsOptimal(s, account, other);
    }
  }

  lemma DrawnTotal(s: seq<MoneyState>, account: nat)
    ensures Drawn(s, account, |s|) == Outflow(s, account, |s|) - Deficit(s, account, |s|)
  {
  }

  lemma {:induction false} FifoSources(s: seq<MoneyState>, account: nat, k: nat)
    requires k <= |s|
    ensures forall d :: d in FifoDraws(s, account, k) ==>
      d.source < d.target < k && Takes(s, account, d.source, In) && Takes(s, account, d.target, Out)
  {
    hide DrawsOn, Takes;
    if k > 0 {
      FifoSources(s, account, k - 1);
      OutflowTotals(s, account, k - 1, 0);
    }
  }

  // ---------- conservation and shape ----------

  /** What an account's inflows before k have given, according to matched states. */
  function Given(s: seq<MoneyState>, r: seq<MoneyState>, account: nat, k: nat): int
    requires k <= |s| == |r|
  {
    if k == 0 then 0
    else
      Given(s, r, account, k - 1)
      + if Takes(s, account, k - 1, In) then s[k - 1].remaining - r[k - 1].remaining else 0
  }

  /** What its outflows before k have received. */
  function Received(s: seq<MoneyState>, r: seq<MoneyState>, account: nat, k: nat): int
    requires k <= |s| == |r|
  {
    if k == 0 then 0
    else
      Received(s, r, account, k - 1)
      + if Takes(s, account, k - 1, Out) then s[k - 1].amount - r[k - 1].remaining else 0
  }

  lemma {:induction false} GivenUpTo(s: seq<MoneyState>, account: nat, k: nat)
    requires k <= |s|
    ensures Given(s, Matched(s), account, k) == Min(Drawn(s, account, |s|), Inflow(s, account, k))
  {
    if k > 0 {
      GivenUpTo(s, account, k - 1);
    }
  }

  lemma {:induction false} ReceivedUpTo(s: seq<MoneyState>, account: nat, k: nat)
    requires k <= |s|
    ensures Received(s, Matched(s), account, k) == Drawn(s, account, k)
  {
    if k > 0 {
      ReceivedUpTo(s, account, k - 1);
      NextPosition(s, account, k - 1);
    }
  }

  /** Per account, what is drawn from inflows equals what is matched to outflows. */
  lemma Conservation(s: seq<MoneyState>, account: nat)
    ensures Given(s, Matched(s), account, |s|) == Received(s, Matched(s), account, |s|)
         == Outflow(s, account, |s|) - Deficit(s, account, |s|)
  {
    GivenUpTo(s, account, |s|);
    ReceivedUpTo(s, account, |s|);
    DeficitBounds(s, account, |s|);
    assert Outflow(s, account, |s|) - Inflow(s, account, |s|) <= Deficit(s, account, |s|);
  }

  /** An inflow that was touched has only exhausted inflows before it: an exhausted prefix, at most
      one partly used inflow, an untouched suffix. */
  lemma OldestFirst(s: seq<MoneyState>, i: nat, j: nat)
    requires i < j < |s| && s[i].account == s[j].account && s[i].direction == In && s[j].direction == In
    ensures Matched(s)[j].remaining < s[j].remaining ==> Matched(s)[i].remaining == 0
    ensures Matched(s)[j].remaining <= s[j].remaining
  {
    InflowMonotone(s, s[i].account, i + 1, j);
  }

  lemma OutflowBounds(s: seq<MoneyState>, i: nat)
    requires i < |s| && s[i].direction == Out
    ensures 0 <= Matched(s)[i].remaining <= s[i].amount
  {
    NextPosition(s, s[i].account, i);
  }

  // ---------- ledgers ----------

  datatype Ledger = Ledger(opening: nat, incoming: nat, outgoing: nat, explained: nat, unexplained: nat, complete: bool)

  const EMPTY := Ledger(0, 0, 0, 0, 0, true)

  /** Saturating subtraction, as on decimal strings. */
  function Subtract(left: nat, right: nat): nat {
    if left < right then 0 else left - right
  }

  function Post(ledger: Ledger, state: MoneyState): Ledger {
    if state.direction == Out then
      Ledger(ledger.unexplained + state.remaining, ledger.incoming, ledger.outgoing + state.amount,
             ledger.explained + Subtract(state.amount, state.remaining), ledger.unexplained + state.remaining,
             ledger.complete && state.remaining == 0)
    else ledger.(incoming := ledger.incoming + state.amount)
  }

  function LedgerOf(states: seq<MoneyState>, account: nat, k: nat): Ledger
    requires k <= |states|
  {
    if k == 0 then EMPTY
    else if states[k - 1].account == account then Post(LedgerOf(states, account, k - 1), states[k - 1])
    else LedgerOf(states, account, k - 1)
  }

  method BuildLedgers(states: seq<MoneyState>) returns (ledgers: map<nat, Ledger>)
    ensures forall account: nat :: account in ledgers <==> exists i :: 0 <= i < |states| && states[i].account == account
    ensures forall account :: account in ledgers ==> ledgers[account] == LedgerOf(states, account, |states|)
  {
    ledgers := map[];
    for k := 0 to |states|
      invariant forall account: nat :: account in ledgers <==> exists i :: 0 <= i < k && states[i].account == account
      invariant forall account: nat ::
        LedgerOf(states, account, k) == if account in ledgers then ledgers[account] else EMPTY
    {
      var state := states[k];
      var ledger := if state.account in ledgers then ledgers[state.account] else EMPTY;
      if state.direction == Out {
        ledger := ledger.(outgoing := ledger.outgoing + state.amount,
            unexplained := ledger.unexplained + state.remaining);
        ledger := ledger.(opening := ledger.unexplained);
        ledger := ledger.(explained := ledger.explained + Subtract(state.amount, state.remaining));
        if state.remaining != 0 {
          ledger := ledger.(complete := false);
        }
      } else {
        ledger := ledger.(incoming := ledger.incoming + state.amount);
      }
      ledgers := ledgers[state.account := ledger];
    }
  }

  /** The reconciliation is complete when every ledger is. */
  predicate Reconciled(states: seq<MoneyState>) {
    forall i :: 0 <= i < |states| ==> LedgerOf(states, states[i].account, |states|).complete
  }

  method AllComplete(ghost states: seq<MoneyState>, ledgers: map<nat, Ledger>) returns (complete: bool)
    requires forall account: nat ::
      account in ledgers <==> exists i :: 0 <= i < |states| && states[i].account == account
    requires forall account :: account in ledgers ==> ledgers[account] == LedgerOf(states, account, |states|)
    ensures complete <==> Reconciled(states)
  {
    hide LedgerOf;
    complete := true;
    var left := ledgers.Keys;
    while left != {}
      invariant left <= ledgers.Keys && forall account ::
        account in ledgers && account !in left ==> ledgers[account].complete
      decreases |left|
    {
      var account :| account in left;
      left := left - {account};
      if !ledgers[account].complete {
        complete := false;
        break;
      }
    }
  }

  /** The amounts that came in, whatever was left of them. */
  function Incoming(s: seq<MoneyState>, account: nat, k: nat): nat
    requires k <= |s|
  {
    if k == 0 then 0 else Incoming(s, account, k - 1) + if Takes(s, account, k - 1, In) then s[k - 1].amount else 0
  }

  lemma NoDeficitYet(s: seq<MoneyState>, account: nat)
    ensures Deficit(s, account, 0) == 0
  {
  }

  lemma MatchedState(s: seq<MoneyState>, i: nat)
    requires i < |s|
    ensures Matched(s)[i] == s[i].(remaining := Matched(s)[i].remaining)
    ensures s[i].direction == Out ==>
      Matched(s)[i].remaining == Deficit(s, s[i].account, i + 1) - Deficit(s, s[i].account, i)
  {
  }

  /** A ledger of matched states: outgoing splits into explained and unexplained, the unexplained
      part and the opening balance are the deficit, and it is complete exactly without one. */
  lemma {:induction false} LedgerLaw(s: seq<MoneyState>, account: nat, k: nat)
    requires k <= |s|
    ensures LedgerOf(Matched(s), account, k) ==
      Ledger(Deficit(s, account, k), Incoming(s, account, k), Outflow(s, account, k),
             Outflow(s, account, k) - Deficit(s, account, k), Deficit(s, account, k), Deficit(s, account, k) == 0)
  {
    hide Matched, RemainingAt, Deficit;
    NoDeficitYet(s, account);
    if k > 0 {
      LedgerLaw(s, account, k - 1);
      NextPosition(s, account, k - 1);
      MatchedState(s, k - 1);
      if s[k - 1].direction == Out {
        OutflowBounds(s, k - 1);
      }
    }
  }

  ghost predicate AllUndrawn(s: seq<MoneyState>) {
    forall i :: 0 <= i < |s| && s[i].direction == In ==> s[i].remaining == s[i].amount
  }

  /** For fresh states the capacity that comes in is the incoming amount of the ledger. */
  lemma {:induction false} FreshInflow(s: seq<MoneyState>, account: nat, k: nat)
    requires AllUndrawn(s) && k <= |s|
    ensures Inflow(s, account, k) == Incoming(s, account, k)
  {
    if k > 0 {
      FreshInflow(s, account, k - 1);
    }
  }

  lemma {:induction false} NothingOut(s: seq<MoneyState>, account: nat, k: nat)
    requires k <= |s| && forall i :: 0 <= i < |s| ==> s[i].account != account
    ensures Outflow(s, account, k) == 0
  {
    if k > 0 {
      NothingOut(s, account, k - 1);
    }
  }

  /** A trace is reconciled if and only if no account ever gives out more than came in. */
  lemma ReconciledIsSolvent(s: seq<MoneyState>)
    ensures Reconciled(Matched(s)) <==> forall account: nat :: Solvent(s, account, 0)
  {
    hide Matched, LedgerOf, Solvent, Deficit;
    MatchedAccounts(s);
    forall account: nat
      ensures Solvent(s, account, 0) <==> LedgerOf(Matched(s), account, |s|).complete
      ensures (forall i :: 0 <= i < |s| ==> s[i].account != account) ==> Solvent(s, account, 0)
    {
      LeastOpening(s, account, 0);
      LedgerLaw(s, account, |s|);
      if forall i :: 0 <= i < |s| ==> s[i].account != account {
        NothingOut(s, account, |s|);
      }
    }
  }

  lemma MatchedAccounts(s: seq<MoneyState>)
    ensures |Matched(s)| == |s| && forall i :: 0 <= i < |s| ==> Matched(s)[i].account == s[i].account
  {
  }
}
