/** The matching and the ledgers in terms of blocks, over states in any order (internal/tracer/tracer.go,
    consumeMoneyStates and buildLedgers). */
module LedgerTime {
  import opened Fifo
  import opened Ledgers
  import opened Sorting

  /** What a state moves: an inflow its capacity, an outflow its amount. */
  function Quantity(x: MoneyState): nat {
    if x.direction == In then x.remaining else x.amount
  }

  /** What account and direction have moved in the blocks before `block`, and in that block by the first k of
      the n states. */
  function Moved(s: seq<MoneyState>, account: nat, d: Direction, block: nat, k: nat, n: nat): nat
    requires n <= |s|
  {
    if n == 0 then 0
    else
      var x := s[n - 1];
      Moved(s, account, d, block, k, n - 1)
      + if x.account == account && x.direction == d && (x.block < block || (x.block == block && n - 1 < k)) then
          Quantity(x)
        else 0
  }

  /** At every moment, by block and by order within the block, the account covers what it has given out. */
  ghost predicate SolventInTime(s: seq<MoneyState>, account: nat, opening: int) {
    forall block: nat, k: nat {:trigger Moved(s, account, In, block, k, |s|)} :: k <= |s| ==>
      opening + Moved(s, account, In, block, k, |s|) >= Moved(s, account, Out, block, k, |s|)
  }

  // ---------- sums ----------

  function Sum(value: MoneyState -> nat, s: seq<MoneyState>): nat {
    if s == [] then 0 else Sum(value, s[..|s| - 1]) + value(s[|s| - 1])
  }

  lemma {:induction false} SumConcat(value: MoneyState -> nat, a: seq<MoneyState>, b: seq<MoneyState>)
    ensures Sum(value, a + b) == Sum(value, a) + Sum(value, b)
  {
    if b == [] {
      assert a + b == a;
    } else {
      SumConcat(value, a, b[..|b| - 1]);
      assert (a + b)[..|a + b| - 1] == a + b[..|b| - 1];
    }
  }

  lemma {:induction false} SumInsert(value: MoneyState -> nat, x: MoneyState, s: seq<MoneyState>)
    ensures Sum(value, Insert(Less, x, s)) == Sum(value, s) + value(x)
  {
    if s == [] || !Less(x, s[|s| - 1]) {
      assert (s + [x])[..|s|] == s;
    } else {
      var front, last := s[..|s| - 1], s[|s| - 1];
      SumInsert(value, x, front);
      assert (Insert(Less, x, front) + [last])[..|s|] == Insert(Less, x, front);
    }
  }

  lemma {:induction false} SumSorted(value: MoneyState -> nat, s: seq<MoneyState>)
    ensures Sum(value, StableSort(s)) == Sum(value, s)
  {
    if s != [] {
      SumSorted(value, s[..|s| - 1]);
      SumInsert(value, s[|s| - 1], StableSort(s[..|s| - 1]));
    }
  }

  lemma {:induction false} SumSame(f: MoneyState -> nat, g: MoneyState -> nat, s: seq<MoneyState>)
    requires forall x :: x in s ==> f(x) == g(x)
    ensures Sum(f, s) == Sum(g, s)
  {
    if s != [] {
      assert s[|s| - 1] in s;
      SumSame(f, g, s[..|s| - 1]);
    }
  }

  lemma {:induction false} SumFiltered(
      f: MoneyState -> nat, g: MoneyState -> nat, keep: MoneyState -> bool, s: seq<MoneyState>)
    requires forall x :: g(x) == if keep(x) then f(x) else 0
    ensures Sum(f, Filter(keep, s)) == Sum(g, s)
  {
    if s != [] {
      var front, last := s[..|s| - 1], s[|s| - 1];
      SumFiltered(f, g, keep, front);
      SumConcat(f, Filter(keep, front), if keep(last) then [last] else []);
      assert keep(last) ==> [last][..0] == [];
    }
  }

  /** What a state moves of an account, in one direction. */
  function Value(account: nat, d: Direction): MoneyState -> nat {
    (x: MoneyState) => if x.account == account && x.direction == d then Quantity(x) else 0
  }

  function ValueBefore(account: nat, d: Direction, block: nat): MoneyState -> nat {
    (x: MoneyState) => if x.account == account && x.direction == d && x.block < block then Quantity(x) else 0
  }

  function ValueAt(account: nat, d: Direction, block: nat): MoneyState -> nat {
    (x: MoneyState) => if x.account == account && x.direction == d && x.block == block then Quantity(x) else 0
  }

  function Same(account: nat, block: nat): MoneyState -> bool {
    (x: MoneyState) => x.account == account && x.block == block
  }

  lemma {:induction false} TotalsAreSums(t: seq<MoneyState>, account: nat, p: nat)
    requires p <= |t|
    ensures Inflow(t, account, p) == Sum(Value(account, In), t[..p])
    ensures Outflow(t, account, p) == Sum(Value(account, Out), t[..p])
  {
    if p > 0 {
      TotalsAreSums(t, account, p - 1);
      assert t[..p][..p - 1] == t[..p - 1];
    }
  }

  lemma {:induction false} MovedIsSum(s: seq<MoneyState>, account: nat, d: Direction, block: nat, k: nat, n: nat)
    requires n <= |s|
    ensures Moved(s, account, d, block, k, n) ==
      Sum(ValueBefore(account, d, block), s[..n]) + Sum(ValueAt(account, d, block), s[..Min(n, k)])
  {
    if n > 0 {
      MovedIsSum(s, account, d, block, k, n - 1);
      assert s[..n][..n - 1] == s[..n - 1];
    }
  }

  // ---------- where a block begins in the sorted states ----------

  predicate IsBefore(x: MoneyState, account: nat, block: nat) {
    x.account < account || (x.account == account && x.block < block)
  }

  function Begin(t: seq<MoneyState>, account: nat, block: nat): (p: nat)
    ensures p <= |t|
  {
    if t == [] || !IsBefore(t[0], account, block) then 0 else 1 + Begin(t[1..], account, block)
  }

  lemma {:induction false} BeginSplits(t: seq<MoneyState>, account: nat, block: nat)
    requires InBlockOrder(t)
    ensures var p := Begin(t, account, block);
      && (forall i :: 0 <= i < p ==> IsBefore(t[i], account, block))
      && (forall i :: p <= i < |t| ==> !IsBefore(t[i], account, block))
  {
    if t != [] && IsBefore(t[0], account, block) {
      BeginSplits(t[1..], account, block);
      assert t == [t[0]] + t[1..];
    }
  }

  /** Where the states of one account and block stand in the sorted sequence. */
  lemma BlockStretch(t: seq<MoneyState>, account: nat, block: nat)
    requires InBlockOrder(t)
    ensures
      var lo, hi := Begin(t, account, block), Begin(t, account, block + 1);
      && lo <= hi && forall i :: 0 <= i < |t| ==> (lo <= i < hi <==> t[i].account == account && t[i].block == block)
  {
    BeginSplits(t, account, block);
    BeginSplits(t, account, block + 1);
    var lo, hi := Begin(t, account, block), Begin(t, account, block + 1);
    assert lo > hi ==> IsBefore(t[hi], account, block);
  }

  lemma {:induction false} FilterStretch(keep: MoneyState -> bool, t: seq<MoneyState>, lo: nat, hi: nat)
    requires lo <= hi <= |t| && forall i :: 0 <= i < |t| ==> (lo <= i < hi <==> keep(t[i]))
    ensures Filter(keep, t) == t[lo..hi]
  {
    if t != [] {
      var n := |t| - 1;
      FilterStretch(keep, t[..n], Min(lo, n), Min(hi, n));
      assert keep(t[n]) <==> lo <= n < hi;
      if hi == |t| && lo < hi {
        assert t[lo..hi] == t[..n][lo..n] + [t[n]];
      } else if hi < |t| {
        assert t[lo..hi] == t[..n][lo..hi];
      }
    }
  }

  /** They are those states, in the order in which they came. */
  lemma BlockInPlace(s: seq<MoneyState>, account: nat, block: nat)
    ensures
      var t := StableSort(s);
      var lo, hi := Begin(t, account, block), Begin(t, account, block + 1);
      lo <= hi && t[lo..hi] == Filter(Same(account, block), s)
  {
    var t, keep := StableSort(s), Same(account, block);
    StableSortSound(s, account, block);
    BlockStretch(t, account, block);
    FilterStretch(keep, t, Begin(t, account, block), Begin(t, account, block + 1));
    SortStable(Less, s, keep);
  }

  /** The position in the sorted states of a moment. */
  function PlaceOf(s: seq<MoneyState>, account: nat, block: nat, k: nat): nat
    requires k <= |s|
  {
    Begin(StableSort(s), account, block) + |Filter(Same(account, block), s[..k])|
  }

  lemma BeforeBegin(t: seq<MoneyState>, account: nat, d: Direction, block: nat)
    requires InBlockOrder(t)
    ensures Sum(Value(account, d), t[..Begin(t, account, block)]) == Sum(ValueBefore(account, d, block), t)
  {
    BeginSplits(t, account, block);
    var p := Begin(t, account, block);
    assert t == t[..p] + t[p..];
    SumConcat(ValueBefore(account, d, block), t[..p], t[p..]);
    SumSame(Value(account, d), ValueBefore(account, d, block), t[..p]);
    SumSame(ValueBefore(account, d, block), _ => 0, t[p..]);
    SumNothing(t[p..]);
  }

  lemma {:induction false} SumNothing(s: seq<MoneyState>)
    ensures Sum(_ => 0, s) == 0
  {
    if s != [] {
      SumNothing(s[..|s| - 1]);
    }
  }

  lemma UpToPlace(s: seq<MoneyState>, account: nat, block: nat, k: nat)
    requires k <= |s|
    ensures
      var t, p := StableSort(s), PlaceOf(s, account, block, k);
      p <= |t| && t[..p] == t[..Begin(t, account, block)] + Filter(Same(account, block), s[..k])
  {
    BlockInPlace(s, account, block);
    FilterConcat(Same(account, block), s[..k], s[k..]);
    assert s == s[..k] + s[k..];
    hide Sort, Filter, Begin;
    var t, lo, p := StableSort(s), Begin(StableSort(s), account, block), PlaceOf(s, account, block, k);
    var here := t[lo..Begin(t, account, block + 1)];
    assert here[..p - lo] == Filter(Same(account, block), s[..k]);
    assert t[lo..p] == here[..p - lo];
    assert t[..p] == t[..lo] + t[lo..p];
  }

  lemma SumUpToPlace(s: seq<MoneyState>, account: nat, d: Direction, block: nat, k: nat)
    requires k <= |s|
    ensures PlaceOf(s, account, block, k) <= |s|
    ensures
      Sum(Value(account, d), StableSort(s)[..PlaceOf(s, account, block, k)]) == Moved(s, account, d, block, k, |s|)
  {
    hide Sort, Filter, Sum, Begin, Moved, PlaceOf, InBlockOrder;
    var t := StableSort(s);
    UpToPlace(s, account, block, k);
    SumConcat(Value(account, d), t[..Begin(t, account, block)], Filter(Same(account, block), s[..k]));
    StableSortSound(s, account, block);
    BeforeBegin(t, account, d, block);
    SumSorted(ValueBefore(account, d, block), s);
    SumFiltered(Value(account, d), ValueAt(account, d, block), Same(account, block), s[..k]);
    MovedIsSum(s, account, d, block, k, |s|);
    assert s[..|s|] == s;
  }

  /** Every moment is a position in the sorted states. */
  lemma MomentIsPosition(s: seq<MoneyState>, account: nat, block: nat, k: nat)
    requires k <= |s|
    ensures
      var t, p := StableSort(s), PlaceOf(s, account, block, k);
      && p <= |t|
      && Inflow(t, account, p) == Moved(s, account, In, block, k, |s|)
      && Outflow(t, account, p) == Moved(s, account, Out, block, k, |s|)
  {
    SumUpToPlace(s, account, In, block, k);
    SumUpToPlace(s, account, Out, block, k);
    TotalsAreSums(StableSort(s), account, PlaceOf(s, account, block, k));
  }

  lemma {:induction false} FilterGrowsByOne(keep: MoneyState -> bool, s: seq<MoneyState>, m: nat) returns (k: nat)
    requires m <= |Filter(keep, s)|
    ensures k <= |s| && |Filter(keep, s[..k])| == m
  {
    k := |s|;
    assert s[..k] == s;
    if s != [] && m < |Filter(keep, s)| {
      k := FilterGrowsByOne(keep, s[..|s| - 1], m);
      assert s[..|s| - 1][..k] == s[..k];
    }
  }

  lemma PlaceIsMoment(s: seq<MoneyState>, account: nat, p: nat) returns (k: nat)
    requires 0 < p <= |s| && StableSort(s)[p - 1].account == account
    ensures k <= |s| && PlaceOf(s, account, StableSort(s)[p - 1].block, k) == p
  {
    var t := StableSort(s);
    var block := t[p - 1].block;
    StableSortSound(s, account, block);
    BlockStretch(t, account, block);
    BlockInPlace(s, account, block);
    hide Sort, Filter, Begin, InBlockOrder;
    k := FilterGrowsByOne(Same(account, block), s, p - Begin(t, account, block));
  }

  /** Every position in the sorted states is a moment. */
  lemma {:induction false} PositionIsMoment(s: seq<MoneyState>, account: nat, p: nat) returns (block: nat, k: nat)
    requires p <= |s|
    ensures k <= |s|
    ensures Inflow(StableSort(s), account, p) == Moved(s, account, In, block, k, |s|)
    ensures Outflow(StableSort(s), account, p) == Moved(s, account, Out, block, k, |s|)
  {
    var t := StableSort(s);
    if p == 0 {
      block, k := 0, 0;
      NothingMoved(s, account, In, |s|);
      NothingMoved(s, account, Out, |s|);
    } else if t[p - 1].account != account {
      block, k := PositionIsMoment(s, account, p - 1);
    } else {
      block := t[p - 1].block;
      k := PlaceIsMoment(s, account, p);
      MomentIsPosition(s, account, block, k);
    }
  }

  lemma {:induction false} NothingMoved(s: seq<MoneyState>, account: nat, d: Direction, n: nat)
    requires n <= |s|
    ensures Moved(s, account, d, 0, 0, n) == 0
  {
    if n > 0 {
      NothingMoved(s, account, d, n - 1);
    }
  }

  // ---------- the ledger of the unsorted states ----------

  lemma SortedIsSolvent(s: seq<MoneyState>, account: nat, opening: int)
    ensures SolventInTime(s, account, opening) <==> Solvent(StableSort(s), account, opening)
  {
    hide Inflow, Outflow, Moved, StableSort;
    var t := StableSort(s);
    if Solvent(t, account, opening) {
      forall block: nat, k: nat | k <= |s|
        ensures opening + Moved(s, account, In, block, k, |s|) >= Moved(s, account, Out, block, k, |s|)
      {
        MomentIsPosition(s, account, block, k);
      }
    }
    if SolventInTime(s, account, opening) {
      forall p | 0 <= p <= |t|
        ensures opening + Inflow(t, account, p) - Outflow(t, account, p) >= 0
      {
        var block, k := PositionIsMoment(s, account, p);
      }
    }
  }

  /** The opening balance of a ledger, which is its unexplained amount, is the least with which the account
      covers all it gives out in the order of blocks; the ledger is complete if that is nothing. */
  lemma LeastOpeningInTime(s: seq<MoneyState>, account: nat, opening: int)
    ensures
      var ledger := LedgerOf(Matched(StableSort(s)), account, |s|);
      && (SolventInTime(s, account, opening) <==> opening >= ledger.opening)
      && ledger.unexplained == ledger.opening && (ledger.complete <==> SolventInTime(s, account, 0))
  {
    hide Matched, StableSort, LedgerOf, Solvent, SolventInTime, Deficit;
    var t := StableSort(s);
    SortedIsSolvent(s, account, opening);
    SortedIsSolvent(s, account, 0);
    LeastOpening(t, account, opening);
    LeastOpening(t, account, 0);
    LedgerLaw(t, account, |t|);
  }

  /** With that balance the account covers what it gives out, and with no smaller one. */
  ghost predicate IsLeastOpening(s: seq<MoneyState>, account: nat, opening: nat) {
    SolventInTime(s, account, opening) && forall less: int :: SolventInTime(s, account, less) ==> opening <= less
  }

  lemma OpeningIsLeast(s: seq<MoneyState>, account: nat)
    ensures IsLeastOpening(s, account, LedgerOf(Matched(StableSort(s)), account, |s|).opening)
  {
    hide SolventInTime, Matched, StableSort, LedgerOf;
    var opening := LedgerOf(Matched(StableSort(s)), account, |s|).opening;
    LeastOpeningInTime(s, account, opening);
    forall less: int | SolventInTime(s, account, less)
      ensures opening <= less
    {
      LeastOpeningInTime(s, account, less);
    }
  }

  /** The opening balances of the ledgers are the least, and the trace is reconciled when none is needed. */
  ghost predicate BooksInTime(s: seq<MoneyState>, ledgers: map<nat, Ledger>, reconciled: bool) {
    && (forall account :: account in ledgers ==> IsLeastOpening(s, account, ledgers[account].opening))
    && (reconciled <==> forall account: nat :: SolventInTime(s, account, 0))
  }

  /** Matched states are reconciled exactly when no account needs an opening balance. */
  lemma ReconciledInTime(s: seq<MoneyState>)
    ensures Reconciled(Matched(StableSort(s))) <==> forall account: nat :: SolventInTime(s, account, 0)
  {
    hide Matched, StableSort, Solvent, SolventInTime, Reconciled;
    ReconciledIsSolvent(StableSort(s));
    forall account: nat
      ensures SolventInTime(s, account, 0) <==> Solvent(StableSort(s), account, 0)
    {
      SortedIsSolvent(s, account, 0);
    }
  }

  lemma BooksAreInTime(s: seq<MoneyState>, ledgers: map<nat, Ledger>, reconciled: bool)
    requires forall account ::
      account in ledgers ==> ledgers[account] == LedgerOf(Matched(StableSort(s)), account, |Matched(StableSort(s))|)
    requires reconciled <==> Reconciled(Matched(StableSort(s)))
    ensures BooksInTime(s, ledgers, reconciled)
  {
    hide Matched, StableSort, LedgerOf, Solvent, SolventInTime, Reconciled, IsLeastOpening;
    ReconciledInTime(s);
    forall account: nat
      ensures account in ledgers ==> IsLeastOpening(s, account, ledgers[account].opening)
    {
      OpeningIsLeast(s, account);
    }
  }

  /** No draw takes from an inflow of a later block than its outflow, and money of an earlier block goes first. */
  lemma DrawsInTime(s: seq<MoneyState>, account: nat)
    ensures
      var t := StableSort(s);
      && (forall d :: d in FifoDraws(t, account, |t|) ==>
            && d.source < |t| && d.target < |t|
            && t[d.source].account == t[d.target].account == account
            && t[d.source].direction == In && t[d.target].direction == Out
            && t[d.source].block <= t[d.target].block)
      && (forall i, j ::
          (0 <= i < |t| && 0 <= j < |t| && Takes(t, account, i, In) && Takes(t, account, j, In)
          && t[i].block < t[j].block && Matched(t)[j].remaining < t[j].remaining) ==> Matched(t)[i].remaining == 0)
  {
    var t := StableSort(s);
    StableSortSound(s, account, 0);
    FifoSources(t, account, |t|);
    hide Matched, StableSort;
    forall i, j | 0 <= i < |t| && 0 <= j < |t| && Takes(t, account, i, In) && Takes(t, account, j, In)
      && t[i].block < t[j].block && Matched(t)[j].remaining < t[j].remaining
      ensures Matched(t)[i].remaining == 0
    {
      OldestFirst(t, i, j);
    }
  }
}
