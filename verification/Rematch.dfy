/** Matching money states that are matched already, as every merge does
    (internal/tracer/extension.go, MergeResults; internal/tracer/tracer.go, consumeMoneyStates).

    A matched inflow offers only what it has left, while a matched outflow asks for its full amount
    again. */
module Rematch {
  import opened Fifo
  import opened Sorting
  import opened Ledgers
  import opened Merge
  import opened MergeResult

  // ---------- states that offer less ----------

  /** The same states, inflows with no more left. */
  ghost predicate Poorer(t: seq<MoneyState>, u: seq<MoneyState>) {
    && |t| == |u|
    && forall i :: 0 <= i < |t| ==>
         && t[i] == u[i].(remaining := t[i].remaining)
         && (t[i].direction == In ==> t[i].remaining <= u[i].remaining)
  }

  lemma {:induction false} PoorerFlows(t: seq<MoneyState>, u: seq<MoneyState>, account: nat, k: nat)
    requires Poorer(t, u) && k <= |t|
    ensures Inflow(t, account, k) <= Inflow(u, account, k)
    ensures Outflow(t, account, k) == Outflow(u, account, k)
    ensures Incoming(t, account, k) == Incoming(u, account, k)
    ensures Deficit(t, account, k) >= Deficit(u, account, k)
  {
    if k > 0 {
      PoorerFlows(t, u, account, k - 1);
    }
  }

  /** What flowed out at each moment, less what the poorer inflows offered by then, stays within the
      deficit there was. */
  ghost predicate StillCovered(t: seq<MoneyState>, u: seq<MoneyState>, account: nat)
    requires |t| == |u|
  {
    forall k {:trigger Inflow(t, account, k)} :: 0 <= k <= |u| ==>
      Outflow(u, account, k) - Inflow(t, account, k) <= Deficit(u, account, |u|)
  }

  /** An account's ledger is the same for poorer inflows if and only if they still cover it;
      otherwise more of it is unexplained. */
  lemma PoorerLedger(t: seq<MoneyState>, u: seq<MoneyState>, account: nat)
    requires Poorer(t, u)
    ensures
      var poorer, richer := LedgerOf(Matched(t), account, |t|), LedgerOf(Matched(u), account, |u|);
      && poorer.incoming == richer.incoming && poorer.outgoing == richer.outgoing
      && richer.unexplained <= poorer.unexplained
      && (poorer == richer <==> StillCovered(t, u, account))
  {
    hide Deficit, Matched, LedgerOf, Poorer;
    assert |t| == |u| by { SameLength(t, u); }
    PoorerFlows(t, u, account, |t|);
    LedgerLaw(t, account, |t|);
    LedgerLaw(u, account, |u|);
    DeficitBounds(t, account, |t|);
    forall k | 0 <= k <= |t|
      ensures Outflow(t, account, k) == Outflow(u, account, k)
    {
      PoorerFlows(t, u, account, k);
    }
    if StillCovered(t, u, account) {
      var j: nat :| 0 <= j <= |t| && Outflow(t, account, j) - Inflow(t, account, j) == Deficit(t, account, |t|);
      assert Outflow(u, account, j) - Inflow(t, account, j) <= Deficit(u, account, |u|);
    } else {
      var j: nat :| 0 <= j <= |u| && Outflow(u, account, j) - Inflow(t, account, j) > Deficit(u, account, |u|);
      assert Outflow(t, account, j) - Inflow(t, account, j) <= Deficit(t, account, |t|);
    }
  }

  lemma SameLength(t: seq<MoneyState>, u: seq<MoneyState>)
    requires Poorer(t, u)
    ensures |t| == |u|
  {
  }

  lemma MatchedIsPoorer(s: seq<MoneyState>)
    ensures Poorer(Matched(s), s)
  {
  }

  // ---------- matching once more ----------

  /** What matched inflows still offer before position k. */
  lemma {:induction false} InflowLeft(s: seq<MoneyState>, account: nat, k: nat)
    requires k <= |s|
    ensures Inflow(Matched(s), account, k) == Max(0, Inflow(s, account, k) - Drawn(s, account, |s|))
  {
    hide Drawn;
    if k > 0 {
      InflowLeft(s, account, k - 1);
      MatchedState(s, k - 1);
    }
  }

  /** At every moment the inflows left over by then, and the opening balance, could pay all outflows
      so far once more. */
  ghost predicate PaysAgain(s: seq<MoneyState>, account: nat) {
    forall k {:trigger Inflow(s, account, k)} :: 0 <= k <= |s| ==>
      Outflow(s, account, k) - Max(0, Inflow(s, account, k) - Drawn(s, account, |s|)) <= Deficit(s, account, |s|)
  }

  lemma PaysAgainIsCovered(s: seq<MoneyState>, account: nat)
    ensures PaysAgain(s, account) <==> StillCovered(Matched(s), s, account)
  {
    hide Deficit, Matched, Drawn, Outflow, Inflow;
    forall k {:trigger Inflow(Matched(s), account, k)} | 0 <= k <= |s|
      ensures Inflow(Matched(s), account, k) == Max(0, Inflow(s, account, k) - Drawn(s, account, |s|))
    {
      InflowLeft(s, account, k);
    }
    if PaysAgain(s, account) {
      forall k {:trigger Inflow(Matched(s), account, k)} | 0 <= k <= |s|
        ensures Outflow(s, account, k) - Inflow(Matched(s), account, k) <= Deficit(s, account, |s|)
      {
        assert Inflow(s, account, k) >= 0;
      }
    }
    if StillCovered(Matched(s), s, account) {
      forall k {:trigger Inflow(s, account, k)} | 0 <= k <= |s|
        ensures
          Outflow(s, account, k) - Max(0, Inflow(s, account, k) - Drawn(s, account, |s|)) <= Deficit(s, account, |s|)
      {
        assert Inflow(Matched(s), account, k) >= 0;
      }
    }
  }

  /** The ledger of an account survives a second matching if and only if its leftovers could pay all
      over again; otherwise more of it is unexplained. */
  lemma RematchLedger(s: seq<MoneyState>, account: nat)
    ensures
      var twice, once := LedgerOf(Matched(Matched(s)), account, |s|), LedgerOf(Matched(s), account, |s|);
      && (twice == once <==> PaysAgain(s, account))
      && once.unexplained <= twice.unexplained && once.outgoing == twice.outgoing
  {
    MatchedIsPoorer(s);
    PaysAgainIsCovered(s, account);
    PoorerLedger(Matched(s), s, account);
  }

  // ---------- merging an extension ----------

  /** Two sorts that compare alike give lists that correspond alike. */
  lemma {:induction false} InsertPoorer(x: MoneyState, y: MoneyState, t: seq<MoneyState>, u: seq<MoneyState>)
    requires Poorer(t, u) && Poorer([x], [y])
    ensures Poorer(Insert(Less, x, t), Insert(Less, y, u))
  {
    assert [x][0] == x && [y][0] == y;
    if t != [] && Less(x, t[|t| - 1]) {
      InsertPoorer(x, y, t[..|t| - 1], u[..|u| - 1]);
    }
  }

  lemma {:induction false} SortPoorer(t: seq<MoneyState>, u: seq<MoneyState>)
    requires Poorer(t, u)
    ensures Poorer(StableSort(t), StableSort(u))
  {
    if t != [] {
      SortPoorer(t[..|t| - 1], u[..|u| - 1]);
      InsertPoorer(t[|t| - 1], u[|u| - 1], StableSort(t[..|t| - 1]), StableSort(u[..|u| - 1]));
    }
  }

  /** What a merge appends to the root's money states. */
  function Added(root: seq<MoneyState>, extra: seq<MoneyState>): seq<MoneyState> {
    var all := AppendUnique(MoneyKey, root, extra);
    if |root| <= |all| then all[|root|..] else []
  }

  lemma MergeAppends(root: seq<MoneyState>, extra: seq<MoneyState>)
    ensures MergeMoney(root, extra) == Matched(StableSort(root + Added(root, extra)))
    ensures forall m :: m in Added(root, extra) ==> m in extra
  {
    AppendUniqueSound(MoneyKey, root, extra);
    assert AppendUnique(MoneyKey, root, extra) == root + Added(root, extra);
  }

  /** Merging into matched states, against one matching of all states as they were: no account gains.
      Its ledger is the same if and only if what the inflows offer now, those of the root only what
      they have left, still covers it; otherwise explained outflows turn unexplained. */
  lemma MergedLedger(s: seq<MoneyState>, extra: seq<MoneyState>, account: nat)
    ensures
      var added := Added(Matched(s), extra);
      var t, u := StableSort(Matched(s) + added), StableSort(s + added);
      var merged := LedgerOf(MergeMoney(Matched(s), extra), account, |MergeMoney(Matched(s), extra)|);
      var once := LedgerOf(Matched(u), account, |u|);
      && |t| == |u|
      && merged.incoming == once.incoming && merged.outgoing == once.outgoing
      && once.unexplained <= merged.unexplained
      && (merged == once <==> StillCovered(t, u, account))
  {
    var added := Added(Matched(s), extra);
    MergeAppends(Matched(s), extra);
    MatchedIsPoorer(s);
    SortPoorer(Matched(s) + added, s + added);
    PoorerLedger(StableSort(Matched(s) + added), StableSort(s + added), account);
  }

  // ---------- accounts the extension does not touch ----------

  lemma LessIsWeak()
    ensures WeakOrder(Less)
  {
  }

  /** Inserting and keeping some elements may be done in either order. */
  lemma {:induction false} InsertFilter<T(!new)>(less: (T, T) -> bool, keep: T -> bool, x: T, s: seq<T>)
    requires WeakOrder(less) && Ordered(less, s)
    ensures Filter(keep, Insert(less, x, s))
         == if keep(x) then Insert(less, x, Filter(keep, s)) else Filter(keep, s)
  {
    if s == [] || !less(x, s[|s| - 1]) {
      assert (s + [x])[..|s|] == s;
      var kept := Filter(keep, s);
      if kept != [] {
        FilterMembers(keep, s, kept[|kept| - 1]);
        assert kept[|kept| - 1] in s;
        var i :| 0 <= i < |s| && s[i] == kept[|kept| - 1];
        assert i == |s| - 1 || !less(s[|s| - 1], s[i]);
        assert !less(x, s[i]);
      }
    } else {
      var front, last := s[..|s| - 1], s[|s| - 1];
      InsertFilter(less, keep, x, front);
      assert (Insert(less, x, front) + [last])[..|s|] == Insert(less, x, front);
      if keep(last) {
        assert (Filter(keep, front) + [last])[..|Filter(keep, front)|] == Filter(keep, front);
      } else {
        assert Filter(keep, s) == Filter(keep, front);
        assert Filter(keep, Insert(less, x, front) + [last]) == Filter(keep, Insert(less, x, front));
      }
    }
  }

  lemma {:induction false} SortFilter<T(!new)>(less: (T, T) -> bool, keep: T -> bool, s: seq<T>)
    requires WeakOrder(less)
    ensures Filter(keep, Sort(less, s)) == Sort(less, Filter(keep, s))
  {
    if s != [] {
      var front, last := s[..|s| - 1], s[|s| - 1];
      SortFilter(less, keep, front);
      SortOrdered(less, front);
      InsertFilter(less, keep, last, Sort(less, front));
      if keep(last) {
        assert (Filter(keep, front) + [last])[..|Filter(keep, front)|] == Filter(keep, front);
      } else {
        assert Filter(keep, s) == Filter(keep, front);
      }
    }
  }

  lemma {:induction false} FilterNone<T>(keep: T -> bool, s: seq<T>)
    requires forall x :: x in s ==> !keep(x)
    ensures Filter(keep, s) == []
  {
    if s != [] {
      FilterNone(keep, s[..|s| - 1]);
    }
  }

  function OfAccount(account: nat): MoneyState -> bool {
    (m: MoneyState) => m.account == account
  }

  lemma {:induction false} FlowsOfPrefix(s: seq<MoneyState>, account: nat, n: nat, k: nat)
    requires k <= n <= |s|
    ensures Inflow(s[..n], account, k) == Inflow(s, account, k) && Outflow(s[..n], account, k) == Outflow(s, account, k)
    ensures Incoming(s[..n], account, k) == Incoming(s, account, k)
    ensures Deficit(s[..n], account, k) == Deficit(s, account, k)
  {
    if k > 0 {
      FlowsOfPrefix(s, account, n, k - 1);
    }
  }

  datatype Totals = Totals(inflow: nat, outflow: nat, incoming: nat, deficit: nat)

  function TotalsOf(s: seq<MoneyState>, account: nat): Totals {
    Totals(Inflow(s, account, |s|), Outflow(s, account, |s|), Incoming(s, account, |s|), Deficit(s, account, |s|))
  }

  /** One more state of the account. */
  function Add(t: Totals, m: MoneyState): Totals {
    var inflow := t.inflow + if m.direction == In then m.remaining else 0;
    var outflow := t.outflow + if m.direction == Out then m.amount else 0;
    Totals(inflow, outflow, t.incoming + (if m.direction == In then m.amount else 0), Max(t.deficit, outflow - inflow))
  }

  lemma TotalsSnoc(s: seq<MoneyState>, m: MoneyState, account: nat)
    ensures m.account == account ==> TotalsOf(s + [m], account) == Add(TotalsOf(s, account), m)
    ensures m.account != account ==> TotalsOf(s + [m], account) == TotalsOf(s, account)
  {
    var n := |s|;
    assert (s + [m])[..n] == s;
    FlowsOfPrefix(s + [m], account, n, n);
    if m.account != account {
      AnotherAccount(s + [m], account, n);
    }
  }

  /** Only the states of an account count for its ledger. */
  lemma {:induction false} TotalsOfAccount(s: seq<MoneyState>, account: nat)
    ensures TotalsOf(Filter(OfAccount(account), s), account) == TotalsOf(s, account)
  {
    hide TotalsOf, Add;
    if s != [] {
      var front, m := s[..|s| - 1], s[|s| - 1];
      var own := Filter(OfAccount(account), front);
      assert s == front + [m];
      TotalsOfAccount(front, account);
      TotalsSnoc(front, m, account);
      TotalsSnoc(own, m, account);
      assert Filter(OfAccount(account), s) == if m.account == account then own + [m] else own;
    }
  }

  lemma AnotherAccount(s: seq<MoneyState>, account: nat, k: nat)
    requires k < |s| && s[k].account != account
    ensures Inflow(s, account, k + 1) == Inflow(s, account, k) && Outflow(s, account, k + 1) == Outflow(s, account, k)
    ensures Incoming(s, account, k + 1) == Incoming(s, account, k)
    ensures Deficit(s, account, k + 1) == Deficit(s, account, k)
  {
    NextPosition(s, account, k);
  }

  /** An account that gets no new states has its states matched once more, no less: its ledger after
      the merge is the one RematchLedger speaks about. */
  lemma UntouchedLedger(s: seq<MoneyState>, extra: seq<MoneyState>, account: nat)
    requires InBlockOrder(s) && forall m :: m in extra ==> m.account != account
    ensures
      var merged := MergeMoney(Matched(s), extra);
      LedgerOf(merged, account, |merged|) == LedgerOf(Matched(Matched(s)), account, |s|)
  {
    var r, added, keep := Matched(s), Added(Matched(s), extra), OfAccount(account);
    var t := StableSort(r + added);
    MergeAppends(r, extra);
    LessIsWeak();
    MatchedOrdered(s);
    SortFilter(Less, keep, r + added);
    FilterConcat(keep, r, added);
    FilterNone(keep, added);
    assert Filter(keep, r) + [] == Filter(keep, r);
    SortFilter(Less, keep, r);
    TotalsOfAccount(t, account);
    TotalsOfAccount(r, account);
    LedgerLaw(t, account, |t|);
    LedgerLaw(r, account, |r|);
  }

  // ---------- the states themselves ----------

  lemma {:induction false} SameFlows(s: seq<MoneyState>, t: seq<MoneyState>, account: nat, k: nat)
    requires |s| == |t| && k <= |s|
    requires forall i ::
      0 <= i < |s| ==> s[i] == t[i] || (s[i].direction == Out && s[i] == t[i].(remaining := s[i].remaining))
    ensures Inflow(s, account, k) == Inflow(t, account, k) && Outflow(s, account, k) == Outflow(t, account, k)
    ensures Deficit(s, account, k) == Deficit(t, account, k)
  {
    if k > 0 {
      SameFlows(s, t, account, k - 1);
    }
  }

  ghost predicate NothingExplained(s: seq<MoneyState>) {
    forall i :: 0 <= i < |s| && s[i].direction == Out ==> s[i].remaining == s[i].amount
  }

  lemma {:induction false} GivenNothing(s: seq<MoneyState>, account: nat, k: nat)
    requires k <= |s|
    ensures Given(s, s, account, k) == 0
  {
    if k > 0 {
      GivenNothing(s, account, k - 1);
    }
  }

  lemma {:induction false} ReceivedTerms(s: seq<MoneyState>, account: nat, k: nat)
    requires k <= |s| && Matched(s) == s
    ensures Received(s, s, account, k) >= 0
    ensures Received(s, s, account, k) == 0 ==>
      forall i :: 0 <= i < k && Takes(s, account, i, Out) ==> s[i].remaining == s[i].amount
  {
    hide Matched;
    if k > 0 {
      ReceivedTerms(s, account, k - 1);
      if Takes(s, account, k - 1, Out) {
        OutflowBounds(s, k - 1);
      }
    }
  }

  lemma {:induction false} ReceivedNothing(s: seq<MoneyState>, r: seq<MoneyState>, account: nat, k: nat)
    requires |s| == |r| && k <= |s|
    requires forall i :: 0 <= i < |s| && s[i].direction == Out ==> r[i].remaining == s[i].amount
    ensures Received(s, r, account, k) == 0
  {
    if k > 0 {
      ReceivedNothing(s, r, account, k - 1);
    }
  }

  lemma NothingDrawn(s: seq<MoneyState>, i: nat)
    requires i < |s| && NothingExplained(Matched(s)) && s[i].direction == In
    ensures Matched(s)[i] == s[i]
  {
    ReceivedNothing(s, Matched(s), s[i].account, |s|);
    ReceivedUpTo(s, s[i].account, |s|);
  }

  /** The remaining amounts of all states survive a second matching if and only if nothing had been
      explained before.  (Ledgers survive more often: see RematchLedger.) */
  lemma RematchKeeps(s: seq<MoneyState>)
    ensures Matched(Matched(s)) == Matched(s) <==> NothingExplained(Matched(s))
  {
    var r := Matched(s);
    if Matched(r) == r {
      forall i | 0 <= i < |r| && r[i].direction == Out
        ensures r[i].remaining == r[i].amount
      {
        var a := r[i].account;
        GivenNothing(r, a, |r|);
        Conservation(r, a);
        ReceivedTerms(r, a, |r|);
        assert Takes(r, a, i, Out);
      }
    }
    if NothingExplained(r) {
      forall i | 0 <= i < |s|
        ensures r[i] == s[i] || (r[i].direction == Out && r[i] == s[i].(remaining := r[i].remaining))
      {
        if s[i].direction == In {
          NothingDrawn(s, i);
        }
      }
      forall i | 0 <= i < |r|
        ensures Matched(r)[i] == r[i]
      {
        SameFlows(r, s, s[i].account, |s|);
        SameFlows(r, s, s[i].account, i + 1);
        SameFlows(r, s, s[i].account, i);
      }
    }
  }

  /** An inflow and a later outflow of one account. */
  function Payment(incoming: nat, outgoing: nat, block: nat): seq<MoneyState> {
    [MoneyState(0, In, incoming, incoming, block, "in", []), MoneyState(0, Out, outgoing, outgoing, block, "out", [])]
  }

  /** One inflow and one outflow: the ledger survives a second matching if and only if the inflow is
      at least twice the outflow, or nothing.  An inflow that just pays for the outflow is complete
      after a trace and unexplained after a merge. */
  lemma PaymentAgain(incoming: nat, outgoing: nat, block: nat)
    ensures
      var s := Payment(incoming, outgoing, block);
      var once, twice := LedgerOf(Matched(s), 0, 2), LedgerOf(Matched(Matched(s)), 0, 2);
      && once.explained == Min(incoming, outgoing)
      && (twice == once <==> incoming >= 2 * outgoing || incoming == 0)
      && (outgoing <= incoming ==> once.complete && twice.unexplained == Max(0, 2 * outgoing - incoming))
  {
    var s := Payment(incoming, outgoing, block);
    LedgerLaw(s, 0, 2);
    LedgerLaw(Matched(s), 0, 2);
    TwoStates(s);
    TwoStates(Matched(s));
    InflowLeft(s, 0, 2);
    MatchedIsPoorer(s);
    PoorerFlows(Matched(s), s, 0, 2);
  }

  lemma TwoStates(s: seq<MoneyState>)
    requires |s| == 2 && Takes(s, 0, 0, In) && Takes(s, 0, 1, Out)
    ensures Outflow(s, 0, 2) == s[1].amount && Inflow(s, 0, 2) == s[0].remaining
    ensures Deficit(s, 0, 2) == Max(0, s[1].amount - s[0].remaining)
  {
    assert Outflow(s, 0, 0) == 0 && Inflow(s, 0, 0) == 0 && Deficit(s, 0, 0) == 0;
    assert Outflow(s, 0, 1) == 0 && Inflow(s, 0, 1) == s[0].remaining && Deficit(s, 0, 1) == 0;
    assert Outflow(s, 0, 2) == s[1].amount && Inflow(s, 0, 2) == s[0].remaining;
  }
}
