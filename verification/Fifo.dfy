/** FIFO matching of an account's outflows against its earlier inflows, in place
    (internal/tracer/tracer.go, consumeMoneyStates).

    An account is an (address, asset) pair, identified by its place in the order of their
    concatenated names.  The capacity of an inflow is the remaining amount it comes with. */
module Fifo {
  import opened Sorting

  datatype Direction = In | Out

  /** Nobody is the empty address of a contract creation, Zero the zero address. */
  datatype Address = Nobody | Zero | Account(id: nat)

  /** `entry` is the transaction and `path` the way of the edge that left the state behind. */
  datatype MoneyState = MoneyState(
    account: nat, direction: Direction, amount: nat, remaining: nat, block: nat, entry: string, path: seq<Address>)

  function Max(a: int, b: int): int { if a < b then b else a }

  function Min(a: int, b: int): int { if a < b then a else b }

  // ---------- the stable sort ----------

  predicate Less(x: MoneyState, y: MoneyState) {
    x.account < y.account || (x.account == y.account && x.block < y.block)
  }

  function StableSort(s: seq<MoneyState>): (r: seq<MoneyState>)
    ensures |r| == |s|
  {
    Sort(Less, s)
  }

  /** The states of an account stand together, in ascending order of their blocks. */
  ghost predicate InBlockOrder(s: seq<MoneyState>) {
    forall i, j :: 0 <= i < j < |s| ==>
      s[i].account <= s[j].account && (s[i].account == s[j].account ==> s[i].block <= s[j].block)
  }

  /** Sorting orders the states by account and block, loses none, and keeps those of one account
      and block in their order. */
  lemma StableSortSound(s: seq<MoneyState>, account: nat, block: nat)
    ensures InBlockOrder(StableSort(s)) && multiset(StableSort(s)) == multiset(s)
    ensures
      var same := (x: MoneyState) => x.account == account && x.block == block;
      Filter(same, StableSort(s)) == Filter(same, s)
  {
    SortOrdered(Less, s);
    SortPermutes(Less, s);
    SortStable(Less, s, (x: MoneyState) => x.account == account && x.block == block);
  }

  /** The library's stable sort, in place. */
  method SortStates(states: array<MoneyState>)
    modifies states
    ensures states[..] == StableSort(old(states[..]))
  {
    var sorted := StableSort(states[..]);
    for i := 0 to states.Length
      invariant forall k :: 0 <= k < i ==> states[k] == sorted[k]
    {
      states[i] := sorted[i];
    }
  }

  // ---------- inflow, outflow and deficit of an account ----------

  predicate Takes(s: seq<MoneyState>, account: nat, i: nat, direction: Direction)
    requires i < |s|
  {
    s[i].account == account && s[i].direction == direction
  }

  /** Capacity that has come in before position k. */
  function Inflow(s: seq<MoneyState>, account: nat, k: nat): nat
    requires k <= |s|
  {
    if k == 0 then 0 else Inflow(s, account, k - 1) + if Takes(s, account, k - 1, In) then s[k - 1].remaining else 0
  }

  /** Amount that has gone out before position k. */
  function Outflow(s: seq<MoneyState>, account: nat, k: nat): nat
    requires k <= |s|
  {
    if k == 0 then 0 else Outflow(s, account, k - 1) + if Takes(s, account, k - 1, Out) then s[k - 1].amount else 0
  }

  /** The largest deficit met before position k. */
  function Deficit(s: seq<MoneyState>, account: nat, k: nat): (d: nat)
    requires k <= |s|
    ensures d <= Outflow(s, account, k)
  {
    if k == 0 then 0 else Max(Deficit(s, account, k - 1), Outflow(s, account, k) - Inflow(s, account, k))
  }

  /** What the outflows before position k have drawn from the inflows. */
  function Drawn(s: seq<MoneyState>, account: nat, k: nat): nat
    requires k <= |s|
  {
    Outflow(s, account, k) - Deficit(s, account, k)
  }

  function Clamp(x: int, hi: nat): nat {
    if x <= 0 then 0 else Min(x, hi)
  }

  /** What inflow i has left when `drawn` has been taken from the account's inflows, oldest first. */
  function LeftOf(s: seq<MoneyState>, i: nat, drawn: nat): nat
    requires i < |s|
  {
    Clamp(Inflow(s, s[i].account, i + 1) - drawn, s[i].remaining)
  }

  /** The remaining amount of state i once the states before position k are matched. */
  function RemainingAt(s: seq<MoneyState>, i: nat, k: nat): nat
    requires i < k <= |s|
  {
    if s[i].direction == In then LeftOf(s, i, Drawn(s, s[i].account, k))
    else Deficit(s, s[i].account, i + 1) - Deficit(s, s[i].account, i)
  }

  /** The matched states, in closed form. */
  function Matched(s: seq<MoneyState>): (r: seq<MoneyState>)
    ensures |r| == |s|
  {
    seq(|s|, i requires 0 <= i < |s| => s[i].(remaining := RemainingAt(s, i, |s|)))
  }

  // ---------- drawing from the oldest inflow ----------

  lemma {:induction false} InflowMonotone(s: seq<MoneyState>, account: nat, i: nat, k: nat)
    requires i <= k <= |s|
    ensures Inflow(s, account, i) <= Inflow(s, account, k)
  {
    if i < k {
      InflowMonotone(s, account, i, k - 1);
    }
  }

  ghost predicate Exhausted(s: seq<MoneyState>, account: nat, k: nat, drawn: nat)
    requires k <= |s|
  {
    forall i :: 0 <= i < k && Takes(s, account, i, In) ==> LeftOf(s, i, drawn) == 0
  }

  lemma {:induction false} ExhaustedIsDrawn(s: seq<MoneyState>, account: nat, k: nat, drawn: nat)
    requires k <= |s| && Exhausted(s, account, k, drawn)
    ensures Inflow(s, account, k) <= drawn
  {
    if k > 0 {
      ExhaustedIsDrawn(s, account, k - 1, drawn);
      if Takes(s, account, k - 1, In) {
        assert LeftOf(s, k - 1, drawn) == 0;
      }
    }
  }

  /** Drawing `used` more from the account, when everything before inflow h is exhausted, comes out of h alone. */
  lemma DrawFromHead(s: seq<MoneyState>, h: nat, k: nat, drawn: nat, used: nat)
    requires h < k <= |s| && s[h].direction == In
    requires Exhausted(s, s[h].account, h, drawn) && used <= LeftOf(s, h, drawn)
    ensures LeftOf(s, h, drawn + used) == LeftOf(s, h, drawn) - used
    ensures forall i ::
      0 <= i < k && i != h && Takes(s, s[h].account, i, In) ==> LeftOf(s, i, drawn + used) == LeftOf(s, i, drawn)
    ensures used > 0 ==> drawn + used <= Inflow(s, s[h].account, k)
  {
    ExhaustedIsDrawn(s, s[h].account, h, drawn);
    InflowMonotone(s, s[h].account, h + 1, k);
    forall i | 0 <= i < k && i != h && Takes(s, s[h].account, i, In)
      ensures LeftOf(s, i, drawn + used) == LeftOf(s, i, drawn)
    {
      if i < h {
        assert LeftOf(s, i, drawn) == 0;
      } else {
        InflowMonotone(s, s[h].account, h + 1, i);
      }
    }
  }

  /** How the totals move at position k. */
  lemma NextPosition(s: seq<MoneyState>, account: nat, k: nat)
    requires k < |s|
    ensures Drawn(s, account, k) <= Inflow(s, account, k)
    ensures !Takes(s, account, k, Out) ==>
      Deficit(s, account, k + 1) == Deficit(s, account, k) && Drawn(s, account, k + 1) == Drawn(s, account, k)
  {
  }

  // ---------- the loop over the states ----------

  /** The states before k are matched, the others untouched. */
  ghost predicate StatesAt(states: seq<MoneyState>, s: seq<MoneyState>, k: nat) {
    |states| == |s| && k <= |s|
    && (forall i :: 0 <= i < k ==> states[i] == s[i].(remaining := RemainingAt(s, i, k)))
    && (forall i :: k <= i < |s| ==> states[i] == s[i])
  }

  /** As StatesAt, with `drawn` taken from one account's inflows. */
  ghost predicate StatesDrawn(states: seq<MoneyState>, s: seq<MoneyState>, k: nat, account: nat, drawn: nat) {
    |states| == |s| && k <= |s|
    && (forall i :: 0 <= i < k ==>
          states[i] ==
              s[i].(remaining := if Takes(s, account, i, In) then LeftOf(s, i, drawn) else RemainingAt(s, i, k)))
    && (forall i :: k <= i < |s| ==> states[i] == s[i])
  }

  /** The queue of an account lists inflows oldest first; those not listed are exhausted. */
  ghost predicate QueueAt(queue: seq<nat>, states: seq<MoneyState>, s: seq<MoneyState>, account: nat, k: nat) {
    |states| == |s| && k <= |s|
    && (forall n :: 0 <= n < |queue| ==> queue[n] < k && Takes(s, account, queue[n], In))
    && (forall m, n :: 0 <= m < n < |queue| ==> queue[m] < queue[n])
    && (forall i :: 0 <= i < k && Takes(s, account, i, In) ==> i in queue || states[i].remaining == 0)
  }

  /** What is not matched at position k is the growth of the deficit. */
  lemma OutflowMatched(s: seq<MoneyState>, k: nat, left: nat)
    requires k < |s| && s[k].direction == Out && left <= s[k].amount
    requires var account := s[k].account;
      var drawn := Drawn(s, account, k) + s[k].amount - left;
      drawn <= Inflow(s, account, k) && (left > 0 ==> Inflow(s, account, k) <= drawn)
    ensures left == Deficit(s, s[k].account, k + 1) - Deficit(s, s[k].account, k)
    ensures Drawn(s, s[k].account, k + 1) == Drawn(s, s[k].account, k) + s[k].amount - left
  {
  }

  lemma HeadIsOldest(queue: seq<nat>, states: seq<MoneyState>, s: seq<MoneyState>, account: nat, k: nat, drawn: nat)
    requires QueueAt(queue, states, s, account, k) && StatesDrawn(states, s, k, account, drawn) && |queue| > 0
    ensures queue[0] < k && states[queue[0]].remaining == LeftOf(s, queue[0], drawn)
    ensures s[queue[0]].account == account && s[queue[0]].direction == In
    ensures Exhausted(s, account, queue[0], drawn)
  {
    forall i | 0 <= i < queue[0] && Takes(s, account, i, In)
      ensures LeftOf(s, i, drawn) == 0
    {
      assert i !in queue;
      assert states[i].remaining == LeftOf(s, i, drawn);
    }
  }

  /** An exhausted head may leave the queue. */
  lemma PopHead(queue: seq<nat>, states: seq<MoneyState>, s: seq<MoneyState>, account: nat, k: nat)
    requires QueueAt(queue, states, s, account, k) && |queue| > 0 && states[queue[0]].remaining == 0
    ensures QueueAt(queue[1..], states, s, account, k)
  {
    assert queue == [queue[0]] + queue[1..];
  }

  lemma DrawStep(
      queue: seq<nat>, states: seq<MoneyState>, s: seq<MoneyState>, account: nat, k: nat, drawn: nat, used: nat)
    requires QueueAt(queue, states, s, account, k) && StatesDrawn(states, s, k, account, drawn) && |queue| > 0
    requires 0 < used <= states[queue[0]].remaining
    ensures var h := queue[0];
      var states' := states[h := states[h].(remaining := states[h].remaining - used)];
      && StatesDrawn(states', s, k, account, drawn + used) && QueueAt(queue, states', s, account, k)
    ensures drawn + used <= Inflow(s, account, k)
  {
    HeadIsOldest(queue, states, s, account, k, drawn);
    DrawFromHead(s, queue[0], k, drawn, used);
  }

  /** An outflow is done when it is matched or nothing is left in the queue. */
  ghost predicate OutflowDone(queue: seq<nat>, states: seq<MoneyState>, s: seq<MoneyState>, k: nat, left: nat)
    requires k < |s|
  {
    var account := s[k].account;
    var drawn := Drawn(s, account, k) + s[k].amount - left;
    && left <= s[k].amount && drawn <= Inflow(s, account, k) && (left > 0 ==> queue == [])
    && StatesDrawn(states, s, k, account, drawn) && QueueAt(queue, states, s, account, k)
  }

  lemma FinishTotals(queue: seq<nat>, states: seq<MoneyState>, s: seq<MoneyState>, k: nat, left: nat)
    requires k < |s| && s[k].direction == Out && OutflowDone(queue, states, s, k, left)
    ensures left == Deficit(s, s[k].account, k + 1) - Deficit(s, s[k].account, k)
    ensures Drawn(s, s[k].account, k + 1) == Drawn(s, s[k].account, k) + s[k].amount - left
  {
    var account := s[k].account;
    var drawn := Drawn(s, account, k) + s[k].amount - left;
    if left > 0 {
      forall i | 0 <= i < k && Takes(s, account, i, In)
        ensures LeftOf(s, i, drawn) == 0
      {
        assert states[i].remaining == 0;
      }
      ExhaustedIsDrawn(s, account, k, drawn);
    }
    OutflowMatched(s, k, left);
  }

  lemma FinishStates(queue: seq<nat>, states: seq<MoneyState>, s: seq<MoneyState>, k: nat, left: nat)
    requires k < |s| && s[k].direction == Out && OutflowDone(queue, states, s, k, left)
    ensures StatesAt(states[k := states[k].(remaining := left)], s, k + 1)
  {
    FinishTotals(queue, states, s, k, left);
    OtherAccountsKeep(s, k);
    hide Deficit, Inflow, Outflow, Drawn, QueueAt;
    var states' := states[k := states[k].(remaining := left)];
    forall i | 0 <= i < k + 1
      ensures states'[i] == s[i].(remaining := RemainingAt(s, i, k + 1))
    {
      if i < k && !Takes(s, s[k].account, i, In) {
        assert states[i].remaining == RemainingAt(s, i, k);
      }
    }
  }

  lemma FinishQueue(queue: seq<nat>, states: seq<MoneyState>, s: seq<MoneyState>, k: nat, left: nat)
    requires k < |s| && s[k].direction == Out && OutflowDone(queue, states, s, k, left)
    ensures QueueAt(queue, states[k := states[k].(remaining := left)], s, s[k].account, k + 1)
  {
  }

  lemma OtherAccountsKeep(s: seq<MoneyState>, k: nat)
    requires k < |s|
    ensures forall i ::
      0 <= i < k && !Takes(s, s[i].account, k, Out) ==> RemainingAt(s, i, k + 1) == RemainingAt(s, i, k)
  {
    forall i | 0 <= i < k && !Takes(s, s[i].account, k, Out)
      ensures RemainingAt(s, i, k + 1) == RemainingAt(s, i, k)
    {
      NextPosition(s, s[i].account, k);
    }
  }

  lemma StartOutflow(states: seq<MoneyState>, s: seq<MoneyState>, k: nat)
    requires k < |s| && StatesAt(states, s, k)
    ensures StatesDrawn(states, s, k, s[k].account, Drawn(s, s[k].account, k))
    ensures Drawn(s, s[k].account, k) <= Inflow(s, s[k].account, k)
    ensures states[k] == s[k]
  {
    NextPosition(s, s[k].account, k);
  }

  lemma HeadInRange(queue: seq<nat>, states: seq<MoneyState>, s: seq<MoneyState>, account: nat, k: nat)
    requires QueueAt(queue, states, s, account, k) && |queue| > 0
    ensures queue[0] < k && s[queue[0]].account == account
  {
  }

  method SetRemaining(states: array<MoneyState>, i: nat, remaining: nat)
    requires i < states.Length
    modifies states
    ensures states[..] == old(states[..])[i := old(states[i]).(remaining := remaining)]
  {
    states[i] := states[i].(remaining := remaining);
  }

  /** One outflow: it draws on the queue until it is matched or the queue is empty. */
  method MatchOutflow(
      states: array<MoneyState>, waiting: seq<nat>, k: nat, ghost s: seq<MoneyState>) returns (queue: seq<nat>)
    requires k < states.Length == |s| && StatesAt(states[..], s, k) && s[k].direction == Out
    requires QueueAt(waiting, states[..], s, s[k].account, k)
    modifies states
    ensures StatesAt(states[..], s, k + 1)
    ensures QueueAt(queue, states[..], s, s[k].account, k + 1)
  {
    hide StatesAt, StatesDrawn, QueueAt, Drawn, Inflow, Deficit, Outflow;
    StartOutflow(states[..], s, k);
    ghost var account, start := s[k].account, Drawn(s, s[k].account, k);
    var amount := states[k].amount;
    queue := waiting;
    while amount > 0 && |queue| > 0
      invariant 0 <= amount <= s[k].amount && start + s[k].amount - amount <= Inflow(s, account, k)
      invariant StatesDrawn(states[..], s, k, account, start + s[k].amount - amount)
      invariant QueueAt(queue, states[..], s, account, k)
      decreases |queue|, amount
    {
      HeadInRange(queue, states[..], s, account, k);
      var incoming := queue[0];
      var available := states[incoming].remaining;
      if available == 0 {
        PopHead(queue, states[..], s, account, k);
        queue := queue[1..];
        continue;
      }
      var used := Min(available, amount);
      DrawStep(queue, states[..], s, account, k, start + s[k].amount - amount, used);
      SetRemaining(states, incoming, available - used);
      amount := amount - used;
      if available == used {
        PopHead(queue, states[..], s, account, k);
        queue := queue[1..];
      }
    }
    FinishStates(queue, states[..], s, k, amount);
    FinishQueue(queue, states[..], s, k, amount);
    SetRemaining(states, k, amount);
  }

  type Queues = map<nat, seq<nat>>

  function QueueOf(queues: Queues, account: nat): seq<nat> {
    if account in queues then queues[account] else []
  }

  ghost predicate QueuesAt(queues: Queues, states: seq<MoneyState>, s: seq<MoneyState>, k: nat) {
    forall account: nat :: QueueAt(QueueOf(queues, account), states, s, account, k)
  }

  /** An inflow is still whole when it is reached. */
  lemma InflowStaysWhole(states: seq<MoneyState>, s: seq<MoneyState>, k: nat)
    requires k < |s| && s[k].direction == In && StatesAt(states, s, k)
    ensures StatesAt(states, s, k + 1)
  {
    NextPosition(s, s[k].account, k);
    OtherAccountsKeep(s, k);
    hide Deficit, Outflow, Drawn;
    forall i | 0 <= i < k + 1
      ensures states[i] == s[i].(remaining := RemainingAt(s, i, k + 1))
    {
    }
  }

  /** It joins the end of its account's queue. */
  lemma PushInflow(queue: seq<nat>, states: seq<MoneyState>, s: seq<MoneyState>, account: nat, k: nat)
    requires k < |s| && s[k].direction == In && QueueAt(queue, states, s, account, k)
    ensures QueueAt(if s[k].account == account then queue + [k] else queue, states, s, account, k + 1)
  {
    if s[k].account == account {
      assert (queue + [k])[|queue|] == k;
      assert forall i :: i in queue ==> i in queue + [k];
    }
  }

  lemma PushInflows(queues: Queues, states: seq<MoneyState>, s: seq<MoneyState>, k: nat)
    requires k < |s| && s[k].direction == In && QueuesAt(queues, states, s, k)
    ensures QueuesAt(queues[s[k].account := QueueOf(queues, s[k].account) + [k]], states, s, k + 1)
  {
    hide QueueAt;
    var queues' := queues[s[k].account := QueueOf(queues, s[k].account) + [k]];
    forall a: nat
      ensures QueueAt(QueueOf(queues', a), states, s, a, k + 1)
    {
      PushInflow(QueueOf(queues, a), states, s, a, k);
    }
  }

  /** Matching an outflow leaves the inflows of other accounts as they are. */
  lemma OtherQueuesKeep(
      queue: seq<nat>, before: seq<MoneyState>, states: seq<MoneyState>, s: seq<MoneyState>, k: nat, account: nat)
    requires k < |s| == |states| && s[k].direction == Out && account != s[k].account
    requires QueueAt(queue, before, s, account, k) && StatesAt(before, s, k) && StatesAt(states, s, k + 1)
    ensures QueueAt(queue, states, s, account, k + 1)
  {
    hide RemainingAt;
    OtherAccountsKeep(s, k);
    forall i | 0 <= i < k && Takes(s, account, i, In)
      ensures states[i] == before[i]
    {
      assert RemainingAt(s, i, k + 1) == RemainingAt(s, i, k);
    }
  }

  lemma UpdateQueue(
      queues: Queues, queue: seq<nat>, before: seq<MoneyState>, states: seq<MoneyState>, s: seq<MoneyState>, k: nat)
    requires k < |s| == |states| && s[k].direction == Out && QueuesAt(queues, before, s, k)
    requires QueueAt(queue, states, s, s[k].account, k + 1)
    requires StatesAt(before, s, k) && StatesAt(states, s, k + 1)
    ensures QueuesAt(queues[s[k].account := queue], states, s, k + 1)
  {
    hide QueueAt, StatesAt;
    var queues' := queues[s[k].account := queue];
    forall a: nat
      ensures QueueAt(QueueOf(queues', a), states, s, a, k + 1)
    {
      if a != s[k].account {
        OtherQueuesKeep(QueueOf(queues, a), before, states, s, k, a);
      }
    }
  }

  lemma QueueIn(queues: Queues, states: seq<MoneyState>, s: seq<MoneyState>, k: nat, account: nat)
    requires QueuesAt(queues, states, s, k)
    ensures QueueAt(QueueOf(queues, account), states, s, account, k)
  {
  }

  lemma AllMatched(states: seq<MoneyState>, s: seq<MoneyState>)
    requires StatesAt(states, s, |s|)
    ensures states == Matched(s)
  {
  }

  lemma MatchedInTime(s: seq<MoneyState>)
    requires InBlockOrder(s)
    ensures InBlockOrder(Matched(s))
  {
  }

  lemma NothingYet(s: seq<MoneyState>)
    ensures StatesAt(s, s, 0) && QueuesAt(map[], s, s, 0)
  {
  }

  lemma Untouched(states: seq<MoneyState>, s: seq<MoneyState>, k: nat)
    requires StatesAt(states, s, k) && k < |s|
    ensures |states| == |s| && states[k] == s[k]
  {
  }

  /** Sorts the states and matches every outflow against the earlier inflows of its account. */
  method ConsumeMoneyStates(states: array<MoneyState>)
    modifies states
    ensures states[..] == Matched(StableSort(old(states[..])))
    ensures InBlockOrder(states[..])
  {
    hide StatesAt, QueueAt, QueuesAt, Matched, StableSort, InBlockOrder;
    StableSortSound(states[..], 0, 0);
    SortStates(states);
    ghost var s := states[..];
    var queues: Queues := map[];
    NothingYet(s);
    for k := 0 to states.Length
      invariant StatesAt(states[..], s, k)
      invariant QueuesAt(queues, states[..], s, k)
    {
      Untouched(states[..], s, k);
      var account := states[k].account;
      var queue := QueueOf(queues, account);
      if states[k].direction == In {
        InflowStaysWhole(states[..], s, k);
        PushInflows(queues, states[..], s, k);
        queues := queues[account := queue + [k]];
      } else {
        ghost var before := states[..];
        QueueIn(queues, before, s, k, account);
        queue := MatchOutflow(states, queue, k, s);
        UpdateQueue(queues, queue, before, states[..], s, k);
        queues := queues[account := queue];
      }
    }
    AllMatched(states[..], s);
    MatchedInTime(s);
  }
}
