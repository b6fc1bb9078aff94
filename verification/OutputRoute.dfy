/** Where the output of a pool swap ends up, and the conversion that follows from it
    (internal/transactionanalysis/service.go, resolveOutput, finalizeRoute, appendUniswapConversion). */
module OutputRoute {

  const ZERO_ADDRESS := "0x0000000000000000000000000000000000000000"

  /** A token transfer in the receipt. */
  datatype Transfer = Transfer(token: string, from: string, recipient: string, amount: string)

  datatype Swap = Swap(pool: string, tokenIn: string, amountIn: string, tokenOut: string, amountOut: string,
      verified: bool, output: string)

  datatype Route = NoOutput | Ambiguous | Output(address: string)

  // ---------- hops ----------

  /** Who received the exact output from the pool. */
  function Candidates(swap: Swap, ts: set<Transfer>): set<string> {
    set t | t in ts && t.token == swap.tokenOut && t.from == swap.pool && t.amount == swap.amountOut :: t.recipient
  }

  /** Where the token went on from an address, other than back to the pool or to nowhere. */
  function Hops(swap: Swap, ts: set<Transfer>, current: string): set<string> {
    set t | t in ts && t.token == swap.tokenOut && t.from == current && t.recipient != swap.pool &&
        t.recipient != ZERO_ADDRESS :: t.recipient
  }

  function Recipients(ts: set<Transfer>): set<string> { set t | t in ts :: t.recipient }

  function The(s: set<string>): (x: string)
    requires |s| == 1
    ensures s == {x}
  {
    OnlyElement(s);
    var x :| x in s && s == {x};
    x
  }

  lemma OnlyElement(s: set<string>)
    requires |s| == 1
    ensures exists x :: x in s && s == {x}
    ensures forall x, y :: x in s && y in s ==> x == y
  {
    var x :| x in s;
    assert |s - {x}| == 0;
    assert s == {x};
  }

  /** Recipients not seen yet. */
  function Room(ts: set<Transfer>, seen: set<string>): nat { |Recipients(ts) - seen| }

  lemma RoomShrinks(swap: Swap, ts: set<Transfer>, current: string, seen: set<string>)
    requires Hops(swap, ts, current) * seen == {} && |Hops(swap, ts, current)| == 1
    ensures Room(ts, seen + {The(Hops(swap, ts, current))}) < Room(ts, seen)
  {
    var x := The(Hops(swap, ts, current));
    assert x in Hops(swap, ts, current) && x in Recipients(ts);
    assert (Recipients(ts) - seen) - {x} == Recipients(ts) - (seen + {x});
  }

  function Walk(swap: Swap, ts: set<Transfer>, current: string, seen: set<string>): Route
    decreases Room(ts, seen)
  {
    var next := Hops(swap, ts, current);
    if next * seen != {} then Ambiguous
    else if next == {} then Output(current)
    else if |next| > 1 then Ambiguous
    else
      RoomShrinks(swap, ts, current, seen);
      Walk(swap, ts, The(next), seen + {The(next)})
  }

  function Resolve(swap: Swap, ts: set<Transfer>): Route {
    var candidates := Candidates(swap, ts);
    if candidates == {} then NoOutput
    else if |candidates| > 1 then Ambiguous
    else Walk(swap, ts, The(candidates), {The(candidates)})
  }

  // ---------- the chain of hops ----------

  /** Every address but the last hands the token on to exactly the next one; the last keeps it. */
  ghost predicate Chain(swap: Swap, ts: set<Transfer>, chain: seq<string>) {
    && chain != []
    && (forall i :: 0 <= i < |chain| - 1 ==> Hops(swap, ts, chain[i]) == {chain[i + 1]})
    && Hops(swap, ts, chain[|chain| - 1]) == {}
  }

  /** A chain from the only recipient of the pool's output to an address. */
  ghost predicate Reaches(swap: Swap, ts: set<Transfer>, chain: seq<string>, address: string) {
    Chain(swap, ts, chain) && Candidates(swap, ts) == {chain[0]} && chain[|chain| - 1] == address
  }

  /** An address sends the token to that one other address, transfers back to the pool and to nowhere aside. */
  ghost predicate PassesTo(swap: Swap, ts: set<Transfer>, from: string, recipient: string) {
    && (exists t :: t in ts && t.token == swap.tokenOut && t.from == from && t.recipient == recipient)
    && recipient != swap.pool && recipient != ZERO_ADDRESS
    && forall t :: t in ts && t.token == swap.tokenOut && t.from == from ==>
         t.recipient == recipient || t.recipient == swap.pool || t.recipient == ZERO_ADDRESS
  }

  /** It sends the token nowhere else than to the pool or to nowhere. */
  ghost predicate Keeps(swap: Swap, ts: set<Transfer>, from: string) {
    forall t :: t in ts && t.token == swap.tokenOut && t.from == from ==>
      t.recipient == swap.pool || t.recipient == ZERO_ADDRESS
  }

  /** The pool paid the exact output, and only to that address. */
  ghost predicate PaidTo(swap: Swap, ts: set<Transfer>, recipient: string) {
    && (exists t :: t in ts && t.token == swap.tokenOut && t.from == swap.pool && t.amount == swap.amountOut
                    && t.recipient == recipient)
    && forall t :: t in ts && t.token == swap.tokenOut && t.from == swap.pool && t.amount == swap.amountOut ==>
         t.recipient == recipient
  }

  /** In transfers: the pool pays the first of the chain, each passes the token on to the next, and the last,
      the address, keeps it. */
  ghost predicate Travels(swap: Swap, ts: set<Transfer>, chain: seq<string>, address: string) {
    && chain != [] && PaidTo(swap, ts, chain[0])
    && (forall i :: 0 <= i < |chain| - 1 ==> PassesTo(swap, ts, chain[i], chain[i + 1]))
    && chain[|chain| - 1] == address && Keeps(swap, ts, address)
  }

  lemma HopsSpelled(swap: Swap, ts: set<Transfer>, from: string, recipient: string)
    ensures Hops(swap, ts, from) == {recipient} <==> PassesTo(swap, ts, from, recipient)
    ensures Hops(swap, ts, from) == {} <==> Keeps(swap, ts, from)
    ensures Candidates(swap, ts) == {recipient} <==> PaidTo(swap, ts, recipient)
  {
    if Hops(swap, ts, from) == {recipient} {
      assert recipient in Hops(swap, ts, from);
    }
    if Candidates(swap, ts) == {recipient} {
      assert recipient in Candidates(swap, ts);
    }
    forall t | t in ts && t.token == swap.tokenOut && t.from == from
      ensures t.recipient in Hops(swap, ts, from) || t.recipient == swap.pool || t.recipient == ZERO_ADDRESS
    {
    }
    forall t | t in ts && t.token == swap.tokenOut && t.from == swap.pool && t.amount == swap.amountOut
      ensures t.recipient in Candidates(swap, ts)
    {
    }
  }

  lemma ReachesSpelled(swap: Swap, ts: set<Transfer>, chain: seq<string>, address: string)
    ensures Reaches(swap, ts, chain, address) <==> Travels(swap, ts, chain, address)
  {
    hide Hops, Candidates, PassesTo, Keeps, PaidTo;
    if chain != [] {
      HopsSpelled(swap, ts, address, chain[0]);
      forall i | 0 <= i < |chain| - 1
        ensures Hops(swap, ts, chain[i]) == {chain[i + 1]} <==> PassesTo(swap, ts, chain[i], chain[i + 1])
      {
        HopsSpelled(swap, ts, chain[i], chain[i + 1]);
      }
    }
  }

  /** In transfers: there is no output if and only if the pool pays it to nobody; an address is the output if
      and only if the token travels there. */
  lemma ResolveSpelled(swap: Swap, ts: set<Transfer>, address: string)
    ensures Resolve(swap, ts).NoOutput? <==> forall t ::
      t in ts && t.token == swap.tokenOut && t.from == swap.pool ==> t.amount != swap.amountOut
    ensures Resolve(swap, ts) == Output(address) <==> exists chain :: Travels(swap, ts, chain, address)
  {
    NobodyPaid(swap, ts);
    ResolveIsChain(swap, ts, address);
    WalkIsNoNoOutput(swap, ts);
    hide Resolve, Reaches, Travels, Candidates;
    forall chain
      ensures Reaches(swap, ts, chain, address) <==> Travels(swap, ts, chain, address)
    {
      ReachesSpelled(swap, ts, chain, address);
    }
  }

  lemma NobodyPaid(swap: Swap, ts: set<Transfer>)
    ensures Candidates(swap, ts) == {} <==> forall t ::
      t in ts && t.token == swap.tokenOut && t.from == swap.pool ==> t.amount != swap.amountOut
  {
    forall t | t in ts && t.token == swap.tokenOut && t.from == swap.pool && t.amount == swap.amountOut
      ensures t.recipient in Candidates(swap, ts)
    {
    }
  }

  lemma WalkIsNoNoOutput(swap: Swap, ts: set<Transfer>)
    ensures Resolve(swap, ts).NoOutput? <==> Candidates(swap, ts) == {}
  {
    hide Candidates;
    if |Candidates(swap, ts)| == 1 {
      WalkHasOutput(swap, ts, The(Candidates(swap, ts)), {The(Candidates(swap, ts))});
    }
  }

  lemma {:induction false} WalkHasOutput(swap: Swap, ts: set<Transfer>, current: string, seen: set<string>)
    ensures !Walk(swap, ts, current, seen).NoOutput?
    decreases Room(ts, seen)
  {
    hide Room, Hops;
    var next := Hops(swap, ts, current);
    if next * seen == {} && |next| == 1 {
      RoomShrinks(swap, ts, current, seen);
      WalkHasOutput(swap, ts, The(next), seen + {The(next)});
    }
  }

  /** Two chains from one address are the same chain. */
  lemma {:induction false} ChainUnique(swap: Swap, ts: set<Transfer>, x: seq<string>, y: seq<string>)
    requires Chain(swap, ts, x) && Chain(swap, ts, y) && x[0] == y[0]
    ensures x == y
    decreases |x|
  {
    EndHasNoHops(swap, ts, x);
    EndHasNoHops(swap, ts, y);
    if |x| > 1 {
      assert Hops(swap, ts, x[0]) == {x[1]} && Hops(swap, ts, y[0]) == {y[1]};
      assert y[1] in {x[1]};
      TailChain(swap, ts, x);
      TailChain(swap, ts, y);
      ChainUnique(swap, ts, x[1..], y[1..]);
      assert x == [x[0]] + x[1..] && y == [y[0]] + y[1..];
    }
  }

  lemma EndHasNoHops(swap: Swap, ts: set<Transfer>, x: seq<string>)
    requires Chain(swap, ts, x)
    ensures Hops(swap, ts, x[0]) == {} <==> |x| == 1
  {
    if |x| > 1 {
      assert Hops(swap, ts, x[0]) == {x[1]};
      assert x[1] in Hops(swap, ts, x[0]);
    }
  }

  lemma TailChain(swap: Swap, ts: set<Transfer>, x: seq<string>)
    requires Chain(swap, ts, x) && |x| > 1
    ensures Chain(swap, ts, x[1..])
  {
    forall i | 0 <= i < |x[1..]| - 1
      ensures Hops(swap, ts, x[1..][i]) == {x[1..][i + 1]}
    {
      assert Hops(swap, ts, x[i + 1]) == {x[i + 2]};
    }
  }

  /** A chain never returns to its start. */
  lemma {:induction false} NoReturn(swap: Swap, ts: set<Transfer>, x: seq<string>, i: nat)
    requires Chain(swap, ts, x) && 0 < i < |x|
    ensures x[i] != x[0]
  {
    if x[i] == x[0] {
      SuffixChain(swap, ts, x, i);
      ChainUnique(swap, ts, x, x[i..]);
    }
  }

  lemma SuffixChain(swap: Swap, ts: set<Transfer>, x: seq<string>, i: nat)
    requires Chain(swap, ts, x) && i < |x|
    ensures Chain(swap, ts, x[i..])
  {
    forall k | 0 <= k < |x[i..]| - 1
      ensures Hops(swap, ts, x[i..][k]) == {x[i..][k + 1]}
    {
      assert Hops(swap, ts, x[i + k]) == {x[i + k + 1]};
    }
  }

  lemma ConsChain(swap: Swap, ts: set<Transfer>, current: string, rest: seq<string>)
    requires Chain(swap, ts, rest) && Hops(swap, ts, current) == {rest[0]}
    ensures Chain(swap, ts, [current] + rest)
  {
    var chain := [current] + rest;
    forall i | 0 <= i < |chain| - 1
      ensures Hops(swap, ts, chain[i]) == {chain[i + 1]}
    {
      if i > 0 {
        assert Hops(swap, ts, rest[i - 1]) == {rest[i]};
      }
    }
  }

  lemma {:induction false} WalkFindsChain(
      swap: Swap, ts: set<Transfer>, current: string, seen: set<string>) returns (chain: seq<string>)
    requires Walk(swap, ts, current, seen).Output?
    ensures Chain(swap, ts, chain) && chain[0] == current && chain[|chain| - 1] == Walk(swap, ts, current, seen).address
    decreases Room(ts, seen)
  {
    hide Room, Hops;
    var next := Hops(swap, ts, current);
    if next == {} {
      chain := [current];
    } else {
      RoomShrinks(swap, ts, current, seen);
      var rest := WalkFindsChain(swap, ts, The(next), seen + {The(next)});
      ConsChain(swap, ts, current, rest);
      chain := [current] + rest;
    }
  }

  lemma {:induction false} WalkFollowsChain(swap: Swap, ts: set<Transfer>, chain: seq<string>, seen: set<string>)
    requires Chain(swap, ts, chain)
    requires forall i :: 0 < i < |chain| ==> chain[i] !in seen
    ensures Walk(swap, ts, chain[0], seen) == Output(chain[|chain| - 1])
    decreases |chain|
  {
    hide Room, Hops;
    if |chain| > 1 {
      var x, tail := chain[1], chain[1..];
      TailChain(swap, ts, chain);
      forall i | 0 < i < |tail|
        ensures tail[i] !in seen + {x}
      {
        NoReturn(swap, ts, tail, i);
        assert tail[i] == chain[i + 1];
      }
      WalkFollowsChain(swap, ts, tail, seen + {x});
      OneHop(swap, ts, chain[0], x, seen);
    }
  }

  lemma OneHop(swap: Swap, ts: set<Transfer>, current: string, x: string, seen: set<string>)
    requires Hops(swap, ts, current) == {x} && x !in seen
    ensures Walk(swap, ts, current, seen) == Walk(swap, ts, x, seen + {x})
  {
    assert The({x}) in {x};
  }

  /** An address is resolved exactly when one chain of token hops leads to it from the pool's only
      recipient and ends there; the chain is unique. */
  lemma ResolveIsChain(swap: Swap, ts: set<Transfer>, address: string)
    ensures Resolve(swap, ts) == Output(address) <==> exists chain :: Reaches(swap, ts, chain, address)
    ensures forall x, y :: Reaches(swap, ts, x, address) && Reaches(swap, ts, y, address) ==> x == y
  {
    if Resolve(swap, ts) == Output(address) {
      var start := The(Candidates(swap, ts));
      var chain := WalkFindsChain(swap, ts, start, {start});
      assert Reaches(swap, ts, chain, address);
    }
    if exists chain :: Reaches(swap, ts, chain, address) {
      var chain :| Reaches(swap, ts, chain, address);
      assert The(Candidates(swap, ts)) == chain[0];
      forall i | 0 < i < |chain|
        ensures chain[i] !in {chain[0]}
      {
        NoReturn(swap, ts, chain, i);
      }
      WalkFollowsChain(swap, ts, chain, {chain[0]});
    }
    forall x, y | Reaches(swap, ts, x, address) && Reaches(swap, ts, y, address)
      ensures x == y
    {
      assert x[0] in {y[0]};
      ChainUnique(swap, ts, x, y);
    }
  }

  // ---------- the loop ----------

  function SetOf(ts: seq<Transfer>): set<Transfer> { set t | t in ts }

  /** The hops from an address, or the first that returns to an address already seen. */
  method HopsFrom(
      swap: Swap, ts: seq<Transfer>, current: string, seen: set<string>) returns (next: set<string>, again: bool)
    ensures again <==> Hops(swap, SetOf(ts), current) * seen != {}
    ensures !again ==> next == Hops(swap, SetOf(ts), current)
  {
    ghost var all := Hops(swap, SetOf(ts), current);
    next, again := {}, false;
    for i := 0 to |ts|
      invariant next == Hops(swap, SetOf(ts[..i]), current)
      invariant next * seen == {}
    {
      SetOfSnoc(ts, i);
      var t := ts[i];
      if t.token == swap.tokenOut && t.from == current && t.recipient != swap.pool && t.recipient != ZERO_ADDRESS {
        if t.recipient in seen {
          assert t in SetOf(ts) && t.recipient in all * seen;
          return next, true;
        }
        next := next + {t.recipient};
      }
    }
    assert ts[..|ts|] == ts;
  }

  lemma SetOfSnoc(ts: seq<Transfer>, i: nat)
    requires i < |ts|
    ensures SetOf(ts[..i + 1]) == SetOf(ts[..i]) + {ts[i]}
  {
    assert ts[..i + 1] == ts[..i] + [ts[i]];
  }

  method CandidatesOf(swap: Swap, ts: seq<Transfer>) returns (candidates: set<string>)
    ensures candidates == Candidates(swap, SetOf(ts))
  {
    candidates := {};
    for i := 0 to |ts|
      invariant candidates == Candidates(swap, SetOf(ts[..i]))
    {
      SetOfSnoc(ts, i);
      if ts[i].token == swap.tokenOut && ts[i].from == swap.pool && ts[i].amount == swap.amountOut {
        candidates := candidates + {ts[i].recipient};
      }
    }
    assert ts[..|ts|] == ts;
  }

  /** The answer of the loop depends on the set of transfers only, so not on their order. */
  method ResolveOutput(swap: Swap, ts: seq<Transfer>) returns (route: Route)
    ensures route == Resolve(swap, SetOf(ts))
  {
    hide Hops, Candidates, SetOf, Room;
    var candidates := CandidatesOf(swap, ts);
    if |candidates| != 1 {
      return if |candidates| > 1 then Ambiguous else NoOutput;
    }
    ghost var all := SetOf(ts);
    var current := The(candidates);
    var seen := {current};
    while true
      invariant Walk(swap, all, current, seen) == Resolve(swap, all)
      decreases Room(all, seen)
    {
      var next, again := HopsFrom(swap, ts, current, seen);
      if again {
        return Ambiguous;
      }
      if |next| == 0 {
        return Output(current);
      }
      if |next| > 1 {
        return Ambiguous;
      }
      RoomShrinks(swap, all, current, seen);
      current := The(next);
      seen := seen + {current};
    }
  }

  lemma SameSetSameRoute(swap: Swap, x: seq<Transfer>, y: seq<Transfer>)
    requires multiset(x) == multiset(y)
    ensures Resolve(swap, SetOf(x)) == Resolve(swap, SetOf(y))
  {
    forall t
      ensures t in SetOf(x) <==> t in SetOf(y)
    {
      assert t in multiset(x) <==> t in multiset(y);
    }
    assert SetOf(x) == SetOf(y);
  }
}
