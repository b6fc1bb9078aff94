/** From verified swaps to a conversion (internal/transactionanalysis/service.go, finalizeRoute,
    appendUniswapConversion). */
module Conversion {
  import opened OutputRoute

  datatype Conversion = Conversion(initiator: string, router: string, recipient: string, tokenIn: string,
      amountIn: string, tokenOut: string, amountOut: string)

  /** Swaps in log order, with the output address of every verified one resolved. */
  function Resolved(swaps: seq<Swap>, ts: set<Transfer>): (r: seq<Swap>)
    ensures |r| == |swaps|
  {
    seq(|swaps|, i requires 0 <= i < |swaps| =>
      if !swaps[i].verified then swaps[i]
      else swaps[i].(output := var route := Resolve(swaps[i], ts); if route.Output? then route.address else ""))
  }

  ghost predicate Sure(swap: Swap, ts: set<Transfer>) {
    swap.verified ==> !Resolve(swap, ts).Ambiguous?
  }

  /** One of the first n swaps has an ambiguous output. */
  ghost predicate Unsure(swaps: seq<Swap>, ts: set<Transfer>, n: nat)
    requires n <= |swaps|
  {
    exists k :: 0 <= k < n && !Sure(swaps[k], ts)
  }

  lemma NothingYet(swaps: seq<Swap>, ts: set<Transfer>)
    ensures !Unsure(swaps, ts, 0) && VerifiesUpTo(swaps, [], 0)
  {
  }

  lemma UnsureStep(swaps: seq<Swap>, ts: set<Transfer>, n: nat)
    requires n < |swaps|
    ensures Unsure(swaps, ts, n + 1) <==> Unsure(swaps, ts, n) || !Sure(swaps[n], ts)
  {
  }

  /** Each token handed out is the token taken in next. */
  ghost predicate Joined(swaps: seq<Swap>) {
    forall i :: 0 < i < |swaps| ==> swaps[i - 1].tokenOut == swaps[i].tokenIn
  }

  /** What the route has to meet for a conversion to be emitted. */
  ghost predicate Convertible(swaps: seq<Swap>, ts: set<Transfer>, official: set<string>) {
    && swaps != []
    && (forall i :: 0 <= i < |swaps| ==> swaps[i].verified && !Resolve(swaps[i], ts).Ambiguous?)
    && Joined(swaps)
    && var route := Resolve(swaps[|swaps| - 1], ts);
       route.Output? && route.address != "" && route.address !in official
  }

  /** From the first token taken in to the last one handed out. */
  function Whole(from: string, router: string, recipient: string, swaps: seq<Swap>): Conversion
    requires swaps != []
  {
    var first, last := swaps[0], swaps[|swaps| - 1];
    Conversion(from, router, recipient, first.tokenIn, first.amountIn, last.tokenOut, last.amountOut)
  }

  /** The fields of an analysis that the route touches. */
  class Analysis {
    const from: string
    const router: string
    const transfers: seq<Transfer>
    var swaps: seq<Swap>
    var complete: bool
    var ambiguous: bool
    var finalOutput: string
    var conversions: seq<Conversion>

    constructor (from: string, router: string, transfers: seq<Transfer>, swaps: seq<Swap>, complete: bool)
      ensures this.from == from && this.router == router && this.transfers == transfers && this.swaps == swaps
      ensures this.complete == complete && !ambiguous && finalOutput == "" && conversions == []
    {
      this.from, this.router, this.transfers, this.swaps, this.complete := from, router, transfers, swaps, complete;
      ambiguous, finalOutput, conversions := false, "", [];
    }

    /** Resolves the verified swaps in place; `last` is the last of them. */
    method ResolveSwaps() returns (verified: seq<nat>)
      modifies this`swaps, this`ambiguous
      ensures swaps == Resolved(old(swaps), SetOf(transfers))
      ensures ambiguous == (old(ambiguous) || Unsure(old(swaps), SetOf(transfers), |old(swaps)|))
      ensures Verifies(swaps, verified)
      ensures forall i :: 0 <= i < |old(swaps)| && !old(swaps)[i].verified ==> swaps[i] == old(swaps)[i]
    {
      hide Resolve, SetOf, Unsure, VerifiesUpTo;
      verified := [];
      NothingYet(old(swaps), SetOf(transfers));
      for i := 0 to |swaps|
        invariant |swaps| == |old(swaps)|
        invariant forall k :: 0 <= k < i ==> swaps[k] == Resolved(old(swaps), SetOf(transfers))[k]
        invariant forall k :: i <= k < |swaps| ==> swaps[k] == old(swaps)[k]
        invariant ambiguous == (old(ambiguous) || Unsure(old(swaps), SetOf(transfers), i))
        invariant VerifiesUpTo(old(swaps), verified, i)
      {
        assert swaps[i] == old(swaps)[i];
        UnsureStep(old(swaps), SetOf(transfers), i);
        VerifiesStep(old(swaps), verified, i);
        if swaps[i].verified {
          verified := verified + [i];
          var route := ResolveOutput(swaps[i], transfers);
          swaps := swaps[i := swaps[i].(output := if route.Output? then route.address else "")];
          ambiguous := ambiguous || route.Ambiguous?;
        }
      }
      VerifiesResolved(old(swaps), SetOf(transfers), verified);
    }

    method FinalizeRoute(official: set<string>)
      modifies this
      ensures swaps == Resolved(old(swaps), SetOf(transfers)) && conversions == old(conversions)
      ensures (complete && swaps != []) <==>
        old(complete) && !old(ambiguous) && Convertible(old(swaps), SetOf(transfers), official)
      ensures complete && swaps != [] ==> finalOutput == Resolve(old(swaps)[|swaps| - 1], SetOf(transfers)).address
      ensures swaps == [] ==> !complete
    {
      hide Resolve, SetOf, Sure, Resolved, Convertible;
      var verified := ResolveSwaps();
      if |verified| == 0 {
        complete := false;
        NoneConvertible(old(swaps), SetOf(transfers), official, verified);
        return;
      }
      ghost var unsure := ambiguous;
      for i := 1 to |verified|
        invariant swaps == Resolved(old(swaps), SetOf(transfers)) && conversions == old(conversions) &&
          complete == old(complete)
        invariant ambiguous == (unsure || Broken(swaps, verified, i))
      {
        if swaps[verified[i - 1]].tokenOut != swaps[verified[i]].tokenIn {
          ambiguous := true;
        }
      }
      if |verified| != |swaps| {
        ambiguous := true;
      }
      var last := swaps[verified[|verified| - 1]];
      if last.output == "" || last.output in official {
        ambiguous := true;
      }
      RouteDecides(old(swaps), SetOf(transfers), official, verified);
      if ambiguous {
        complete := false;
      } else {
        finalOutput := last.output;
      }
    }

    method AppendUniswapConversion()
      modifies this`conversions
      ensures !complete || swaps == [] ==> conversions == old(conversions)
      ensures complete && swaps != [] ==> conversions == old(conversions) + [Whole(from, router, finalOutput, swaps)]
    {
      if !complete || |swaps| == 0 {
        return;
      }
      var first, last := swaps[0], swaps[|swaps| - 1];
      conversions := conversions +
          [Conversion(from, router, finalOutput, first.tokenIn, first.amountIn, last.tokenOut, last.amountOut)];
    }

    /** A conversion is emitted exactly when nothing was missing before and every swap is verified and
        sure, each token handed out is the next one taken in, and the last output ends at an address
        that is not a known contract; its recipient is the end of that chain of hops. */
    method Interpret(official: set<string>)
      requires conversions == []
      modifies this
      ensures conversions != [] <==>
        old(complete) && !old(ambiguous) && Convertible(old(swaps), SetOf(transfers), official)
      ensures conversions != [] ==>
        var s := old(swaps);
        var last := s[|s| - 1];
        && |conversions| == 1 && conversions[0].initiator == from && conversions[0].router == router
        && conversions[0].tokenIn == s[0].tokenIn && conversions[0].amountIn == s[0].amountIn
        && conversions[0].tokenOut == last.tokenOut && conversions[0].amountOut == last.amountOut
        && exists chain :: Travels(last, SetOf(transfers), chain, conversions[0].recipient)
    {
      hide Resolve, SetOf;
      FinalizeRoute(official);
      AppendUniswapConversion();
      if |conversions| > 0 {
        ResolveSpelled(old(swaps)[|swaps| - 1], SetOf(transfers), finalOutput);
      }
    }
  }

  /** Somewhere before the i-th verified swap the tokens do not meet. */
  ghost predicate Broken(swaps: seq<Swap>, verified: seq<nat>, i: nat)
    requires i <= |verified| && forall k :: 0 <= k < |verified| ==> verified[k] < |swaps|
  {
    exists k :: 0 < k < i && swaps[verified[k - 1]].tokenOut != swaps[verified[k]].tokenIn
  }

  /** The positions of the verified swaps before i, in order. */
  ghost predicate VerifiesUpTo(swaps: seq<Swap>, verified: seq<nat>, i: nat)
    requires i <= |swaps|
  {
    && (forall k :: 0 <= k < |verified| ==> verified[k] < i && swaps[verified[k]].verified)
    && (forall k, l :: 0 <= k < l < |verified| ==> verified[k] < verified[l])
    && ((forall k :: 0 <= k < i ==> swaps[k].verified) ==> |verified| == i)
  }

  ghost predicate Verifies(swaps: seq<Swap>, verified: seq<nat>) {
    VerifiesUpTo(swaps, verified, |swaps|)
  }

  lemma VerifiesStep(swaps: seq<Swap>, verified: seq<nat>, i: nat)
    requires i < |swaps| && VerifiesUpTo(swaps, verified, i)
    ensures VerifiesUpTo(swaps, if swaps[i].verified then verified + [i] else verified, i + 1)
  {
  }

  lemma VerifiesResolved(swaps: seq<Swap>, ts: set<Transfer>, verified: seq<nat>)
    requires Verifies(swaps, verified)
    ensures Verifies(Resolved(swaps, ts), verified)
  {
    hide Resolve;
    assert forall k :: 0 <= k < |swaps| ==> Resolved(swaps, ts)[k].verified == swaps[k].verified;
  }

  lemma NoneConvertible(swaps: seq<Swap>, ts: set<Transfer>, official: set<string>, verified: seq<nat>)
    requires Verifies(Resolved(swaps, ts), verified) && verified == []
    ensures !Convertible(swaps, ts, official)
  {
    hide Resolve;
    assert forall i :: 0 <= i < |swaps| ==> Resolved(swaps, ts)[i].verified == swaps[i].verified;
  }

  /** The checks of the route, together, are the condition for a conversion. */
  lemma RouteDecides(swaps: seq<Swap>, ts: set<Transfer>, official: set<string>, verified: seq<nat>)
    requires Verifies(Resolved(swaps, ts), verified) && verified != []
    ensures
      var r := Resolved(swaps, ts);
      var last := r[verified[|verified| - 1]];
      var bad :=
        || Unsure(swaps, ts, |swaps|)
        || Broken(r, verified, |verified|) || |verified| != |swaps| || last.output == "" || last.output in official;
      && (!bad <==> Convertible(swaps, ts, official))
      && (!bad ==> last.output == Resolve(swaps[|swaps| - 1], ts).address)
  {
    hide Resolve;
    var r := Resolved(swaps, ts);
    assert forall i :: 0 <= i < |r| ==> r[i].verified == swaps[i].verified;
    if |verified| == |swaps| {
      AllVerified(verified, |swaps|);
      assert forall i :: 0 <= i < |swaps| ==> r[verified[i]].verified && swaps[i].verified;
      assert Joined(swaps) <==> !Broken(r, verified, |verified|);
    }
  }

  /** As many distinct positions as there are: all of them, in order. */
  lemma {:induction false} AllVerified(verified: seq<nat>, n: nat)
    requires |verified| == n
    requires forall k :: 0 <= k < n ==> verified[k] < n
    requires forall k, l :: 0 <= k < l < n ==> verified[k] < verified[l]
    ensures forall k :: 0 <= k < n ==> verified[k] == k
  {
    forall k | 0 <= k < n
      ensures verified[k] == k
    {
      AtLeastIndex(verified, k);
      AtMostIndex(verified, n, k);
    }
  }

  lemma {:induction false} AtLeastIndex(verified: seq<nat>, k: nat)
    requires k < |verified| && forall k, l :: 0 <= k < l < |verified| ==> verified[k] < verified[l]
    ensures verified[k] >= k
  {
    if k > 0 {
      AtLeastIndex(verified, k - 1);
      assert verified[k - 1] < verified[k];
    }
  }

  lemma {:induction false} AtMostIndex(verified: seq<nat>, n: nat, k: nat)
    requires k < |verified| == n && forall k, l :: 0 <= k < l < n ==> verified[k] < verified[l]
    requires verified[n - 1] < n
    ensures verified[k] <= k
    decreases n - k
  {
    if k < n - 1 {
      AtMostIndex(verified, n, k + 1);
      assert verified[k] < verified[k + 1];
    }
  }
}
