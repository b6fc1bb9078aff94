/** Edges of the displayed graph: grouped, and the two legs of a swap combined
    (web/src/graph/model.ts, buildGraphModel and combineSwapEdges). */
module GraphEdges {
  import opened Wrappers

  /** A traced edge; the key joins chains, ends, asset, kind, protocol route and path.  Blocks and time
      may be missing. */
  datatype Traced = Traced(
    key: string, source: string, target: string, chain: string, kind: string, tx: string, amount: nat, transfers: nat,
    verified: bool, first: Option<nat>, latest: Option<nat>, time: Option<string>)

  /** A grouped edge; `verified` says that complete evidence of the same transaction is attached. */
  datatype Edge = Edge(
    id: string, source: string, target: string, chain: string, kind: string, tx: string, total: nat, count: nat,
    txs: seq<string>, verified: bool, first: Option<nat>, latest: Option<nat>, time: Option<string>)

  // ---------- grouping ----------

  function First(e: Traced): Edge {
    Edge(e.key, e.source, e.target, e.chain, e.kind, e.tx, e.amount, e.transfers, if e.tx != "" then [e.tx] else [],
         e.verified, e.first, e.latest, e.time)
  }

  function Or<T>(x: Option<T>, y: Option<T>): Option<T> { if x.Some? then x else y }

  /** A missing block counts as the other one, two missing blocks as 0. */
  function Earlier(x: Option<nat>, y: Option<nat>): nat {
    var a, b := Or(Or(x, y), Some(0)).value, Or(Or(y, x), Some(0)).value;
    if a < b then a else b
  }

  function Later(x: Option<nat>, y: Option<nat>): nat {
    var a, b := Or(Or(x, y), Some(0)).value, Or(Or(y, x), Some(0)).value;
    if a < b then b else a
  }

  function Join(g: Edge, e: Traced): Edge {
    g.(total := g.total + e.amount, count := g.count + e.transfers, txs := g.txs + (if e.tx != "" then [e.tx] else []),
       first := Some(Earlier(g.first, e.first)), latest := Some(Later(g.latest, e.latest)), time := Or(e.time, g.time))
  }

  /** Amounts, transfers and transactions of the edges with a key. */
  function Amounts(es: seq<Traced>, key: string): nat {
    if es == [] then 0 else Amounts(es[..|es| - 1], key) + if es[|es| - 1].key == key then es[|es| - 1].amount else 0
  }

  function Transfers(es: seq<Traced>, key: string): nat {
    if es == [] then 0
    else
      var e := es[|es| - 1];
      Transfers(es[..|es| - 1], key) + if e.key == key then e.transfers else 0
  }

  function Hashes(es: seq<Traced>, key: string): seq<string> {
    if es == [] then []
    else
      var e := es[|es| - 1];
      Hashes(es[..|es| - 1], key) + if e.key == key && e.tx != "" then [e.tx] else []
  }

  ghost predicate DistinctIds(gs: seq<Edge>) {
    forall i, j :: 0 <= i < j < |gs| ==> gs[i].id != gs[j].id
  }

  ghost predicate HasGroup(gs: seq<Edge>, key: string) { exists j :: 0 <= j < |gs| && gs[j].id == key }

  ghost predicate HasKey(es: seq<Traced>, key: string) { exists i :: 0 <= i < |es| && es[i].key == key }

  predicate SumsUp(es: seq<Traced>, g: Edge) {
    g.total == Amounts(es, g.id) && g.count == Transfers(es, g.id) && g.txs == Hashes(es, g.id)
  }

  /** All edges of the key have their blocks. */
  ghost predicate Dated(es: seq<Traced>, key: string) {
    forall i :: 0 <= i < |es| && es[i].key == key ==> es[i].first.Some? && es[i].latest.Some?
  }

  /** The group spans exactly the blocks of its edges. */
  ghost predicate Spans(es: seq<Traced>, g: Edge) {
    && g.first.Some? && g.latest.Some?
    && (forall i :: 0 <= i < |es| && es[i].key == g.id && es[i].first.Some? && es[i].latest.Some? ==>
          g.first.value <= es[i].first.value && es[i].latest.value <= g.latest.value)
    && (exists i :: 0 <= i < |es| && es[i].key == g.id && es[i].first == g.first)
    && (exists i :: 0 <= i < |es| && es[i].key == g.id && es[i].latest == g.latest)
  }

  /** Its time is the last one that an edge of the key has. */
  ghost predicate Timed(es: seq<Traced>, g: Edge) {
    if g.time.None? then forall i :: 0 <= i < |es| && es[i].key == g.id ==> es[i].time.None?
    else exists i :: 0 <= i < |es| && es[i].key == g.id && es[i].time == g.time && NoTimeAfter(es, g.id, i)
  }

  ghost predicate NoTimeAfter(es: seq<Traced>, key: string, i: nat) {
    forall j :: i < j < |es| && es[j].key == key ==> es[j].time.None?
  }

  /** Ends, chain, kind, transaction and evidence are those of the first edge of the key. */
  ghost predicate Begun(es: seq<Traced>, g: Edge) {
    exists i :: 0 <= i < |es| && FirstOf(es, g.id, i)
      && g.source == es[i].source && g.target == es[i].target && g.chain == es[i].chain && g.kind == es[i].kind
      && g.tx == es[i].tx && g.verified == es[i].verified
  }

  ghost predicate FirstOf(es: seq<Traced>, key: string, i: nat)
    requires i < |es|
  {
    es[i].key == key && forall j :: 0 <= j < i ==> es[j].key != key
  }

  /** One group for every key, begun by the first edge of that key, with the sums, the block span and the time
      of all of them. */
  ghost predicate Groups(es: seq<Traced>, gs: seq<Edge>) {
    && DistinctIds(gs)
    && (forall i :: 0 <= i < |es| ==> HasGroup(gs, es[i].key))
    && (forall j :: 0 <= j < |gs| ==> HasKey(es, gs[j].id) && SumsUp(es, gs[j]))
    && (forall j :: 0 <= j < |gs| ==> (Dated(es, gs[j].id) ==> Spans(es, gs[j])) && Timed(es, gs[j]))
    && (forall j :: 0 <= j < |gs| ==> Begun(es, gs[j]))
  }

  lemma {:induction false} NoneOfKey(es: seq<Traced>, key: string)
    requires forall i :: 0 <= i < |es| ==> es[i].key != key
    ensures Amounts(es, key) == 0 && Transfers(es, key) == 0 && Hashes(es, key) == []
  {
    if es != [] {
      NoneOfKey(es[..|es| - 1], key);
    }
  }

  /** One more edge is joined to the group of its key, and leaves the others as they are. */
  lemma SumsSnoc(es: seq<Traced>, e: Traced, g: Edge)
    requires SumsUp(es, g)
    ensures SumsUp(es + [e], if g.id == e.key then Join(g, e) else g)
  {
    assert (es + [e])[..|es|] == es;
  }

  lemma SumsFirst(es: seq<Traced>, e: Traced)
    requires !HasKey(es, e.key)
    ensures SumsUp(es + [e], First(e))
  {
    assert (es + [e])[..|es|] == es;
    NoneOfKey(es, e.key);
  }

  lemma DatedFront(es: seq<Traced>, e: Traced, key: string)
    requires Dated(es + [e], key)
    ensures Dated(es, key) && (e.key == key ==> e.first.Some? && e.latest.Some?)
  {
    var all := es + [e];
    assert all[|es|] == e;
    forall i | 0 <= i < |es| && es[i].key == key
      ensures es[i].first.Some? && es[i].latest.Some?
    {
      assert all[i] == es[i];
    }
  }

  lemma SpansSnoc(es: seq<Traced>, e: Traced, g: Edge)
    requires Spans(es, g) && (g.id == e.key ==> e.first.Some? && e.latest.Some?)
    ensures Spans(es + [e], if g.id == e.key then Join(g, e) else g)
  {
    var all, h := es + [e], if g.id == e.key then Join(g, e) else g;
    var i :| 0 <= i < |es| && es[i].key == g.id && es[i].first == g.first;
    var j :| 0 <= j < |es| && es[j].key == g.id && es[j].latest == g.latest;
    assert all[i] == es[i] && all[j] == es[j] && all[|es|] == e;
  }

  lemma TimedSnoc(es: seq<Traced>, e: Traced, g: Edge)
    requires Timed(es, g)
    ensures Timed(es + [e], if g.id == e.key then Join(g, e) else g)
  {
    var all, h := es + [e], if g.id == e.key then Join(g, e) else g;
    assert all[|es|] == e;
    if g.id == e.key && e.time.Some? {
      assert NoTimeAfter(all, h.id, |es|);
    } else if g.time.Some? {
      var i :| 0 <= i < |es| && es[i].key == g.id && es[i].time == g.time && NoTimeAfter(es, g.id, i);
      assert all[i] == es[i];
      forall k | i < k < |all| && all[k].key == g.id
        ensures all[k].time.None?
      {
        if k < |es| {
          assert all[k] == es[k];
        }
      }
      assert NoTimeAfter(all, h.id, i);
    }
  }

  lemma FirstSpans(es: seq<Traced>, e: Traced)
    requires !HasKey(es, e.key)
    ensures Dated(es + [e], e.key) ==> Spans(es + [e], First(e))
    ensures Timed(es + [e], First(e))
  {
    var all := es + [e];
    assert all[|es|] == e;
    forall i | 0 <= i < |es|
      ensures all[i].key != e.key
    {
      assert all[i] == es[i];
    }
    assert NoTimeAfter(all, e.key, |es|);
  }

  lemma BegunSnoc(es: seq<Traced>, e: Traced, g: Edge)
    requires Begun(es, g)
    ensures Begun(es + [e], if g.id == e.key then Join(g, e) else g)
  {
    var all, h := es + [e], if g.id == e.key then Join(g, e) else g;
    var i :| 0 <= i < |es| && FirstOf(es, g.id, i)
             && g.source == es[i].source && g.target == es[i].target && g.chain == es[i].chain && g.kind == es[i].kind
             && g.tx == es[i].tx && g.verified == es[i].verified;
    assert all[i] == es[i];
    assert FirstOf(all, h.id, i);
  }

  lemma FirstBegins(es: seq<Traced>, e: Traced)
    requires !HasKey(es, e.key)
    ensures Begun(es + [e], First(e))
  {
    var all := es + [e];
    assert all[|es|] == e;
    assert FirstOf(all, e.key, |es|);
  }

  /** Span and time of a group after one more edge. */
  lemma ExtentSnoc(es: seq<Traced>, e: Traced, g: Edge)
    requires (Dated(es, g.id) ==> Spans(es, g)) && Timed(es, g)
    ensures
      var h := if g.id == e.key then Join(g, e) else g;
      (Dated(es + [e], h.id) ==> Spans(es + [e], h)) && Timed(es + [e], h)
  {
    hide Spans, Timed;
    TimedSnoc(es, e, g);
    if Dated(es + [e], g.id) {
      DatedFront(es, e, g.id);
      SpansSnoc(es, e, g);
    }
  }

  lemma HasKeySnoc(es: seq<Traced>, e: Traced, key: string)
    ensures HasKey(es + [e], key) <==> HasKey(es, key) || e.key == key
  {
    var all := es + [e];
    if HasKey(es, key) {
      var i :| 0 <= i < |es| && es[i].key == key;
      assert all[i].key == key;
    }
    if e.key == key {
      assert all[|es|].key == key;
    }
  }

  lemma HasGroupSame(gs: seq<Edge>, r: seq<Edge>, key: string)
    requires HasGroup(gs, key) && |gs| <= |r| && forall j :: 0 <= j < |gs| ==> r[j].id == gs[j].id
    ensures HasGroup(r, key)
  {
    var j :| 0 <= j < |gs| && gs[j].id == key;
    assert r[j].id == key;
  }

  lemma JoinGroup(es: seq<Traced>, e: Traced, gs: seq<Edge>, j: nat)
    requires Groups(es, gs) && j < |gs| && gs[j].id == e.key
    ensures Groups(es + [e], gs[j := Join(gs[j], e)])
  {
    assert HasGroup(gs, e.key) && Join(gs[j], e).id == gs[j].id;
    hide SumsUp, HasGroup, HasKey, Spans, Timed, Dated, Join, Begun;
    var r, all := gs[j := Join(gs[j], e)], es + [e];
    forall i | 0 <= i < |all|
      ensures HasGroup(r, all[i].key)
    {
      HasGroupSame(gs, r, all[i].key);
    }
    forall k | 0 <= k < |r|
      ensures HasKey(all, r[k].id) && SumsUp(all, r[k])
      ensures (Dated(all, r[k].id) ==> Spans(all, r[k])) && Timed(all, r[k]) && Begun(all, r[k])
    {
      HasKeySnoc(es, e, gs[k].id);
      SumsSnoc(es, e, gs[k]);
      BegunSnoc(es, e, gs[k]);
      ExtentSnoc(es, e, gs[k]);
    }
  }

  lemma NewGroup(es: seq<Traced>, e: Traced, gs: seq<Edge>)
    requires Groups(es, gs) && !HasGroup(gs, e.key)
    ensures Groups(es + [e], gs + [First(e)])
  {
    hide SumsUp, Spans, Timed, Dated, Begun;
    var r, all := gs + [First(e)], es + [e];
    assert !HasKey(es, e.key);
    SumsFirst(es, e);
    FirstSpans(es, e);
    FirstBegins(es, e);
    assert r[|gs|].id == e.key;
    forall i | 0 <= i < |all|
      ensures HasGroup(r, all[i].key)
    {
      if i < |es| {
        HasGroupSame(gs, r, es[i].key);
      }
    }
    forall k | 0 <= k < |r|
      ensures HasKey(all, r[k].id) && SumsUp(all, r[k])
      ensures (Dated(all, r[k].id) ==> Spans(all, r[k])) && Timed(all, r[k]) && Begun(all, r[k])
    {
      HasKeySnoc(es, e, r[k].id);
      if k < |gs| {
        assert gs[k].id != e.key;
        SumsSnoc(es, e, gs[k]);
        BegunSnoc(es, e, gs[k]);
        ExtentSnoc(es, e, gs[k]);
      }
    }
    assert DistinctIds(r);
  }

  /** The map finds the group of every key that has one. */
  ghost predicate Placed(place: map<string, nat>, gs: seq<Edge>) {
    && (forall key :: key in place ==> place[key] < |gs| && gs[place[key]].id == key)
    && (forall j :: 0 <= j < |gs| ==> gs[j].id in place)
  }

  lemma PlacedUpdate(place: map<string, nat>, gs: seq<Edge>, j: nat, g: Edge)
    requires Placed(place, gs) && j < |gs| && g.id == gs[j].id
    ensures Placed(place, gs[j := g])
  {
  }

  lemma PlacedNew(place: map<string, nat>, gs: seq<Edge>, g: Edge)
    requires Placed(place, gs)
    ensures g.id !in place ==> !HasGroup(gs, g.id)
    ensures Placed(place[g.id := |gs|], gs + [g])
  {
  }

  /** The grouping loop; a map finds the group of a key. */
  method GroupEdges(es: seq<Traced>) returns (gs: seq<Edge>)
    ensures Groups(es, gs)
  {
    gs := [];
    var place: map<string, nat> := map[];
    assert Groups([], gs);
    hide Groups, HasGroup;
    for i := 0 to |es|
      invariant Groups(es[..i], gs) && Placed(place, gs)
    {
      var e := es[i];
      assert es[..i] + [e] == es[..i + 1];
      if e.key in place {
        var j := place[e.key];
        hide Placed;
        JoinGroup(es[..i], e, gs, j);
        PlacedUpdate(place, gs, j, Join(gs[j], e));
        gs := gs[j := Join(gs[j], e)];
      } else {
        hide Placed;
        PlacedNew(place, gs, First(e));
        NewGroup(es[..i], e, gs);
        place := place[e.key := |gs|];
        gs := gs + [First(e)];
      }
    }
    assert es[..|es|] == es;
  }

  // ---------- combining swap legs ----------

  /** A displayed edge: a grouped edge, or the two legs of a swap. */
  datatype Shown = Plain(edge: Edge) | Combined(input: Edge, output: Edge)

  /** What a displayed edge stands for. */
  function Legs(s: Shown): multiset<Edge> {
    if s.Plain? then multiset{s.edge} else multiset{s.input, s.output}
  }

  /** Every edge that is displayed, as often as it is. */
  function AllLegs(shown: seq<Shown>): multiset<Edge> {
    if shown == [] then multiset{} else AllLegs(shown[..|shown| - 1]) + Legs(shown[|shown| - 1])
  }

  predicate IsInput(edge: Edge, candidate: Edge, consumed: set<string>) {
    && candidate.id != edge.id && candidate.id !in consumed && candidate.kind != "swap"
    && candidate.chain == edge.chain && candidate.tx == edge.tx && candidate.target == edge.source
  }

  predicate IsVerifiedSwap(edge: Edge) {
    edge.kind == "swap" && edge.tx != "" && edge.verified
  }

  /** The positions of the possible inputs of a swap. */
  function Inputs(edges: seq<Edge>, edge: Edge, consumed: set<string>): (r: seq<nat>)
    ensures forall k :: 0 <= k < |r| ==> r[k] < |edges| && IsInput(edge, edges[r[k]], consumed)
  {
    if edges == [] then []
    else
      Inputs(edges[..|edges| - 1], edge, consumed)
      + if IsInput(edge, edges[|edges| - 1], consumed) then [|edges| - 1] else []
  }

  /** The consumed ones among the edges. */
  function Picked(edges: seq<Edge>, consumed: set<string>): multiset<Edge> {
    if edges == [] then multiset{}
    else (if edges[0].id in consumed then multiset{edges[0]} else multiset{}) + Picked(edges[1..], consumed)
  }

  /** Edges dealt with: those before i, and those consumed. */
  function Dealt(edges: seq<Edge>, i: nat, consumed: set<string>): multiset<Edge>
    requires i <= |edges|
  {
    multiset(edges[..i]) + Picked(edges[i..], consumed)
  }

  lemma {:induction false} PickedSame(edges: seq<Edge>, consumed: set<string>, id: string)
    requires forall i :: 0 <= i < |edges| ==> edges[i].id != id
    ensures Picked(edges, consumed + {id}) == Picked(edges, consumed)
  {
    if edges != [] {
      PickedSame(edges[1..], consumed, id);
    }
  }

  lemma {:induction false} PickedOneMore(edges: seq<Edge>, consumed: set<string>, k: nat)
    requires DistinctIds(edges) && k < |edges| && edges[k].id !in consumed
    ensures Picked(edges, consumed + {edges[k].id}) == Picked(edges, consumed) + multiset{edges[k]}
  {
    var rest := edges[1..];
    if k == 0 {
      PickedSame(rest, consumed, edges[0].id);
    } else {
      assert edges[0].id != edges[k].id && rest[k - 1] == edges[k];
      PickedOneMore(rest, consumed, k - 1);
    }
  }

  lemma DealtStep(edges: seq<Edge>, i: nat, consumed: set<string>)
    requires i < |edges|
    ensures
      Dealt(edges, i + 1, consumed)
      == Dealt(edges, i, consumed) + if edges[i].id in consumed then multiset{} else multiset{edges[i]}
  {
    assert edges[i..][0] == edges[i] && edges[i..][1..] == edges[i + 1..] && edges[..i + 1] == edges[..i] + [edges[i]];
  }

  lemma DealtAdd(edges: seq<Edge>, i: nat, consumed: set<string>, n: nat)
    requires DistinctIds(edges) && i <= |edges| && n < |edges| && edges[n].id !in consumed
    ensures
      Dealt(edges, i, consumed + {edges[n].id})
      == Dealt(edges, i, consumed) + if n < i then multiset{} else multiset{edges[n]}
  {
    var rest := edges[i..];
    if n < i {
      PickedSame(rest, consumed, edges[n].id);
    } else {
      assert rest[n - i] == edges[n];
      PickedOneMore(rest, consumed, n - i);
    }
  }

  lemma {:induction false} PickedNone(edges: seq<Edge>)
    ensures Picked(edges, {}) == multiset{}
  {
    if edges != [] {
      PickedNone(edges[1..]);
    }
  }

  lemma AllLegsSnoc(shown: seq<Shown>, s: Shown)
    ensures AllLegs(shown + [s]) == AllLegs(shown) + Legs(s)
  {
    assert (shown + [s])[..|shown|] == shown;
  }

  function Without(shown: seq<Shown>, k: nat): seq<Shown>
    requires k < |shown|
  {
    shown[..k] + shown[k + 1..]
  }

  lemma {:induction false} AllLegsWithout(shown: seq<Shown>, k: nat)
    requires k < |shown|
    ensures AllLegs(Without(shown, k)) + Legs(shown[k]) == AllLegs(shown)
  {
    hide AllLegs, Legs;
    var front, last := shown[..|shown| - 1], shown[|shown| - 1];
    assert shown == front + [last];
    AllLegsSnoc(front, last);
    if k == |front| {
      assert Without(shown, k) == front;
    } else {
      var rest := Without(front, k);
      AllLegsWithout(front, k);
      AllLegsSnoc(rest, last);
      assert Without(shown, k) == rest + [last];
      assert front[k] == shown[k];
    }
  }

  /** The legs of a combined swap belong together. */
  ghost predicate Paired(s: Shown) {
    s.Combined? ==>
      IsVerifiedSwap(s.output) && s.input.kind != "swap" && s.input.chain == s.output.chain && s.input.tx == s.output.tx
      && s.input.target == s.output.source
  }

  /** What the loop keeps after i edges: everything dealt with is shown once, and an edge that is not
      consumed is shown as itself. */
  ghost predicate Showing(edges: seq<Edge>, i: nat, consumed: set<string>, shown: seq<Shown>) {
    && i <= |edges|
    && AllLegs(shown) == Dealt(edges, i, consumed)
    && (forall k :: 0 <= k < i && edges[k].id !in consumed ==> Plain(edges[k]) in shown)
    && (forall s :: s in shown ==> Paired(s))
  }

  /** An edge that was consumed before its turn is shown already. */
  lemma SkipConsumed(edges: seq<Edge>, i: nat, consumed: set<string>, shown: seq<Shown>)
    requires Showing(edges, i, consumed, shown) && i < |edges| && edges[i].id in consumed
    ensures Showing(edges, i + 1, consumed, shown)
  {
    hide Dealt, AllLegs;
    DealtStep(edges, i, consumed);
  }

  lemma ShowPlain(edges: seq<Edge>, i: nat, consumed: set<string>, shown: seq<Shown>)
    requires Showing(edges, i, consumed, shown) && i < |edges| && edges[i].id !in consumed
    ensures Showing(edges, i + 1, consumed, shown + [Plain(edges[i])])
  {
    hide Dealt, AllLegs;
    DealtStep(edges, i, consumed);
    AllLegsSnoc(shown, Plain(edges[i]));
  }

  lemma CombinedLegs(edges: seq<Edge>, i: nat, consumed: set<string>, shown: seq<Shown>, n: nat, k: nat)
    requires DistinctIds(edges) && i < |edges| && n < |edges| && n != i && edges[i].id !in consumed &&
      edges[n].id !in consumed
    requires AllLegs(shown) == Dealt(edges, i, consumed)
    requires k <= |shown| && (k < |shown| <==> n < i) && (k < |shown| ==> shown[k] == Plain(edges[n]))
    ensures
      var base := if k < |shown| then Without(shown, k) else shown;
      AllLegs(base + [Combined(edges[n], edges[i])]) == Dealt(edges, i + 1, consumed + {edges[i].id} + {edges[n].id})
  {
    hide Dealt, AllLegs;
    DealtStep(edges, i, consumed);
    DealtAdd(edges, i + 1, consumed, i);
    DealtAdd(edges, i + 1, consumed + {edges[i].id}, n);
    AllLegsSnoc(if k < |shown| then Without(shown, k) else shown, Combined(edges[n], edges[i]));
    assert Legs(Combined(edges[n], edges[i])) == multiset{edges[n]} + multiset{edges[i]};
    if k < |shown| {
      AllLegsWithout(shown, k);
    }
  }

  /** A swap is combined with its only input, which is taken off the list if it was shown. */
  lemma ShowCombined(edges: seq<Edge>, i: nat, consumed: set<string>, shown: seq<Shown>, n: nat, k: nat)
    requires DistinctIds(edges) && Showing(edges, i, consumed, shown) && i < |edges| && n < |edges|
    requires edges[i].id !in consumed && IsVerifiedSwap(edges[i]) && IsInput(edges[i], edges[n], consumed)
    requires k <= |shown| && (k < |shown| <==> n < i) && (k < |shown| ==> shown[k] == Plain(edges[n]))
    ensures
      var base := if k < |shown| then Without(shown, k) else shown;
      Showing(edges, i + 1, consumed + {edges[i].id} + {edges[n].id}, base + [Combined(edges[n], edges[i])])
  {
    hide Dealt, AllLegs, Without;
    CombinedLegs(edges, i, consumed, shown, n, k);
    if k < |shown| {
      StillShown(edges, i, shown, n, k);
    }
    assert Paired(Combined(edges[n], edges[i]));
  }

  /** Taking one edge off the list leaves the others on it. */
  lemma StillShown(edges: seq<Edge>, i: nat, shown: seq<Shown>, n: nat, k: nat)
    requires DistinctIds(edges) && i <= |edges| && n < |edges| && k < |shown| && shown[k] == Plain(edges[n])
    ensures forall j :: 0 <= j < i && j != n && Plain(edges[j]) in shown ==> Plain(edges[j]) in Without(shown, k)
    ensures forall s :: s in Without(shown, k) ==> s in shown
  {
    var base := Without(shown, k);
    forall j | 0 <= j < i && j != n && Plain(edges[j]) in shown
      ensures Plain(edges[j]) in base
    {
      var l :| 0 <= l < |shown| && shown[l] == Plain(edges[j]);
      assert l != k;
      assert if l < k then base[l] == shown[l] else base[l - 1] == shown[l];
    }
  }

  // ---------- which swaps are combined ----------

  /** The n-th edge is the only possible input of the i-th, and of no other verified swap. */
  ghost predicate Matched(edges: seq<Edge>, i: nat, n: nat)
    requires i < |edges| && n < |edges|
  {
    && IsVerifiedSwap(edges[i]) && Inputs(edges, edges[i], {}) == [n]
    && forall j :: 0 <= j < |edges| && j != i && IsVerifiedSwap(edges[j]) ==> !IsInput(edges[j], edges[n], {})
  }

  lemma {:induction false} NoInputs(edges: seq<Edge>, edge: Edge, consumed: set<string>)
    requires Inputs(edges, edge, {}) == []
    ensures Inputs(edges, edge, consumed) == []
  {
    if edges != [] {
      NoInputs(edges[..|edges| - 1], edge, consumed);
    }
  }

  lemma {:induction false} SoleInput(edges: seq<Edge>, edge: Edge, consumed: set<string>, n: nat)
    requires Inputs(edges, edge, {}) == [n] && n < |edges| && edges[n].id !in consumed
    ensures Inputs(edges, edge, consumed) == [n]
  {
    var front := edges[..|edges| - 1];
    if IsInput(edge, edges[|edges| - 1], {}) {
      assert Inputs(edges, edge, {})[|Inputs(front, edge, {})|] == |edges| - 1;
      NoInputs(front, edge, consumed);
    } else {
      assert Inputs(edges, edge, {}) == Inputs(front, edge, {}) + [];
      assert Inputs(front, edge, {}) == [n] && Inputs(front, edge, {})[0] == n;
      SoleInput(front, edge, consumed, n);
    }
  }

  /** Only swaps whose turn has come, and their inputs, are consumed. */
  ghost predicate ConsumedBy(edges: seq<Edge>, i: nat, id: string)
    requires i <= |edges|
  {
    exists j, m :: 0 <= j < i && 0 <= m < |edges| && IsVerifiedSwap(edges[j]) && IsInput(edges[j], edges[m], {})
                   && (id == edges[j].id || id == edges[m].id)
  }

  ghost predicate Combining(edges: seq<Edge>, i: nat, consumed: set<string>, shown: seq<Shown>) {
    && i <= |edges|
    && (forall id :: id in consumed ==> ConsumedBy(edges, i, id))
    && (forall k, n :: 0 <= k < i && 0 <= n < |edges| && Matched(edges, k, n) ==> Combined(edges[n], edges[k]) in shown)
  }

  lemma ConsumedLater(edges: seq<Edge>, i: nat, id: string)
    requires i < |edges| && ConsumedBy(edges, i, id)
    ensures ConsumedBy(edges, i + 1, id)
  {
  }

  /** A swap with an input of its own is not consumed before its turn, and neither is the input. */
  lemma MatchedIsFree(edges: seq<Edge>, i: nat, consumed: set<string>, shown: seq<Shown>, n: nat)
    requires DistinctIds(edges) && Combining(edges, i, consumed, shown) && i < |edges| && n < |edges| &&
      Matched(edges, i, n)
    ensures edges[i].id !in consumed && edges[n].id !in consumed && Inputs(edges, edges[i], consumed) == [n]
  {
    assert IsInput(edges[i], edges[Inputs(edges, edges[i], {})[0]], {});
    forall j, m | 0 <= j < i && 0 <= m < |edges| && IsVerifiedSwap(edges[j]) && IsInput(edges[j], edges[m], {})
      ensures edges[i].id != edges[j].id && edges[i].id != edges[m].id && edges[n].id != edges[j].id &&
        edges[n].id != edges[m].id
    {
      assert !IsInput(edges[j], edges[n], {});
      assert m != i && m != n && j != n;
    }
    SoleInput(edges, edges[i], consumed, n);
  }

  /** Leaving a swap uncombined is right only if it has no input of its own. */
  lemma NotCombined(edges: seq<Edge>, i: nat, consumed: set<string>, shown: seq<Shown>, more: seq<Shown>)
    requires DistinctIds(edges) && Combining(edges, i, consumed, shown) && i < |edges|
    requires edges[i].id in consumed || !IsVerifiedSwap(edges[i]) || |Inputs(edges, edges[i], consumed)| != 1
    requires forall s :: s in shown ==> s in more
    ensures Combining(edges, i + 1, consumed, more)
  {
    hide Inputs;
    forall id | id in consumed
      ensures ConsumedBy(edges, i + 1, id)
    {
      ConsumedLater(edges, i, id);
    }
    forall n | 0 <= n < |edges|
      ensures !Matched(edges, i, n)
    {
      if Matched(edges, i, n) {
        MatchedIsFree(edges, i, consumed, shown, n);
      }
    }
  }

  lemma NowCombined(edges: seq<Edge>, i: nat, consumed: set<string>, shown: seq<Shown>, n: nat, k: nat)
    requires DistinctIds(edges) && Combining(edges, i, consumed, shown) && i < |edges| && n < |edges|
    requires IsVerifiedSwap(edges[i]) && Inputs(edges, edges[i], consumed) == [n]
    requires k <= |shown| && (k < |shown| ==> shown[k].Plain?)
    ensures
      var base := if k < |shown| then Without(shown, k) else shown;
      Combining(edges, i + 1, consumed + {edges[i].id} + {edges[n].id}, base + [Combined(edges[n], edges[i])])
  {
    assert IsInput(edges[i], edges[Inputs(edges, edges[i], consumed)[0]], consumed);
    hide Inputs;
    var base := if k < |shown| then Without(shown, k) else shown;
    var r := base + [Combined(edges[n], edges[i])];
    assert IsInput(edges[i], edges[n], {});
    forall id | id in consumed + {edges[i].id} + {edges[n].id}
      ensures ConsumedBy(edges, i + 1, id)
    {
      if id in consumed {
        ConsumedLater(edges, i, id);
      }
    }
    forall j, m | 0 <= j < i + 1 && 0 <= m < |edges| && Matched(edges, j, m)
      ensures Combined(edges[m], edges[j]) in r
    {
      if j == i {
        MatchedIsFree(edges, i, consumed, shown, m);
      } else {
        assert Combined(edges[m], edges[j]) in shown;
        if k < |shown| {
          WithoutKeeps(shown, k, Combined(edges[m], edges[j]));
        }
      }
    }
  }

  lemma WithoutKeeps(shown: seq<Shown>, k: nat, s: Shown)
    requires k < |shown| && s in shown && s != shown[k]
    ensures s in Without(shown, k)
  {
    var l :| 0 <= l < |shown| && shown[l] == s;
    var r := Without(shown, k);
    assert if l < k then r[l] == s else r[l - 1] == s;
  }

  // ---------- inputs spelled out ----------

  /** The n-th edge may be the input of the i-th: another edge that is no swap, of the same chain and
      transaction, into the node the swap leaves. */
  ghost predicate Feeds(edges: seq<Edge>, n: nat, i: nat)
    requires n < |edges| && i < |edges|
  {
    && n != i && edges[n].kind != "swap" && edges[n].chain == edges[i].chain && edges[n].tx == edges[i].tx
    && edges[n].target == edges[i].source
  }

  ghost predicate OnlyFeeds(edges: seq<Edge>, n: nat, i: nat)
    requires n < |edges| && i < |edges|
  {
    Feeds(edges, n, i) && forall m :: 0 <= m < |edges| && Feeds(edges, m, i) ==> m == n
  }

  /** A swap of a transaction with complete evidence. */
  ghost predicate VerifiedSwap(edge: Edge) {
    edge.kind == "swap" && edge.tx != "" && edge.verified
  }

  lemma FeedsSpelled(edges: seq<Edge>, n: nat, i: nat)
    requires DistinctIds(edges) && n < |edges| && i < |edges|
    ensures IsInput(edges[i], edges[n], {}) <==> Feeds(edges, n, i)
    ensures IsVerifiedSwap(edges[i]) <==> VerifiedSwap(edges[i])
  {
    if n != i {
      assert edges[n].id != edges[i].id;
    }
  }

  lemma {:induction false} OneInput(edges: seq<Edge>, edge: Edge, n: nat)
    requires n < |edges| && IsInput(edge, edges[n], {})
    requires forall m :: 0 <= m < |edges| && IsInput(edge, edges[m], {}) ==> m == n
    ensures Inputs(edges, edge, {}) == [n]
  {
    var front := edges[..|edges| - 1];
    if n == |edges| - 1 {
      NoInput(front, edge);
    } else {
      OneInput(front, edge, n);
    }
  }

  lemma {:induction false} NoInput(edges: seq<Edge>, edge: Edge)
    requires forall m :: 0 <= m < |edges| ==> !IsInput(edge, edges[m], {})
    ensures Inputs(edges, edge, {}) == []
  {
    if edges != [] {
      NoInput(edges[..|edges| - 1], edge);
    }
  }

  /** The list of inputs has one element exactly when one edge alone may be the input. */
  lemma OnlySpelled(edges: seq<Edge>, n: nat, i: nat)
    requires DistinctIds(edges) && n < |edges| && i < |edges|
    ensures Inputs(edges, edges[i], {}) == [n] <==> OnlyFeeds(edges, n, i)
  {
    forall m | 0 <= m < |edges|
      ensures IsInput(edges[i], edges[m], {}) <==> Feeds(edges, m, i)
    {
      FeedsSpelled(edges, m, i);
    }
    hide IsInput, Feeds, DistinctIds;
    if Inputs(edges, edges[i], {}) == [n] {
      assert IsInput(edges[i], edges[Inputs(edges, edges[i], {})[0]], {});
      forall m | 0 <= m < |edges| && Feeds(edges, m, i)
        ensures m == n
      {
        InputsComplete(edges, edges[i], {}, m);
      }
    }
    if OnlyFeeds(edges, n, i) {
      OneInput(edges, edges[i], n);
    }
  }

  /** What is shown of swaps.  A combined swap is a verified one with an input; every other edge that may be its
      input is the input of another one.  A verified swap that one edge alone may feed is combined with it if
      that edge feeds no other verified swap, and else some swap is. */
  ghost predicate SwapsShown(edges: seq<Edge>, shown: seq<Shown>) {
    && (forall s :: s in shown && s.Combined? ==>
          && VerifiedSwap(s.output) && s.input.kind != "swap" && s.input.chain == s.output.chain
          && s.input.tx == s.output.tx && s.input.target == s.output.source)
    && (forall i, n :: 0 <= i < |edges| && 0 <= n < |edges| && Combined(edges[n], edges[i]) in shown ==>
          forall m :: 0 <= m < |edges| && Feeds(edges, m, i) ==> Taken(shown, edges[m]))
    && (forall i, n :: 0 <= i < |edges| && 0 <= n < |edges| && VerifiedSwap(edges[i]) && OnlyFeeds(edges, n, i) ==>
          && Taken(shown, edges[n])
          && ((forall j :: 0 <= j < |edges| && VerifiedSwap(edges[j]) && Feeds(edges, n, j) ==> j == i) ==>
                Combined(edges[n], edges[i]) in shown))
  }

  lemma SwapsAreShown(edges: seq<Edge>, shown: seq<Shown>)
    requires DistinctIds(edges) && forall s :: s in shown ==> Paired(s) && NoChoice(edges, shown, s)
    requires forall i, n ::
      0 <= i < |edges| && 0 <= n < |edges| && Matched(edges, i, n) ==> Combined(edges[n], edges[i]) in shown
    requires forall i, n ::
      0 <= i < |edges| && 0 <= n < |edges| && Sole(edges, i, n) ==> Taken(shown, edges[n])
    ensures SwapsShown(edges, shown)
  {
    forall i, n | 0 <= i < |edges| && 0 <= n < |edges|
      ensures Inputs(edges, edges[i], {}) == [n] <==> OnlyFeeds(edges, n, i)
      ensures IsInput(edges[i], edges[n], {}) <==> Feeds(edges, n, i)
      ensures IsVerifiedSwap(edges[i]) <==> VerifiedSwap(edges[i])
    {
      OnlySpelled(edges, n, i);
      FeedsSpelled(edges, n, i);
    }
    hide IsInput, OnlyFeeds, Feeds, Taken, Inputs, IsVerifiedSwap, DistinctIds;
    forall i, n | 0 <= i < |edges| && 0 <= n < |edges| && VerifiedSwap(edges[i]) && OnlyFeeds(edges, n, i)
      ensures Taken(shown, edges[n])
      ensures (forall j :: 0 <= j < |edges| && VerifiedSwap(edges[j]) && Feeds(edges, n, j) ==> j == i) ==>
        Combined(edges[n], edges[i]) in shown
    {
      assert Sole(edges, i, n);
      if forall j :: 0 <= j < |edges| && VerifiedSwap(edges[j]) && Feeds(edges, n, j) ==> j == i {
        assert Matched(edges, i, n);
      }
    }
  }

  // ---------- which inputs are taken ----------

  /** The edge is the input of a combined swap. */
  ghost predicate Taken(shown: seq<Shown>, edge: Edge) {
    exists k :: 0 <= k < |shown| && shown[k].Combined? && shown[k].input == edge
  }

  /** Every other possible input of a combined swap is taken by another one. */
  ghost predicate NoChoice(edges: seq<Edge>, shown: seq<Shown>, s: Shown) {
    s.Combined? ==> forall m :: 0 <= m < |edges| && IsInput(s.output, edges[m], {}) ==> Taken(shown, edges[m])
  }

  /** The n-th edge is the only possible input of a verified swap, the i-th. */
  ghost predicate Sole(edges: seq<Edge>, i: nat, n: nat)
    requires i < |edges| && n < |edges|
  {
    IsVerifiedSwap(edges[i]) && Inputs(edges, edges[i], {}) == [n]
  }

  /** A consumed edge that is no swap is taken. */
  ghost predicate ConsumedTaken(edges: seq<Edge>, consumed: set<string>, shown: seq<Shown>) {
    forall m :: 0 <= m < |edges| && edges[m].id in consumed && edges[m].kind != "swap" ==> Taken(shown, edges[m])
  }

  ghost predicate NoChoices(edges: seq<Edge>, shown: seq<Shown>) {
    forall s :: s in shown ==> NoChoice(edges, shown, s)
  }

  /** Of the swaps before i, none leaves its only possible input untaken. */
  ghost predicate SolesTaken(edges: seq<Edge>, i: nat, shown: seq<Shown>)
    requires i <= |edges|
  {
    forall k, n :: 0 <= k < i && 0 <= n < |edges| && Sole(edges, k, n) ==> Taken(shown, edges[n])
  }

  ghost predicate Taking(edges: seq<Edge>, i: nat, consumed: set<string>, shown: seq<Shown>) {
    i <= |edges| && ConsumedTaken(edges, consumed, shown) && NoChoices(edges, shown) && SolesTaken(edges, i, shown)
  }

  lemma TakenStays(shown: seq<Shown>, more: seq<Shown>, edge: Edge)
    requires Taken(shown, edge) && forall s :: s in shown && s.Combined? ==> s in more
    ensures Taken(more, edge)
  {
    var k :| 0 <= k < |shown| && shown[k].Combined? && shown[k].input == edge;
    assert shown[k] in more;
    var l :| 0 <= l < |more| && more[l] == shown[k];
  }

  lemma NoChoiceStays(edges: seq<Edge>, shown: seq<Shown>, more: seq<Shown>, s: Shown)
    requires NoChoice(edges, shown, s) && forall x :: x in shown && x.Combined? ==> x in more
    ensures NoChoice(edges, more, s)
  {
    if s.Combined? {
      forall m | 0 <= m < |edges| && IsInput(s.output, edges[m], {})
        ensures Taken(more, edges[m])
      {
        TakenStays(shown, more, edges[m]);
      }
    }
  }

  /** A swap is consumed only in its own turn. */
  lemma SwapIsFree(edges: seq<Edge>, i: nat, consumed: set<string>, shown: seq<Shown>)
    requires DistinctIds(edges) && Combining(edges, i, consumed, shown) && i < |edges| && edges[i].kind == "swap"
    ensures edges[i].id !in consumed
  {
    forall j, m | 0 <= j < i && 0 <= m < |edges| && IsVerifiedSwap(edges[j]) && IsInput(edges[j], edges[m], {})
      ensures edges[i].id != edges[j].id && edges[i].id != edges[m].id
    {
      assert m != i;
    }
  }

  /** A single possible input of a swap that is not combined is taken already. */
  lemma SoleIsTaken(edges: seq<Edge>, i: nat, consumed: set<string>, shown: seq<Shown>, n: nat)
    requires DistinctIds(edges) && Combining(edges, i, consumed, shown) && ConsumedTaken(edges, consumed, shown)
    requires i < |edges| && n < |edges| && Sole(edges, i, n)
    requires edges[i].id in consumed || |Inputs(edges, edges[i], consumed)| != 1
    ensures Taken(shown, edges[n])
  {
    SwapIsFree(edges, i, consumed, shown);
    assert IsInput(edges[i], edges[Inputs(edges, edges[i], {})[0]], {});
    if edges[n].id !in consumed {
      SoleInput(edges, edges[i], consumed, n);
    }
  }

  lemma MoreTaken(edges: seq<Edge>, i: nat, consumed: set<string>, shown: seq<Shown>, more: seq<Shown>)
    requires Taking(edges, i, consumed, shown) && forall s :: s in shown && s.Combined? ==> s in more
    ensures ConsumedTaken(edges, consumed, more) && SolesTaken(edges, i, more)
    ensures forall s :: s in shown ==> NoChoice(edges, more, s)
    ensures forall edge :: Taken(shown, edge) ==> Taken(more, edge)
  {
    hide Taken, Sole, NoChoice;
    forall edge | Taken(shown, edge)
      ensures Taken(more, edge)
    {
      TakenStays(shown, more, edge);
    }
    forall s | s in shown
      ensures NoChoice(edges, more, s)
    {
      NoChoiceStays(edges, shown, more, s);
    }
  }

  lemma TakingPlain(edges: seq<Edge>, i: nat, consumed: set<string>, shown: seq<Shown>, more: seq<Shown>)
    requires DistinctIds(edges) && Combining(edges, i, consumed, shown) && Taking(edges, i, consumed, shown)
    requires i < |edges|
    requires edges[i].id in consumed || !IsVerifiedSwap(edges[i]) || |Inputs(edges, edges[i], consumed)| != 1
    requires more == shown || more == shown + [Plain(edges[i])]
    ensures Taking(edges, i + 1, consumed, more)
  {
    MoreTaken(edges, i, consumed, shown, more);
    forall n | 0 <= n < |edges| && Sole(edges, i, n)
      ensures Taken(more, edges[n])
    {
      SoleIsTaken(edges, i, consumed, shown, n);
    }
    assert NoChoice(edges, more, Plain(edges[i]));
    hide Taken, Sole, NoChoice, ConsumedTaken, Inputs;
  }

  lemma {:induction false} InputsComplete(edges: seq<Edge>, edge: Edge, consumed: set<string>, m: nat)
    requires m < |edges| && IsInput(edge, edges[m], consumed)
    ensures m in Inputs(edges, edge, consumed)
  {
    if m < |edges| - 1 {
      InputsComplete(edges[..|edges| - 1], edge, consumed, m);
    }
  }

  /** A swap about to be combined has no other input that is not taken. */
  lemma OthersTaken(edges: seq<Edge>, i: nat, consumed: set<string>, shown: seq<Shown>, n: nat, m: nat)
    requires Taking(edges, i, consumed, shown) && i < |edges| && n < |edges| && m < |edges|
    requires Inputs(edges, edges[i], consumed) == [n] && IsInput(edges[i], edges[m], {})
    ensures m == n || Taken(shown, edges[m])
  {
    if edges[m].id !in consumed {
      InputsComplete(edges, edges[i], consumed, m);
    }
  }

  lemma CombinedHasNoChoice(
      edges: seq<Edge>, i: nat, consumed: set<string>, shown: seq<Shown>, n: nat, more: seq<Shown>)
    requires Taking(edges, i, consumed, shown) && i < |edges| && n < |edges|
    requires Inputs(edges, edges[i], consumed) == [n]
    requires Taken(more, edges[n]) && forall edge :: Taken(shown, edge) ==> Taken(more, edge)
    ensures NoChoice(edges, more, Combined(edges[n], edges[i]))
  {
    forall m | 0 <= m < |edges| && IsInput(edges[i], edges[m], {})
      ensures Taken(more, edges[m])
    {
      OthersTaken(edges, i, consumed, shown, n, m);
    }
  }

  lemma SoleIsInput(edges: seq<Edge>, i: nat, n: nat)
    requires i < |edges| && n < |edges| && Sole(edges, i, n)
    ensures IsInput(edges[i], edges[n], {})
  {
    assert IsInput(edges[i], edges[Inputs(edges, edges[i], {})[0]], {});
  }

  lemma SoleTaken(
      edges: seq<Edge>, i: nat, consumed: set<string>, shown: seq<Shown>, n: nat, more: seq<Shown>)
    requires Taking(edges, i, consumed, shown) && i < |edges| && n < |edges|
    requires Inputs(edges, edges[i], consumed) == [n]
    requires Taken(more, edges[n]) && forall edge :: Taken(shown, edge) ==> Taken(more, edge)
    ensures forall m :: 0 <= m < |edges| && Sole(edges, i, m) ==> Taken(more, edges[m])
  {
    hide Taken, Inputs, IsInput, Taking, Sole;
    forall m | 0 <= m < |edges| && Sole(edges, i, m)
      ensures Taken(more, edges[m])
    {
      SoleIsInput(edges, i, m);
      OthersTaken(edges, i, consumed, shown, n, m);
    }
  }

  lemma TakingCombined(edges: seq<Edge>, i: nat, consumed: set<string>, shown: seq<Shown>, n: nat, base: seq<Shown>)
    requires DistinctIds(edges) && Taking(edges, i, consumed, shown) && i < |edges| && n < |edges|
    requires IsVerifiedSwap(edges[i]) && Inputs(edges, edges[i], consumed) == [n]
    requires forall s :: s in base ==> s in shown
    requires forall s :: s in shown && s.Combined? ==> s in base
    ensures
      Taking(edges, i + 1, consumed + {edges[i].id} + {edges[n].id}, base + [Combined(edges[n], edges[i])])
  {
    var s := Combined(edges[n], edges[i]);
    var r := base + [s];
    assert Taken(r, edges[n]) by {
      assert r[|base|] == s;
    }
    MoreTaken(edges, i, consumed, shown, r);
    CombinedHasNoChoice(edges, i, consumed, shown, n, r);
    SoleTaken(edges, i, consumed, shown, n, r);
    PairTaken(edges, consumed, r, i, n);
    hide Taken, Inputs, NoChoice, Sole, IsInput, ConsumedTaken;
    assert NoChoices(edges, r);
    assert SolesTaken(edges, i + 1, r);
  }

  lemma PairTaken(edges: seq<Edge>, consumed: set<string>, shown: seq<Shown>, i: nat, n: nat)
    requires DistinctIds(edges) && i < |edges| && n < |edges| && edges[i].kind == "swap"
    requires ConsumedTaken(edges, consumed, shown) && Taken(shown, edges[n])
    ensures ConsumedTaken(edges, consumed + {edges[i].id} + {edges[n].id}, shown)
  {
    hide Taken;
  }

  /** Whatever the order of the edges, every one of them is shown exactly once: as itself, or as one
      leg of one combined swap. */
  method CombineSwapEdges(edges: seq<Edge>) returns (shown: seq<Shown>)
    requires DistinctIds(edges)
    ensures AllLegs(shown) == multiset(edges)
    ensures SwapsShown(edges, shown)
  {
    hide Showing, AllLegs, Dealt, Paired, Combining, Matched, Taking, NoChoice, Taken, Sole, SwapsShown;
    var consumed: set<string> := {};
    shown := [];
    StartShowing(edges);
    for i := 0 to |edges|
      invariant Showing(edges, i, consumed, shown) && Combining(edges, i, consumed, shown)
      invariant Taking(edges, i, consumed, shown)
    {
      var edge := edges[i];
      if edge.id in consumed {
        SkipConsumed(edges, i, consumed, shown);
        NotCombined(edges, i, consumed, shown, shown);
        TakingPlain(edges, i, consumed, shown, shown);
        continue;
      }
      var inputs := if IsVerifiedSwap(edge) then Inputs(edges, edge, consumed) else [];
      if |inputs| != 1 {
        ShowPlain(edges, i, consumed, shown);
        NotCombined(edges, i, consumed, shown, shown + [Plain(edge)]);
        TakingPlain(edges, i, consumed, shown, shown + [Plain(edge)]);
        shown := shown + [Plain(edge)];
        continue;
      }
      var n := inputs[0];
      var input := edges[n];
      var k := 0;
      while k < |shown| && !(shown[k].Plain? && shown[k].edge.id == input.id)
        invariant k <= |shown|
        invariant forall j :: 0 <= j < k ==> !(shown[j].Plain? && shown[j].edge.id == input.id)
      {
        k := k + 1;
      }
      ShownAt(edges, i, consumed, shown, n, k);
      ShowCombined(edges, i, consumed, shown, n, k);
      NowCombined(edges, i, consumed, shown, n, k);
      BaseKeeps(shown, k);
      TakingCombined(edges, i, consumed, shown, n, if k < |shown| then Without(shown, k) else shown);
      consumed := consumed + {edge.id} + {input.id};
      if k < |shown| {
        shown := Without(shown, k);
      }
      shown := shown + [Combined(input, edge)];
    }
    AllDealt(edges, consumed, shown);
    AllTaken(edges, consumed, shown);
    SwapsAreShown(edges, shown);
  }

  lemma AllTaken(edges: seq<Edge>, consumed: set<string>, shown: seq<Shown>)
    requires Taking(edges, |edges|, consumed, shown)
    ensures forall s :: s in shown ==> NoChoice(edges, shown, s)
    ensures forall i, n ::
      0 <= i < |edges| && 0 <= n < |edges| && Sole(edges, i, n) ==> Taken(shown, edges[n])
  {
  }

  lemma BaseKeeps(shown: seq<Shown>, k: nat)
    requires k <= |shown| && (k < |shown| ==> shown[k].Plain?)
    ensures
      var base := if k < |shown| then Without(shown, k) else shown;
      (forall s :: s in base ==> s in shown) && (forall s :: s in shown && s.Combined? ==> s in base)
  {
    forall s | k < |shown| && s in shown && s.Combined?
      ensures s in Without(shown, k)
    {
      WithoutKeeps(shown, k, s);
    }
  }

  lemma StartShowing(edges: seq<Edge>)
    ensures Showing(edges, 0, {}, []) && Combining(edges, 0, {}, []) && Taking(edges, 0, {}, [])
  {
    PickedNone(edges);
    assert edges[0..] == edges;
  }

  lemma AllDealt(edges: seq<Edge>, consumed: set<string>, shown: seq<Shown>)
    requires Showing(edges, |edges|, consumed, shown) && Combining(edges, |edges|, consumed, shown)
    ensures AllLegs(shown) == multiset(edges)
    ensures forall s :: s in shown ==> Paired(s)
    ensures forall i, n ::
      0 <= i < |edges| && 0 <= n < |edges| && Matched(edges, i, n) ==> Combined(edges[n], edges[i]) in shown
  {
    assert edges[..|edges|] == edges && edges[|edges|..] == [];
  }

  /** The search finds the input exactly when its turn was before the swap's. */
  lemma ShownAt(edges: seq<Edge>, i: nat, consumed: set<string>, shown: seq<Shown>, n: nat, k: nat)
    requires DistinctIds(edges) && Showing(edges, i, consumed, shown) && i < |edges| && n < |edges| && n != i &&
      edges[n].id !in consumed
    requires k <= |shown| && forall j :: 0 <= j < k ==> !(shown[j].Plain? && shown[j].edge.id == edges[n].id)
    requires k < |shown| ==> shown[k].Plain? && shown[k].edge.id == edges[n].id
    ensures k < |shown| <==> n < i
    ensures k < |shown| ==> shown[k] == Plain(edges[n])
  {
    hide Dealt, AllLegs;
    if n < i {
      var j :| 0 <= j < |shown| && shown[j] == Plain(edges[n]);
      assert k <= j;
    }
    if k < |shown| {
      LegsOf(shown, k);
      DealtMember(edges, i, consumed, shown[k].edge);
      var m :| 0 <= m < |edges| && edges[m] == shown[k].edge && (m < i || edges[m].id in consumed);
      assert m == n;
    }
  }

  lemma {:induction false} LegsOf(shown: seq<Shown>, k: nat)
    requires k < |shown| && shown[k].Plain?
    ensures shown[k].edge in AllLegs(shown)
  {
    if k < |shown| - 1 {
      LegsOf(shown[..|shown| - 1], k);
    }
  }

  lemma DealtMember(edges: seq<Edge>, i: nat, consumed: set<string>, e: Edge)
    requires i <= |edges| && e in Dealt(edges, i, consumed)
    ensures exists m :: 0 <= m < |edges| && edges[m] == e && (m < i || edges[m].id in consumed)
  {
    if e in edges[..i] {
      var m :| 0 <= m < i && edges[..i][m] == e;
      assert edges[m] == e;
    } else {
      PickedMember(edges[i..], consumed, e);
      var m :| 0 <= m < |edges[i..]| && edges[i..][m] == e && e.id in consumed;
      assert edges[i + m] == e;
    }
  }

  lemma {:induction false} PickedMember(edges: seq<Edge>, consumed: set<string>, e: Edge)
    requires e in Picked(edges, consumed)
    ensures exists m :: 0 <= m < |edges| && edges[m] == e && e.id in consumed
  {
    if e in Picked(edges[1..], consumed) {
      PickedMember(edges[1..], consumed, e);
      var m :| 0 <= m < |edges[1..]| && edges[1..][m] == e && e.id in consumed;
      assert edges[m + 1] == e;
    } else {
      assert edges[0] == e;
    }
  }
}
