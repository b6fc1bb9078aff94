/** The retry loop around an extension (internal/tracer/manager.go, processExtension). */
module ExtensionRetry {
  import opened Fifo
  import opened Sorting
  import opened Wrappers
  import opened Trace
  import opened Extension
  import TR = TraceRetry
  import R = Retry

  function DependencyOf(address: Address, d: Direction, block: nat): R.Dependency {
    if d == Out then R.Dependency(address, block, 0) else R.Dependency(address, 0, block)
  }

  /** An extension that is refused ends the job like a finished one. */
  function AnswerOf(o: Extended): R.Answer {
    if o.Unsynced? then R.Missing(DependencyOf(o.address, o.direction, o.block)) else R.Done
  }

  // ---------- what an extension reports ----------

  /** Only the far end of one of these transfers is reported, for its block, and never an address
      that was given up. */
  ghost predicate Reported(terminal: set<Address>, transfers: seq<Transfer>, d: Direction, o: Extended) {
    o.Unsynced? ==>
      && o.address !in terminal && o.direction == d
      && exists c :: c in transfers && o.address == Far(d, c) && o.block == c.block
  }

  lemma {:induction false} TryAllReports(
      w: World, terminal: set<Address>, h: Hop, b: Branch, cs: seq<Transfer>, transfers: seq<Transfer>, depth: nat)
    requires forall c :: c in cs ==> c in transfers
    ensures Reported(terminal, transfers, b.direction, TryAll(TR.With(w, terminal), h, b, cs, depth))
    decreases |cs|
  {
    hide AppendNode, Pair;
    if cs != [] {
      var step := Try(TR.With(w, terminal), h, b, cs[0], depth);
      assert cs[0] in transfers;
      if step.Done? {
        TryAllReports(w, terminal, step.hop, b, cs[1..], transfers, depth);
      }
    }
  }

  lemma FromAnchorReports(w: World, terminal: set<Address>, h: Hop, q: Request, a: Anchor, depth: nat)
    ensures Reported(terminal, w.transfers, q.direction, FromAnchor(TR.With(w, terminal), h, q, a, depth))
  {
    hide TryAll, Reported, Try;
    var b := BranchOf(q, a);
    var found := Matching(w.transfers, b);
    forall c | c in Sort(Earlier(b.direction), found)
      ensures c in w.transfers
    {
      Candidates(w.transfers, b, Earlier(b.direction), c);
    }
    NothingReported(terminal, w.transfers, q.direction, h);
    NothingReported(terminal, w.transfers, q.direction, CloseFirst(h.(partly := true), HighFrequency));
    TryAllReports(w, terminal, h.(budget := a.amount), b, Sort(Earlier(b.direction), found), w.transfers, depth);
  }

  lemma NothingReported(terminal: set<Address>, transfers: seq<Transfer>, d: Direction, h: Hop)
    ensures Reported(terminal, transfers, d, Done(h))
  {
  }

  lemma {:induction false} FromAnchorsReports(
      w: World, terminal: set<Address>, h: Hop, edges: seq<Edge>, q: Request, assets: seq<nat>, depth: nat)
    ensures Reported(terminal, w.transfers, q.direction, FromAnchors(TR.With(w, terminal), h, edges, q, assets, depth))
    decreases |assets|
  {
    hide FromAnchor, AnchorOf;
    if assets != [] {
      var a := AnchorOf(edges, q, assets[0]);
      if a.None? {
        FromAnchorsReports(w, terminal, h, edges, q, assets[1..], depth);
      } else {
        FromAnchorReports(w, terminal, h, q, a.value, depth);
        var step := FromAnchor(TR.With(w, terminal), h, q, a.value, depth);
        if step.Done? {
          FromAnchorsReports(w, terminal, step.hop, edges, q, assets[1..], depth);
        }
      }
    }
  }

  /** With some addresses given up, an extension reports none of them; what it does report is the far
      end of a stored transfer, with the block of that transfer as bound. */
  lemma ExtensionReports(
      w: World, terminal: set<Address>, nodes: seq<Node>, edges: seq<Edge>, q: Request, assets: seq<nat>)
    ensures Reported(terminal, w.transfers, q.direction, ExtendFrom(TR.With(w, terminal), nodes, edges, q, assets))
  {
    hide FromAnchors;
    var node := FindNode(nodes, q.address);
    if node.Some? {
      FromAnchorsReports(w, terminal, Hop([node.value], [], [], false, 0), edges, q, assets, node.value.depth);
    }
  }

  /** An extension is retried exactly when it misses an address, for the blocks from that of a stored transfer on
      when it looks forward, and up to that of one when it looks back. */
  lemma ExtensionAsks(
      w: World, terminal: set<Address>, nodes: seq<Node>, edges: seq<Edge>, q: Request, assets: seq<nat>)
    ensures
      var o := ExtendFrom(TR.With(w, terminal), nodes, edges, q, assets);
      && (AnswerOf(o).Missing? <==> o.Unsynced?)
      && (o.Unsynced? ==>
            var d := AnswerOf(o).dependency;
            exists c :: c in w.transfers && AsksFor(q, d, c) && d.address !in terminal)
  {
    hide ExtendFrom;
    ExtensionReports(w, terminal, nodes, edges, q, assets);
    var o := ExtendFrom(TR.With(w, terminal), nodes, edges, q, assets);
    if o.Unsynced? {
      var c :| c in w.transfers && o.address == Far(q.direction, c) && o.block == c.block;
      assert AsksFor(q, AnswerOf(o).dependency, c);
    }
  }

  /** The range is asked for because of that transfer. */
  predicate AsksFor(q: Request, d: R.Dependency, c: Transfer) {
    if q.direction == Out then d.address == c.recipient && d.start == c.block && d.end == 0
    else d.address == c.from && d.start == 0 && d.end == c.block
  }

  // ---------- the loop around it ----------

  /** The range asked for before the first extension: from the earliest block of all anchors, up to the
      latest. */
  function SyncBounds(edges: seq<Edge>, q: Request, assets: seq<nat>): R.Dependency {
    if assets == [] then R.Dependency(q.address, 0, 0)
    else
      var rest, a := SyncBounds(edges, q, assets[..|assets| - 1]), AnchorOf(edges, q, assets[|assets| - 1]);
      if a.None? then rest
      else
        var from := a.value.from;
        R.Dependency(q.address, if from > 0 && (rest.start == 0 || from < rest.start) then from else rest.start,
                     Max(a.value.through, rest.end))
  }

  /** It is the smallest open range of the node that contains the blocks of all anchors: from the least first
      block there is, and up to the greatest last block. */
  lemma {:induction false} BoundsOfAnchors(edges: seq<Edge>, q: Request, assets: seq<nat>)
    ensures
      var d := SyncBounds(edges, q, assets);
      && d.address == q.address
      && (forall x :: AnchorIn(edges, q, assets, x) ==>
            (x.from > 0 ==> 0 < d.start <= x.from) && x.through <= d.end)
      && (d.start > 0 ==> exists x :: AnchorIn(edges, q, assets, x) && x.from == d.start)
      && (d.end > 0 ==> exists x :: AnchorIn(edges, q, assets, x) && x.through == d.end)
  {
    hide AnchorOf;
    if assets != [] {
      var front, last := assets[..|assets| - 1], assets[|assets| - 1];
      BoundsOfAnchors(edges, q, front);
      assert assets == front + [last];
      forall x
        ensures AnchorIn(edges, q, assets, x) <==> AnchorIn(edges, q, front, x) || AnchorOf(edges, q, last) == Some(x)
      {
        AnchorSnoc(edges, q, front, last, x);
      }
    }
  }

  ghost predicate AnchorIn(edges: seq<Edge>, q: Request, assets: seq<nat>, x: Anchor) {
    exists asset :: asset in assets && AnchorOf(edges, q, asset) == Some(x)
  }

  lemma AnchorSnoc(edges: seq<Edge>, q: Request, front: seq<nat>, last: nat, x: Anchor)
    ensures AnchorIn(edges, q, front + [last], x) <==>
      AnchorIn(edges, q, front, x) || AnchorOf(edges, q, last) == Some(x)
  {
    hide AnchorOf;
    assert last in front + [last];
  }

  /** Round n extends the root by what the repository holds then, with what was given up so far. */
  function SettingOf(
      worlds: nat -> World, syncs: nat -> bool,
      nodes: seq<Node>, edges: seq<Edge>, q: Request, assets: seq<nat>): R.Setting
  {
    R.Setting(
      Some(SyncBounds(edges, q, assets)),
      (n: nat, terminal: set<Address>) => AnswerOf(ExtendFrom(TR.With(worlds(n), terminal), nodes, edges, q, assets)),
      syncs)
  }

  /** All that can be asked for while the repository holds transfers of `stored` only. */
  function Dependencies(stored: set<Transfer>, edges: seq<Edge>, q: Request, assets: seq<nat>): set<R.Dependency> {
    {SyncBounds(edges, q, assets)} + set c | c in stored :: DependencyOf(Far(q.direction, c), q.direction, c.block)
  }

  ghost predicate StoredIn(worlds: nat -> World, stored: set<Transfer>) {
    forall n: nat, c :: c in worlds(n).transfers ==> c in stored
  }

  lemma SettingGuarded(
      worlds: nat -> World, stored: set<Transfer>, syncs: nat -> bool,
      nodes: seq<Node>, edges: seq<Edge>, q: Request, assets: seq<nat>)
    requires StoredIn(worlds, stored)
    ensures
      var s := SettingOf(worlds, syncs, nodes, edges, q, assets);
      R.Within(s, Dependencies(stored, edges, q, assets)) && R.Guarded(s, {})
  {
    var s, all := SettingOf(worlds, syncs, nodes, edges, q, assets), Dependencies(stored, edges, q, assets);
    hide ExtendFrom, SyncBounds, TR.With;
    forall n: nat, terminal {:trigger s.attempt(n, terminal)} | s.attempt(n, terminal).Missing?
      ensures s.attempt(n, terminal).dependency in all
      ensures s.attempt(n, terminal).dependency.address !in terminal
    {
      ExtensionReports(worlds(n), terminal, nodes, edges, q, assets);
      var o := ExtendFrom(TR.With(worlds(n), terminal), nodes, edges, q, assets);
      var c :| c in worlds(n).transfers && o.address == Far(q.direction, c) && o.block == c.block;
      assert c in stored;
    }
  }

  /** Up to round n each range was asked for once, but for the range the job began with, which is asked
      for again exactly when an extension reports it. */
  ghost predicate AskedOnce(s: R.Setting, n: nat) {
    var r := R.Requests(s, R.After(s, n));
    && (forall i, k :: 0 <= i < k < |r| && r[i] == r[k] ==> i == 0)
    && r != [] && (r[0] in r[1..] <==> R.FirstReported(s, n))
  }

  lemma ExtensionRequests(s: R.Setting, all: set<R.Dependency>, n: nat)
    requires R.Within(s, all) && s.first.Some?
    ensures AskedOnce(s, n)
  {
    hide R.After, R.FirstReported, R.Within;
    R.RequestedOnce(s, all, n);
  }

  /** However the repository answers, an extension job ends, within as many rounds as there are
      dependencies and addresses, and asks for each range once but for the first. */
  lemma ExtensionJobEnds(
      worlds: nat -> World, stored: set<Transfer>, syncs: nat -> bool,
      nodes: seq<Node>, edges: seq<Edge>, q: Request, assets: seq<nat>)
    requires StoredIn(worlds, stored)
    ensures
      var s, all := SettingOf(worlds, syncs, nodes, edges, q, assets), Dependencies(stored, edges, q, assets);
      && R.Halts(s)
      && !R.Waiting(R.After(s, |all| + |R.Places(all)| + 1))
      && forall n: nat :: AskedOnce(s, n)
  {
    var s, all := SettingOf(worlds, syncs, nodes, edges, q, assets), Dependencies(stored, edges, q, assets);
    SettingGuarded(worlds, stored, syncs, nodes, edges, q, assets);
    assert s.first.Some?;
    hide SettingOf, Dependencies, R.Within, R.Guarded, AskedOnce, R.After;
    R.GuardedHalts(s, all);
    forall n: nat
      ensures AskedOnce(s, n)
    {
      ExtensionRequests(s, all, n);
    }
  }

  /** The loop of an extension job runs to its end, with no condition on what is stored or answered. */
  method ResolveExtension(
      worlds: nat -> World, ghost stored: set<Transfer>, syncs: nat -> bool,
      nodes: seq<Node>, edges: seq<Edge>, q: Request, assets: seq<nat>)
    returns (j: R.Job)
    requires StoredIn(worlds, stored)
    ensures
      var s := SettingOf(worlds, syncs, nodes, edges, q, assets);
      exists n: nat :: j == R.After(s, n) && !R.Waiting(j)
  {
    SettingGuarded(worlds, stored, syncs, nodes, edges, q, assets);
    hide R.Within, R.Guarded, ExtendFrom;
    j := R.Resolve(SettingOf(worlds, syncs, nodes, edges, q, assets), Dependencies(stored, edges, q, assets));
  }
}
