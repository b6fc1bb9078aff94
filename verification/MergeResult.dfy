/** The whole merge of an extension into its root (internal/tracer/extension.go, MergeResults). */
module MergeResult {
  import opened Fifo
  import opened Sorting
  import opened Ledgers
  import opened LedgerTime
  import opened Trace
  import opened Merge

  datatype Label = Label(address: Address, kind: string, source: string, text: string)

  datatype MoneyTransfer = MoneyTransfer(
    tx: string, from: Address, recipient: Address, asset: nat, amount: nat, inferred: bool)

  datatype Result = Result(
    nodes: seq<Entry>, edges: seq<Edge>, paths: seq<seq<Address>>, transfers: seq<MoneyTransfer>,
    money: seq<MoneyState>, labels: seq<Label>, partly: bool, reconciled: bool)

  // ---------- the keys ----------

  /** Neither the depth nor the direction of the trace is part of an edge's key. */
  function RecordKey(e: Edge): (string, Address, Address, nat, bool, nat, nat, seq<Address>) {
    (e.tx, e.from, e.recipient, e.asset, e.converted, e.amount, e.block, e.path)
  }

  function PathKey(p: seq<Address>): seq<Address> { p }

  /** The amount is not part of the key. */
  function TransferKey(t: MoneyTransfer): (string, Address, Address, nat) {
    (t.tx, t.from, t.recipient, t.asset)
  }

  /** Nor are amounts here. */
  function MoneyKey(m: MoneyState): (nat, Direction, string, seq<Address>) {
    (m.account, m.direction, m.entry, m.path)
  }

  function LabelKey(l: Label): (Address, string, string) {
    (l.address, l.kind, l.source)
  }

  // ---------- the merge ----------

  /** New money states are appended, then all of them are sorted and matched. */
  function MergeMoney(root: seq<MoneyState>, extra: seq<MoneyState>): seq<MoneyState> {
    Matched(StableSort(AppendUnique(MoneyKey, root, extra)))
  }

  function MergeResults(root: Result, extension: Result): Result {
    var money := MergeMoney(root.money, extension.money);
    Result(MergeNodes(root.nodes, extension.nodes),
           AppendUnique(RecordKey, root.edges, extension.edges),
           AppendUnique(PathKey, root.paths, extension.paths),
           AppendUnique(TransferKey, root.transfers, extension.transfers),
           money,
           AppendUnique(LabelKey, root.labels, extension.labels),
           root.partly || extension.partly,
           Reconciled(money))
  }

  method MergeInto(root: Result, extension: Result) returns (r: Result)
    ensures r == MergeResults(root, extension)
  {
    hide AppendUnique, AppendNode, Matched, StableSort, LedgerOf;
    var labels := AppendUniqueLoop(LabelKey, root.labels, extension.labels);
    var nodes := root.nodes;
    for i := 0 to |extension.nodes|
      invariant nodes == MergeNodes(root.nodes, extension.nodes[..i])
    {
      assert extension.nodes[..i + 1][..i] == extension.nodes[..i];
      nodes := AppendNodeLoop(nodes, extension.nodes[i]);
    }
    assert extension.nodes[..|extension.nodes|] == extension.nodes;
    var edges := AppendUniqueLoop(RecordKey, root.edges, extension.edges);
    var paths := AppendUniqueLoop(PathKey, root.paths, extension.paths);
    var transfers := AppendUniqueLoop(TransferKey, root.transfers, extension.transfers);
    var states := AppendUniqueLoop(MoneyKey, root.money, extension.money);
    var all := new MoneyState[|states|](i requires 0 <= i < |states| => states[i]);
    assert all[..] == states;
    ConsumeMoneyStates(all);
    var money := all[..];
    var ledgers := BuildLedgers(money);
    var reconciled := AllComplete(money, ledgers);
    r := Result(nodes, edges, paths, transfers, money, labels, root.partly || extension.partly, reconciled);
  }

  // ---------- money states of a second merge ----------

  lemma {:induction false} SameKeys(a: seq<MoneyState>, b: seq<MoneyState>)
    requires |a| == |b| && forall i :: 0 <= i < |a| ==> MoneyKey(a[i]) == MoneyKey(b[i])
    ensures Keys(MoneyKey, a) == Keys(MoneyKey, b)
  {
    if a != [] {
      SameKeys(a[..|a| - 1], b[..|b| - 1]);
    }
  }

  lemma KeysPermuted(a: seq<MoneyState>, b: seq<MoneyState>)
    requires forall x :: x in a ==> x in b
    ensures Keys(MoneyKey, a) <= Keys(MoneyKey, b)
  {
    forall k | k in Keys(MoneyKey, a)
      ensures k in Keys(MoneyKey, b)
    {
      var i := KeyFrom(MoneyKey, a, k);
      assert a[i] in b;
      var j :| 0 <= j < |b| && b[j] == a[i];
      KeyAt(MoneyKey, b, j);
    }
  }

  lemma {:induction false} InsertLast<T>(less: (T, T) -> bool, s: seq<T>, x: T)
    requires s == [] || !less(x, s[|s| - 1])
    ensures Insert(less, x, s) == s + [x]
  {
  }

  /** Sorting what is sorted changes nothing. */
  lemma {:induction false} SortOfOrdered<T>(less: (T, T) -> bool, s: seq<T>)
    requires Ordered(less, s)
    ensures Sort(less, s) == s
  {
    if s != [] {
      var front := s[..|s| - 1];
      SortOfOrdered(less, front);
      InsertLast(less, front, s[|s| - 1]);
      assert s == front + [s[|s| - 1]];
    }
  }

  /** Matched states are sorted if the states were. */
  lemma MatchedOrdered(s: seq<MoneyState>)
    requires InBlockOrder(s)
    ensures InBlockOrder(Matched(s)) && StableSort(Matched(s)) == Matched(s)
  {
    SortOfOrdered(Less, Matched(s));
  }

  /** A second merge of the same extension appends no money state: it matches the states again. */
  lemma MoneyMergedTwice(root: seq<MoneyState>, extra: seq<MoneyState>)
    ensures MergeMoney(MergeMoney(root, extra), extra) == Matched(MergeMoney(root, extra))
  {
    var all := AppendUnique(MoneyKey, root, extra);
    var once := MergeMoney(root, extra);
    AppendUniqueSound(MoneyKey, root, extra);
    StableSortSound(all, 0, 0);
    SortKeepsMembers(Less, all);
    SameKeys(once, StableSort(all));
    KeysPermuted(all, StableSort(all));
    NothingNew(MoneyKey, once, extra);
    MatchedOrdered(StableSort(all));
  }

  // ---------- what a merge keeps ----------

  /** The root stays the beginning of the result and every extension edge is there by its key.
      Merging the same extension again changes neither nodes, edges, paths, money transfers nor
      labels; it only matches the money states once more. */
  lemma MergeKeepsRoot(root: Result, extension: Result)
    ensures
      var r := MergeResults(root, extension);
      && NodesKept(root.nodes, r.nodes)
      && root.edges <= r.edges && root.paths <= r.paths && root.transfers <= r.transfers && root.labels <= r.labels
      && (forall e :: e in r.edges ==> e in root.edges || e in extension.edges)
      && (forall e :: e in extension.edges ==> exists f :: f in r.edges && RecordKey(f) == RecordKey(e))
    ensures
      var r := MergeResults(root, extension);
      MergeResults(r, extension) == r.(money := Matched(r.money), reconciled := Reconciled(Matched(r.money)))
  {
    hide AppendUnique, MergeNodes, Matched, StableSort, LedgerOf;
    MergeNodesKeeps(root.nodes, extension.nodes);
    MergeNodesTwice(root.nodes, extension.nodes);
    AppendUniqueSound(RecordKey, root.edges, extension.edges);
    AppendUniqueSound(PathKey, root.paths, extension.paths);
    AppendUniqueSound(TransferKey, root.transfers, extension.transfers);
    AppendUniqueSound(LabelKey, root.labels, extension.labels);
    AppendUniqueTwice(RecordKey, root.edges, extension.edges);
    AppendUniqueTwice(PathKey, root.paths, extension.paths);
    AppendUniqueTwice(TransferKey, root.transfers, extension.transfers);
    AppendUniqueTwice(LabelKey, root.labels, extension.labels);
    MoneyMergedTwice(root.money, extension.money);
    EdgesMerged(root.edges, extension.edges);
  }

  lemma EdgesMerged(root: seq<Edge>, extra: seq<Edge>)
    ensures
      var r := AppendUnique(RecordKey, root, extra);
      && (forall e :: e in r ==> e in root || e in extra)
      && (forall e :: e in extra ==> exists f :: f in r && RecordKey(f) == RecordKey(e))
  {
    var r := AppendUnique(RecordKey, root, extra);
    AppendUniqueSound(RecordKey, root, extra);
    forall e | e in r
      ensures e in root || e in extra
    {
      var i :| 0 <= i < |r| && r[i] == e;
      if i < |root| {
        assert root[i] == e;
      }
    }
    forall e | e in extra
      ensures exists f :: f in r && RecordKey(f) == RecordKey(e)
    {
      var i :| 0 <= i < |extra| && extra[i] == e;
      KeyAt(RecordKey, extra, i);
      var j := KeyFrom(RecordKey, r, RecordKey(e));
      assert r[j] in r;
    }
  }

  // ---------- the merge spelled out ----------

  predicate SameEdge(e: Edge, f: Edge) {
    && e.tx == f.tx && e.from == f.from && e.recipient == f.recipient && e.asset == f.asset
    && e.converted == f.converted && e.amount == f.amount && e.block == f.block && e.path == f.path
  }

  predicate SameTransfer(x: MoneyTransfer, y: MoneyTransfer) {
    x.tx == y.tx && x.from == y.from && x.recipient == y.recipient && x.asset == y.asset
  }

  predicate SameMoney(x: MoneyState, y: MoneyState) {
    x.account == y.account && x.direction == y.direction && x.entry == y.entry && x.path == y.path
  }

  predicate SameLabel(x: Label, y: Label) {
    x.address == y.address && x.kind == y.kind && x.source == y.source
  }

  /** The root's elements in front; then elements of the extension, none the same as one before it; and for every
      element of the extension one that is the same. */
  ghost predicate Joined<T(!new)>(same: (T, T) -> bool, root: seq<T>, extra: seq<T>, r: seq<T>) {
    && root <= r
    && (forall i :: |root| <= i < |r| ==> r[i] in extra)
    && (forall i, j :: 0 <= j < i < |r| && |root| <= i ==> !same(r[j], r[i]))
    && (forall x :: x in extra ==> exists i :: 0 <= i < |r| && same(x, r[i]))
  }

  lemma {:induction false} AppendJoins<T(!new), K>(
      key: T -> K, same: (T, T) -> bool, root: seq<T>, extra: seq<T>)
    requires forall x, y :: same(x, y) <==> key(x) == key(y)
    ensures Joined(same, root, extra, AppendUnique(key, root, extra))
  {
    hide AppendUnique, Keys;
    var r := AppendUnique(key, root, extra);
    AppendUniqueSound(key, root, extra);
    forall i, j | 0 <= j < i < |r| && |root| <= i
      ensures !same(r[j], r[i])
    {
      if j < |root| {
        KeyAt(key, root, j);
        assert r[j] == root[j];
      }
    }
    forall x | x in extra
      ensures exists i :: 0 <= i < |r| && same(x, r[i])
    {
      var i :| 0 <= i < |extra| && extra[i] == x;
      KeyAt(key, extra, i);
      var j := KeyFrom(key, r, key(x));
      assert same(x, r[j]);
    }
  }

  /** What a merge joins, and what is the same: edges in all but depth and direction, transfers and money states
      in all but amounts, labels in all but their text.  The joined money states are sorted and matched; the
      result is partial if one of both was, and reconciled if no account needs an opening balance. */
  lemma MergeJoins(root: Result, extension: Result) returns (states: seq<MoneyState>)
    ensures
      var r := MergeResults(root, extension);
      && Joined(SameEdge, root.edges, extension.edges, r.edges)
      && Joined((p: seq<Address>, q: seq<Address>) => p == q, root.paths, extension.paths, r.paths)
      && Joined(SameTransfer, root.transfers, extension.transfers, r.transfers)
      && Joined(SameLabel, root.labels, extension.labels, r.labels)
      && Joined(SameMoney, root.money, extension.money, states)
      && r.money == Matched(StableSort(states)) && InBlockOrder(r.money)
      && (r.partly <==> root.partly || extension.partly)
      && (r.reconciled <==> forall account: nat :: SolventInTime(states, account, 0))
  {
    states := AppendUnique(MoneyKey, root.money, extension.money);
    AppendJoins(RecordKey, SameEdge, root.edges, extension.edges);
    AppendJoins(PathKey, (p: seq<Address>, q: seq<Address>) => p == q, root.paths, extension.paths);
    AppendJoins(TransferKey, SameTransfer, root.transfers, extension.transfers);
    AppendJoins(LabelKey, SameLabel, root.labels, extension.labels);
    AppendJoins(MoneyKey, SameMoney, root.money, extension.money);
    hide AppendUnique, Matched, StableSort, LedgerOf, SolventInTime, Reconciled, Solvent, MergeNodes, Joined;
    StableSortSound(states, 0, 0);
    MatchedOrdered(StableSort(states));
    ReconciledInTime(states);
  }
}
