/** Tracing funds level by level over branch states (internal/tracer/tracer.go, traceSameChain and
    its expand closure).

    What the repository, the analyzer and the label tables answer is a World.  Amounts that cannot
    be read as positive numbers are 0; both are passed over. */
module Trace {
  import opened Fifo
  import opened Sorting
  import opened Wrappers

  const MAX_NODES: nat := 5000
  const RECORD_CAP: nat := 50000

  datatype Transfer = Transfer(from: Address, recipient: Address, asset: nat, amount: nat, block: nat, tx: string)

  datatype AssetFilter = All | Only(asset: nat)

  datatype StateKey = StateKey(address: Address, direction: Direction, asset: AssetFilter, anchor: nat, tx: string)

  datatype Branch = Branch(
    address: Address, direction: Direction, asset: AssetFilter, anchor: nat,
    entering: Option<Transfer>, amount: Option<nat>, contract: bool, path: seq<Address>)

  datatype Stop =
    Open | Given | NodeLimit | UnsupportedContract | AmbiguousConversion | HighFrequency | NoMatchingTransfers

  datatype Node = Node(address: Address, depth: nat, stop: Stop)

  /** The direction is that of the branch that recorded the edge. */
  datatype Edge = Edge(
    direction: Direction, from: Address, recipient: Address, asset: nat, amount: nat, block: nat,
    tx: string, depth: nat, path: seq<Address>, converted: bool)

  datatype Evidence = Evidence(executor: Address, recipient: Address, tokenOut: nat, amountOut: nat)

  datatype Conversion = Conversion(transfer: Transfer, evidence: Option<Evidence>)

  /** `terminal` gathers the terminal flags, labels, bridges and stop reasons of an address;
      `ready` says that it needs no further synchronisation for a transfer in that block;
      `rank` places state keys in the order of their text; `account` numbers (address, asset). */
  datatype World = World(
    transfers: seq<Transfer>, seedReady: bool,
    supported: nat -> bool, above: (nat, nat) -> bool,
    contract: Address -> bool, terminal: Address -> bool, stopped: Address -> bool,
    ready: (Address, Direction, nat) -> bool, partialData: Address -> bool,
    analyzes: bool, convert: (Address, Direction, Transfer) -> Option<Conversion>, outcomes: set<StateKey>,
    rank: StateKey -> int, account: (Address, nat) -> nat)

  /** The last four fields belong to the level, and the branch, being expanded. */
  datatype Trace = Trace(
    nodes: seq<Node>, edges: seq<Edge>, money: seq<MoneyState>,
    visitedStates: set<StateKey>, visitedNodes: set<Address>, partialData: bool,
    next: seq<Branch>, processed: set<Address>, expanded: set<Address>, budget: Option<nat>)

  datatype Outcome =
    | Running(trace: Trace)
    | NotSynced(address: Address, direction: Direction, block: nat)

  // ---------- transfers seen from a branch ----------

  function Near(d: Direction, c: Transfer): Address { if d == Out then c.from else c.recipient }

  function Far(d: Direction, c: Transfer): Address { if d == Out then c.recipient else c.from }

  function EdgeNear(e: Edge): Address { if e.direction == Out then e.from else e.recipient }

  function EdgeFar(e: Edge): Address { if e.direction == Out then e.recipient else e.from }

  function ChildKey(d: Direction, c: Transfer): StateKey {
    StateKey(Far(d, c), d, Only(c.asset), c.block, c.tx)
  }

  function BranchKey(b: Branch): StateKey {
    StateKey(b.address, b.direction, b.asset, b.anchor, if b.entering.Some? then b.entering.value.tx else "")
  }

  /** The stored transfers a branch asks for: its side, its asset, its anchor block (0 is no bound). */
  predicate Asked(b: Branch, c: Transfer) {
    && c.amount > 0
    && Near(b.direction, c) == b.address
    && (b.asset.Only? ==> c.asset == b.asset.asset)
    && (b.direction == Out ==> b.anchor <= c.block)
    && (b.direction == In && b.anchor > 0 ==> c.block <= b.anchor)
  }

  function Matching(transfers: seq<Transfer>, b: Branch): seq<Transfer> {
    Filter(c => Asked(b, c), transfers)
  }

  /** The candidates of a branch, sorted, are the stored transfers it asks for. */
  lemma Candidates(transfers: seq<Transfer>, b: Branch, less: (Transfer, Transfer) -> bool, c: Transfer)
    ensures c in Sort(less, Matching(transfers, b)) <==> c in transfers && Asked(b, c)
  {
    SortKeepsMembers(less, Matching(transfers, b));
    FilterMembers(x => Asked(b, x), transfers, c);
  }

  function Earlier(d: Direction): (Transfer, Transfer) -> bool {
    (x: Transfer, y: Transfer) => if d == Out then x.block < y.block else x.block > y.block
  }

  // ---------- nodes ----------

  predicate SameAddresses(x: seq<Node>, y: seq<Node>) {
    |x| == |y| && forall i :: 0 <= i < |x| ==> x[i].address == y[i].address
  }

  function SetTerminal(nodes: seq<Node>, address: Address, stop: Stop): (r: seq<Node>)
    ensures SameAddresses(r, nodes)
  {
    seq(|nodes|, i requires 0 <= i < |nodes| =>
      if nodes[i].address == address then nodes[i].(stop := stop) else nodes[i])
  }

  predicate IsTerminal(nodes: seq<Node>, address: Address) {
    if nodes == [] then false
    else if nodes[0].address == address then nodes[0].stop != Open
    else IsTerminal(nodes[1..], address)
  }

  function AddNode(t: Trace, address: Address, depth: nat, stop: Stop): Trace {
    if address in t.visitedNodes then t
    else t.(visitedNodes := t.visitedNodes + {address}, nodes := t.nodes + [Node(address, depth, stop)])
  }

  // ---------- one candidate transfer of a branch ----------

  predicate Considered(w: World, t: Trace, b: Branch, c: Transfer) {
    && w.supported(c.asset)
    && w.above(c.asset, c.amount)
    && Far(b.direction, c) != Nobody
    && ChildKey(b.direction, c) !in t.visitedStates
    && c.amount > 0
    && t.budget != Some(0)
  }

  /** What is recorded of an amount when only `budget` is left. */
  function Cut(budget: Option<nat>, amount: nat): nat {
    if budget.Some? && budget.value < amount then budget.value else amount
  }

  function Spend(budget: Option<nat>, amount: nat): Option<nat> {
    if budget.None? then None else Some(if amount <= budget.value then budget.value - amount else 0)
  }

  function EdgeOf(b: Branch, c: Transfer, amount: nat, depth: nat, converted: bool): Edge {
    Edge(b.direction, c.from, c.recipient, c.asset, amount, c.block, c.tx, depth + 1,
         b.path + [Far(b.direction, c)], converted)
  }

  /** The two money states an edge leaves behind. */
  function Pair(w: World, e: Edge): seq<MoneyState> {
    [MoneyState(w.account(e.from, e.asset), Out, e.amount, e.amount, e.block, e.tx, e.path),
     MoneyState(w.account(e.recipient, e.asset), In, e.amount, e.amount, e.block, e.tx, e.path)]
  }

  function Record(w: World, t: Trace, from: Address, e: Edge): Trace {
    t.(edges := t.edges + [e], money := t.money + Pair(w, e), expanded := t.expanded + {from})
  }

  function Child(w: World, b: Branch, c: Transfer, amount: nat): Branch {
    var other := Far(b.direction, c);
    Branch(other, b.direction, Only(c.asset), c.block, Some(c), Some(amount), w.contract(other), b.path + [other])
  }

  function Reach(w: World, t: Trace, b: Branch, c: Transfer, amount: nat, depth: nat): Trace {
    var other := Far(b.direction, c);
    var seen := t.(partialData := t.partialData || w.partialData(other));
    if |t.visitedNodes| >= MAX_NODES then seen
    else
      AddNode(
        seen.(partialData := seen.partialData || w.stopped(other),
              visitedStates := t.visitedStates + {ChildKey(b.direction, c)},
              next := if w.terminal(other) then t.next else t.next + [Child(w, b, c, amount)]),
        other, depth + 1, if w.terminal(other) then Given else Open)
  }

  function Visit(w: World, t: Trace, b: Branch, c: Transfer, depth: nat, converted: bool): Outcome {
    if !Considered(w, t, b, c) then Running(t)
    else
      var amount := Cut(t.budget, c.amount);
      var spent := t.(budget := Spend(t.budget, amount));
      var other := Far(b.direction, c);
      if !w.above(c.asset, amount) then Running(spent)
      else if other !in t.visitedNodes && |t.visitedNodes| >= MAX_NODES then
        Running(spent.(partialData := true, nodes := SetTerminal(t.nodes, b.address, NodeLimit)))
      else
        var recorded := Record(w, spent, b.address, EdgeOf(b, c, amount, depth, converted));
        if other == Zero then Running(AddNode(recorded, Zero, depth + 1, Given))
        else if !w.ready(other, b.direction, c.block) then NotSynced(other, b.direction, c.block)
        else Running(Reach(w, recorded, b, c, amount, depth))
  }

  function VisitAll(w: World, t: Trace, b: Branch, cs: seq<Transfer>, depth: nat, converted: bool): Outcome
    decreases |cs|
  {
    if cs == [] then Running(t)
    else
      var step := Visit(w, t, b, cs[0], depth, converted);
      if step.NotSynced? then step else VisitAll(w, step.trace, b, cs[1..], depth, converted)
  }

  // ---------- one branch ----------

  /** Both legs of the swap are edges already. */
  predicate AlreadyTraced(edges: seq<Edge>, x: Conversion) {
    x.evidence.Some? &&
    var v := x.evidence.value;
    && v.executor != Nobody && v.recipient != Nobody
    && (exists e ::
        e in edges && e.tx == x.transfer.tx && e.from == x.transfer.from && e.recipient == x.transfer.recipient
                    && e.asset == x.transfer.asset && e.amount == x.transfer.amount)
    && (exists e :: e in edges && e.tx == x.transfer.tx && e.from == v.executor && e.recipient == v.recipient
                    && e.asset == v.tokenOut && e.amount == v.amountOut)
  }

  function Halt(t: Trace, address: Address, stop: Stop): Trace {
    t.(nodes := SetTerminal(t.nodes, address, stop))
  }

  function ConvertAt(w: World, t: Trace, b: Branch, depth: nat): Outcome
    requires b.entering.Some?
  {
    if !w.analyzes || b.entering.value.tx == "" then Running(Halt(t, b.address, UnsupportedContract))
    else
      var x := w.convert(b.address, b.direction, b.entering.value);
      if x.None? then Running(Halt(t, b.address, AmbiguousConversion))
      else if AlreadyTraced(t.edges, x.value) || !w.above(x.value.transfer.asset, x.value.transfer.amount) then
        Running(t)
      else VisitAll(w, t.(budget := None), b, [x.value.transfer], depth, true)
  }

  function Process(w: World, t: Trace, b: Branch, depth: nat): Outcome {
    if IsTerminal(t.nodes, b.address) then Running(t)
    else
      var seen := t.(processed := t.processed + {b.address});
      if b.entering.Some? && b.contract then ConvertAt(w, seen, b, depth)
      else
        var found := Matching(w.transfers, b);
        if |found| >= RECORD_CAP then Running(Halt(seen.(partialData := true), b.address, HighFrequency))
        else VisitAll(w, seen.(budget := b.amount), b, Sort(Earlier(b.direction), found), depth, false)
  }

  // ---------- one level ----------

  function ProcessAll(w: World, t: Trace, bs: seq<Branch>, depth: nat): Outcome
    decreases |bs|
  {
    if bs == [] then Running(t)
    else
      var step := Process(w, t, bs[0], depth);
      if step.NotSynced? then step else ProcessAll(w, step.trace, bs[1..], depth)
  }

  /** Open nodes among the addresses given become terminal. */
  function Settle(nodes: seq<Node>, idle: set<Address>): (r: seq<Node>)
    ensures SameAddresses(r, nodes)
  {
    seq(|nodes|, i requires 0 <= i < |nodes| =>
      if nodes[i].address in idle && nodes[i].stop == Open then nodes[i].(stop := NoMatchingTransfers) else nodes[i])
  }

  function ByKey(w: World): (Branch, Branch) -> bool {
    (x: Branch, y: Branch) => w.rank(BranchKey(x)) < w.rank(BranchKey(y))
  }

  function OpenLevel(t: Trace): Trace {
    t.(next := [], processed := {}, expanded := {})
  }

  function Level(w: World, t: Trace, depth: nat): Outcome {
    var r := ProcessAll(w, OpenLevel(t), Sort(ByKey(w), t.next), depth);
    if r.NotSynced? then r
    else Running(r.trace.(nodes := Settle(r.trace.nodes, r.trace.processed - r.trace.expanded)))
  }

  // ---------- the whole trace ----------

  function SetAllTerminal(nodes: seq<Node>, bs: seq<Branch>): (r: seq<Node>)
    ensures SameAddresses(r, nodes)
    decreases |bs|
  {
    if bs == [] then nodes else SetAllTerminal(SetTerminal(nodes, bs[0].address, NodeLimit), bs[1..])
  }

  function Finish(t: Trace): Trace {
    if t.next == [] then t
    else t.(partialData := true, nodes := SetAllTerminal(t.nodes, t.next))
  }

  function Root(seed: Address, d: Direction): Branch {
    Branch(seed, d, All, 0, None, None, false, [seed])
  }

  function Roots(seed: Address, ds: seq<Direction>): (r: seq<Branch>)
    ensures |r| == |ds|
    ensures forall i :: 0 <= i < |ds| ==> r[i] == Root(seed, ds[i])
  {
    seq(|ds|, i requires 0 <= i < |ds| => Root(seed, ds[i]))
  }

  function Start(w: World, seed: Address, ds: seq<Direction>): Trace {
    Trace([Node(seed, 0, if w.terminal(seed) then Given else Open)], [], [],
          set d | d in ds :: BranchKey(Root(seed, d)), {seed}, w.partialData(seed) || w.stopped(seed),
          Roots(seed, ds), {}, {}, None)
  }
}
