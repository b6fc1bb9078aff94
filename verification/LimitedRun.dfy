/** The record limit over whole runs: a history that does not keep track of cuts ends in a false claim
    of coverage, whatever the cap of a pass. */
module LimitedRun {
  import opened Normalize
  import opened Wrappers
  import opened Timeline
  import opened RangeFetch
  import opened LimitedFetch
  import opened RecordLimit
  import opened FetchCalls
  import opened SyncRuns
  import opened SyncJobs
  import C = Coverage

  // ---------- an action that uses up all but one record ----------

  /** Each payment has its own hash. */
  function Payment(block: nat): Transfer {
    Transfer(Normal, block, seq(block, _ => 'x'), "a", "b", "ETH", 1, Plain, "", 0, false)
  }

  /** One payment in each of n blocks. */
  function Payments(start: nat, n: nat, pageSize: nat, maxPages: nat): Line {
    Line(Normal, false, seq(n, i requires 0 <= i < n => Cell(start + i, false, Some(Payment(start + i)))), pageSize,
        maxPages)
  }

  function Nothing(pageSize: nat, maxPages: nat): Line {
    Line(Internal, false, [], pageSize, maxPages)
  }

  lemma {:induction false} AllTransfersCount(line: Line, i: nat, j: nat)
    requires i <= j <= |line.cells| && forall k :: i <= k < j ==> line.cells[k].transfer.Some?
    ensures |Transfers(line, i, j)| == j - i
    decreases j - i
  {
    if i < j {
      AllTransfersCount(line, i + 1, j);
    }
  }

  /** One transfer in each block from `start` on. */
  ghost predicate OnePerBlock(line: Line, start: nat) {
    forall i :: 0 <= i < |line.cells| ==>
      var c := line.cells[i];
      && c.block == start + i && !c.unreadable && c.transfer.Some?
      && c.transfer.value.block == c.block && c.transfer.value.source == line.action
  }

  lemma PaymentsOnePerBlock(start: nat, n: nat, pageSize: nat, maxPages: nat)
    ensures OnePerBlock(Payments(start, n, pageSize, maxPages), start)
  {
    hide Payment;
    var line := Payments(start, n, pageSize, maxPages);
    forall i | 0 <= i < n
      ensures line.cells[i] == Cell(start + i, false, Some(Payment(start + i)))
      ensures Payment(start + i).block == start + i && Payment(start + i).source == Normal
    {
      PaymentFields(start + i);
    }
  }

  lemma PaymentFields(block: nat)
    ensures Payment(block).block == block && Payment(block).source == Normal
  {
  }

  lemma OneFits(line: Line, start: nat)
    requires OnePerBlock(line, start) && line.pageSize > 0 && line.maxPages > 0 && !line.descending && Window(line) >= 2
    ensures Healthy(line)
  {
    forall c | c in line.cells
      ensures !c.unreadable
    {
      var i :| 0 <= i < |line.cells| && line.cells[i] == c;
    }
    forall block: nat {:trigger First(line, block, block)}
      ensures Last(line, block, block) - First(line, block, block) < Window(line)
    {
      CellsInRange(line, block, block);
      var i := First(line, block, block);
      if i + 1 < |line.cells| {
        assert line.cells[i].block < line.cells[i + 1].block;
      }
    }
  }

  lemma OneTracks(line: Line, start: nat)
    requires OnePerBlock(line, start) && Window(line) > 0
    ensures KeepsTrack(line)
  {
    forall s: nat
      ensures !BlankFrom(line, s)
    {
      var first := First(line, s, s);
      if first + Window(line) <= |line.cells| {
        AllTransfersCount(line, first, first + Window(line));
      }
    }
  }

  lemma OneCounts(line: Line, start: nat, end: nat)
    requires Valid(line) && !line.descending && OnePerBlock(line, start)
    requires start <= end && start + |line.cells| <= end + 1
    ensures |RangeTransfers(line, start, end)| == |line.cells|
  {
    CellsInRange(line, start, end);
    var n := |line.cells|;
    if n > 0 {
      assert start <= line.cells[0].block && line.cells[n - 1].block <= end;
    }
    AllTransfersCount(line, First(line, start, end), Last(line, start, end));
  }

  lemma OneHealthy(line: Line, start: nat, end: nat)
    requires OnePerBlock(line, start) && line.pageSize > 0 && line.maxPages > 0 && !line.descending && Window(line) >= 2
    requires start <= end && start + |line.cells| <= end + 1
    ensures Healthy(line) && KeepsTrack(line) && |RangeTransfers(line, start, end)| == |line.cells|
  {
    OneFits(line, start);
    OneTracks(line, start);
    OneCounts(line, start, end);
  }

  // ---------- two passes ----------

  const NONE := Covered(C.Span(0, 0), C.Span(0, 0), C.Span(0, 0))

  /** The cap leaves one record for the token transfers. */
  function LateHistory(line: Line, cap: nat, start: nat): History
    requires cap > 0
  {
    History(Payments(start, cap - 1, line.pageSize, line.maxPages), Nothing(line.pageSize, line.maxPages), line)
  }

  function AllAt(end: nat): Checkpoints {
    map[Normal := end, Internal := end, Token := end]
  }

  /** One action with nothing held and no checkpoint is one fetch. */
  lemma OneAction(line: Line, want: C.Span, cap: nat, fetched: nat, pass: Pass)
    requires Valid(line) && !line.descending && |pass.saved| > 0 && fetched < cap && want.lo <= want.hi
    requires line.action !in Current(pass)
    requires FetchRange(line, want.lo, want.hi, cap - fetched, pass).error.None?
    ensures
      var o := FetchRange(line, want.lo, want.hi, cap - fetched, pass);
      SyncIntervals(line, [want], cap, fetched, pass)
      == Progress(o.pass, fetched + o.written, fetched + o.written >= cap, None)
  {
    hide FetchRange;
    assert [want][1..] == [];
    var o := FetchRange(line, want.lo, want.hi, cap - fetched, pass);
    assert SyncIntervals(line, [], cap, fetched + o.written, o.pass) ==
        Progress(o.pass, fetched + o.written, false, None);
    assert AfterFetch(line, [], cap, fetched, o)
        == Progress(o.pass, fetched + o.written, fetched + o.written >= cap, None);
  }

  /** One action whose checkpoint is the wanted end has nothing to do. */
  lemma SkippedAction(line: Line, want: C.Span, cap: nat, fetched: nat, pass: Pass)
    requires Valid(line) && !line.descending && |pass.saved| > 0 && fetched < cap && want.lo <= want.hi
    requires line.action in Current(pass) && Current(pass)[line.action] == want.hi
    ensures SyncIntervals(line, [want], cap, fetched, pass) == Progress(pass, fetched, false, None)
  {
    hide FetchRange;
    assert [want][1..] == [];
  }

  lemma NextAction(
      history: History, want: C.Span, action: Action, actions: seq<Action>, cap: nat, fetched: nat, pass: Pass,
      done: Progress)
    requires ValidHistory(history) && |pass.saved| > 0 && fetched < cap && |done.pass.saved| > 0
    requires SyncIntervals(history.Of(action), [want], cap, fetched, pass) == done && done.error.None?
    ensures
      var rest := SyncActions(history, NONE, want, actions, cap, done.fetched, done.pass);
      SyncActions(history, NONE, want, [action] + actions, cap, fetched, pass)
      == rest.(truncated := rest.truncated || done.truncated)
  {
    hide SyncIntervals;
    assert C.CoverageIntervals(want, NONE.Of(action)) == [want];
    assert ([action] + actions)[1..] == actions;
  }

  /** Three actions, none of which fails or reaches the cap before the last. */
  lemma ThreeActions(
      history: History, want: C.Span, cap: nat, pass: Pass, d1: Progress, d2: Progress, d3: Progress)
    requires ValidHistory(history) && |pass.saved| > 0 && cap > 0
    requires |d1.pass.saved| > 0 && d1.error.None? && d1.fetched < cap
    requires |d2.pass.saved| > 0 && d2.error.None? && d2.fetched < cap
    requires |d3.pass.saved| > 0 && d3.error.None?
    requires SyncIntervals(history.Of(Normal), [want], cap, 0, pass) == d1
    requires SyncIntervals(history.Of(Internal), [want], cap, d1.fetched, d1.pass) == d2
    requires SyncIntervals(history.Of(Token), [want], cap, d2.fetched, d2.pass) == d3
    ensures
      SyncActions(history, NONE, want, ACTIONS, cap, 0, pass)
      == Progress(d3.pass, d3.fetched, d3.truncated || d2.truncated || d1.truncated, None)
  {
    hide SyncIntervals;
    NextAction(history, want, Token, [], cap, d2.fetched, d2.pass, d3);
    NextAction(history, want, Internal, [Token] + [], cap, d1.fetched, d1.pass, d2);
    NextAction(history, want, Normal, [Internal] + ([Token] + []), cap, 0, pass, d1);
    assert ACTIONS == [Normal] + ([Internal] + ([Token] + []));
  }

  lemma LateHistoryValid(line: Line, cap: nat, start: nat, end: nat)
    requires Healthy(line) && line.action == Token && Window(line) >= 2 && cap > 0 && start + cap <= end
    ensures
      var history := LateHistory(line, cap, start);
      && ValidHistory(history) && Healthy(history.normal) && Healthy(history.internal)
      && KeepsTrack(history.normal) && KeepsTrack(history.internal)
      && |RangeTransfers(history.normal, start, end)| == cap - 1
      && RangeTransfers(history.internal, start, end) == []
  {
    var history := LateHistory(line, cap, start);
    PaymentsOnePerBlock(start, cap - 1, line.pageSize, line.maxPages);
    OneHealthy(history.normal, start, end);
    OneHealthy(history.internal, start, end);
    hide Payments, Healthy, KeepsTrack, RangeTransfers;
    HealthyIsValid(line);
    HealthyIsValid(history.normal);
    HealthyIsValid(history.internal);
    forall action
      ensures
        && Valid(history.Of(action)) && !history.Of(action).descending
        && history.Of(action).action == action
    {
      match action
      case Normal =>
      case Internal =>
      case Token =>
    }
  }

  ghost predicate Late(line: Line, cap: nat, start: nat, end: nat) {
    && Healthy(line) && line.action == Token && Window(line) >= 2 && cap > 0 && start + cap <= end
    && Outruns(line, start, end)
  }

  /** What it takes to fetch the two other histories. */
  function OtherBudget(line: Line, cap: nat, start: nat, end: nat, action: Action): nat
    requires cap > 0 && start <= end
  {
    Budget(LateHistory(line, cap, start).Of(action), end - start)
  }

  /** The payments are fetched first: they leave one record. */
  lemma PaymentsSynced(line: Line, cap: nat, start: nat, end: nat, pass: Pass)
    requires Late(line, cap, start, end) && |pass.saved| > 0 && !pass.limited && Current(pass) == map[]
    requires pass.calls > OtherBudget(line, cap, start, end, Normal)
    ensures ValidHistory(LateHistory(line, cap, start))
    ensures
      var payments := LateHistory(line, cap, start).Of(Normal);
      var d := SyncIntervals(payments, [C.Span(start, end)], cap, 0, pass);
      && d.error.None? && d.fetched == cap - 1 && !d.pass.limited
      && d.pass.log == pass.log + RangeTransfers(payments, start, end)
      && Current(d.pass) == map[Normal := end]
      && d.pass.calls >= pass.calls - OtherBudget(line, cap, start, end, Normal)
  {
    LateHistoryValid(line, cap, start, end);
    var payments := LateHistory(line, cap, start).Of(Normal);
    assert payments == LateHistory(line, cap, start).normal;
    hide FetchRange, RangeTransfers, Budget, Payments, KeepsTrack, Outruns, SyncIntervals;
    HealthyFetchSucceeds(payments, start, end, cap, pass);
    OneAction(payments, C.Span(start, end), cap, 0, pass);
  }

  lemma NothingSynced(line: Line, cap: nat, start: nat, end: nat, pass: Pass)
    requires Late(line, cap, start, end) && |pass.saved| > 0 && !pass.limited && Current(pass) == map[Normal := end]
    requires pass.calls > OtherBudget(line, cap, start, end, Internal)
    ensures ValidHistory(LateHistory(line, cap, start))
    ensures
      var nothing := LateHistory(line, cap, start).Of(Internal);
      var d := SyncIntervals(nothing, [C.Span(start, end)], cap, cap - 1, pass);
      && d.error.None? && d.fetched == cap - 1 && d.pass.log == pass.log
      && Current(d.pass) == map[Normal := end, Internal := end]
      && d.pass.calls >= pass.calls - OtherBudget(line, cap, start, end, Internal)
  {
    LateHistoryValid(line, cap, start, end);
    var nothing := LateHistory(line, cap, start).Of(Internal);
    assert nothing == LateHistory(line, cap, start).internal;
    hide FetchRange, RangeTransfers, Budget, Payments, KeepsTrack, Outruns, SyncIntervals;
    HealthyFetchSucceeds(nothing, start, end, 1, pass);
    OneAction(nothing, C.Span(start, end), cap, cap - 1, pass);
  }

  /** The token transfers are fetched with one record left. */
  lemma TokensSynced(line: Line, cap: nat, start: nat, end: nat, pass: Pass)
    requires Late(line, cap, start, end) && |pass.saved| > 0 && Current(pass) == map[Normal := end, Internal := end]
    requires pass.calls >= Cost(line, start, end)
    ensures ValidHistory(LateHistory(line, cap, start))
    ensures
      var d := SyncIntervals(LateHistory(line, cap, start).Of(Token), [C.Span(start, end)], cap, cap - 1, pass);
      d.error.None? && d.pass.log == pass.log + Kept(line, start, end) && Current(d.pass) == AllAt(end)
  {
    hide Payments, FetchRange, RangeTransfers, KeepsTrack, Kept, Cost, Outruns, Healthy, SyncIntervals;
    LateHistoryValid(line, cap, start, end);
    HealthyIsValid(line);
    OutrunFetch(line, start, end, pass);
    assert LateHistory(line, cap, start).Of(Token) == line;
    hide LateHistory, Late;
    OneAction(line, C.Span(start, end), cap, cap - 1, pass);
  }

  lemma OutrunFetch(line: Line, start: nat, end: nat, pass: Pass)
    requires Valid(line) && !line.descending && Outruns(line, start, end)
    requires |pass.saved| > 0 && pass.calls >= Cost(line, start, end)
    ensures
      var o := FetchRange(line, start, end, 1, pass);
      && o.error.None? && o.pass.log == pass.log + Kept(line, start, end)
      && Current(o.pass) == Current(pass)[line.action := end]
  {
    hide FetchRange, RangeTransfers, Kept, Cost, Backed, SavesEnd;
    assert OneByOne(line, start, end, pass, FetchRange(line, start, end, 1, pass));
  }

  /** The outcome of each action of the first pass. */
  lemma AllSynced(line: Line, cap: nat, start: nat, end: nat, pass: Pass, history: History)
    returns (d1: Progress, d2: Progress, d3: Progress)
    requires Late(line, cap, start, end) && history == LateHistory(line, cap, start) && ValidHistory(history)
    requires |pass.saved| > 0 && !pass.limited && Current(pass) == map[] && pass.log == []
    requires pass.calls >
      OtherBudget(line, cap, start, end, Normal) + OtherBudget(line, cap, start, end, Internal) + Cost(line, start, end)
    ensures |d1.pass.saved| > 0 && d1.error.None? && d1.fetched < cap
    ensures |d2.pass.saved| > 0 && d2.error.None? && d2.fetched < cap
    ensures |d3.pass.saved| > 0 && d3.error.None?
    ensures
      var want := C.Span(start, end);
      && d1 == SyncIntervals(history.Of(Normal), [want], cap, 0, pass)
      && d2 == SyncIntervals(history.Of(Internal), [want], cap, d1.fetched, d1.pass)
      && d3 == SyncIntervals(history.Of(Token), [want], cap, d2.fetched, d2.pass)
    ensures d3.pass.log == RangeTransfers(history.Of(Normal), start, end) + Kept(line, start, end)
    ensures Current(d3.pass) == AllAt(end)
  {
    hide OtherBudget, Kept, Cost, SyncIntervals, LateHistory, RangeTransfers, Healthy, Outruns, KeepsTrack;
    var want := C.Span(start, end);
    PaymentsSynced(line, cap, start, end, pass);
    d1 := SyncIntervals(history.Of(Normal), [want], cap, 0, pass);
    NothingSynced(line, cap, start, end, d1.pass);
    d2 := SyncIntervals(history.Of(Internal), [want], cap, cap - 1, d1.pass);
    TokensSynced(line, cap, start, end, d2.pass);
    d3 := SyncIntervals(history.Of(Token), [want], cap, cap - 1, d2.pass);
  }

  /** The first pass saves checkpoints at the end of the range for all actions. */
  lemma FirstPass(line: Line, cap: nat, start: nat, end: nat, calls: nat, history: History)
    requires Late(line, cap, start, end) && history == LateHistory(line, cap, start) && ValidHistory(history)
    requires calls >
      OtherBudget(line, cap, start, end, Normal) + OtherBudget(line, cap, start, end, Internal) + Cost(line, start, end)
    ensures
      var progress := SyncPass(history, NONE, C.Span(start, end), cap, map[], calls);
      && progress.pass.log == RangeTransfers(history.Of(Normal), start, end) + Kept(line, start, end)
      && Current(progress.pass) == AllAt(end)
  {
    var pass := Pass([], [map[]], calls, false);
    var d1, d2, d3 := AllSynced(line, cap, start, end, pass, history);
    assert cap > 0;
    hide Late, OtherBudget, Kept, Cost, SyncIntervals, SyncActions, LateHistory, RangeTransfers;
    ThreeActions(history, C.Span(start, end), cap, pass, d1, d2, d3);
  }

  /** With these checkpoints the second pass has nothing to do. */
  lemma SecondPass(history: History, cap: nat, start: nat, end: nat)
    requires ValidHistory(history) && cap > 0 && start < end
    ensures
      SyncPass(history, NONE, C.Span(start, end), cap, AllAt(end), 0)
      == Progress(Pass([], [AllAt(end)], 0, false), 0, false, None)
  {
    var want, pass := C.Span(start, end), Pass([], [AllAt(end)], 0, false);
    SkippedAction(history.Of(Normal), want, cap, 0, pass);
    SkippedAction(history.Of(Internal), want, cap, 0, pass);
    SkippedAction(history.Of(Token), want, cap, 0, pass);
    hide SyncIntervals, SyncActions;
    var d := Progress(pass, 0, false, None);
    ThreeActions(history, want, cap, pass, d, d, d);
  }

  // ---------- the run ----------

  /** A job fetches the range up to `end` and fails at its last write; the next job for the same start
      resumes from its checkpoints. */
  function Mishap(start: nat, end: nat, calls: nat, snapshot: nat): seq<Event> {
    [Enqueue(start), Process(start, 0, end, false, calls, false, snapshot, FailedJob),
     Enqueue(start), Process(start, 0, end, false, 0, true, 0, Succeeded)]
  }

  /** The first job leaves what it fetched and its last checkpoints. */
  lemma AfterFailure(history: History, cap: nat, start: nat, end: nat, calls: nat, snapshot: nat)
    requires ValidHistory(history) && start < end
    requires snapshot >= |SyncPass(history, NONE, C.Span(start, end), cap, map[], calls).pass.saved|
    ensures
      var progress := SyncPass(history, NONE, C.Span(start, end), cap, map[], calls);
      var queued := Step(history, cap, UNSEEN, Enqueue(start));
      Step(history, cap, queued, Mishap(start, end, calls, snapshot)[1])
      == World(Address(false, NONE, Upserted({}, progress.pass.log)),
          map[start := Document(FailedJob, Current(progress.pass))])
  {
    hide SyncPass, Upserted;
    var queued := Step(history, cap, UNSEEN, Enqueue(start));
    assert queued == World(UNSEEN.address, map[start := Document(Queued, map[])]);
  }

  /** The second job claims the range. */
  lemma AfterSuccess(history: History, cap: nat, start: nat, end: nat, stored: set<Identity>, calls: nat, snapshot: nat)
    requires ValidHistory(history) && cap > 0 && start < end
    ensures
      var failed := World(Address(false, NONE, stored), map[start := Document(FailedJob, AllAt(end))]);
      var queued := Step(history, cap, failed, Enqueue(start));
      var w := Step(history, cap, queued, Mishap(start, end, calls, snapshot)[3]);
      w.address.stored == stored && w.address.have.token == C.Span(start, end)
  {
    SecondPass(history, cap, start, end);
    hide SyncPass;
    var failed := World(Address(false, NONE, stored), map[start := Document(FailedJob, AllAt(end))]);
    var queued := Step(history, cap, failed, Enqueue(start));
    assert queued == World(Address(false, NONE, stored), map[start := Document(Queued, AllAt(end))]);
    assert Upserted(stored, []) == stored;
  }

  lemma RunFour(history: History, cap: nat, w: World, e0: Event, e1: Event, e2: Event, e3: Event)
    requires ValidHistory(history)
    ensures
      Run(history, cap, w, [e0, e1, e2, e3])
      == Step(history, cap, Step(history, cap, Step(history, cap, Step(history, cap, w, e0), e1), e2), e3)
  {
    hide Step;
    var w1 := Step(history, cap, w, e0);
    var w2 := Step(history, cap, w1, e1);
    var w3 := Step(history, cap, w2, e2);
    assert [e3][1..] == [] && [e2, e3][1..] == [e3] && [e1, e2, e3][1..] == [e2, e3];
    assert [e0, e1, e2, e3][1..] == [e1, e2, e3];
    assert Run(history, cap, w3, [e3]) == Step(history, cap, w3, e3);
    assert Run(history, cap, w2, [e2, e3]) == Run(history, cap, w3, [e3]);
    assert Run(history, cap, w1, [e1, e2, e3]) == Run(history, cap, w2, [e2, e3]);
  }

  // ---------- the missing transfer ----------

  /** Different rows have different identities. */
  ghost predicate Distinct(line: Line) {
    forall i, j :: 0 <= i < j < |line.cells| && line.cells[i].transfer.Some? && line.cells[j].transfer.Some? ==>
      IdentityOf(line.cells[i].transfer.value) != IdentityOf(line.cells[j].transfer.value)
  }

  function Identities(log: seq<Transfer>): set<Identity> {
    set t | t in log :: IdentityOf(t)
  }

  lemma {:induction false} FewIdentities(log: seq<Transfer>)
    ensures |Identities(log)| <= |log|
  {
    if log != [] {
      FewIdentities(log[1..]);
      assert log == [log[0]] + log[1..];
      assert Identities(log) == Identities(log[1..]) + {IdentityOf(log[0])};
    }
  }

  lemma {:induction false} TransferOfCell(line: Line, i: nat, j: nat, t: Transfer) returns (k: nat)
    requires i <= j <= |line.cells| && t in Transfers(line, i, j)
    ensures i <= k < j && line.cells[k].transfer == Some(t)
    decreases j - i
  {
    if line.cells[i].transfer == Some(t) {
      k := i;
    } else {
      k := TransferOfCell(line, i + 1, j, t);
    }
  }

  lemma {:induction false} AllIdentities(line: Line, i: nat, j: nat)
    requires Distinct(line) && i <= j <= |line.cells|
    ensures |Identities(Transfers(line, i, j))| == |Transfers(line, i, j)|
    decreases j - i
  {
    if i < j {
      AllIdentities(line, i + 1, j);
      var rest := Transfers(line, i + 1, j);
      if line.cells[i].transfer.Some? {
        var t := line.cells[i].transfer.value;
        forall x | x in rest
          ensures IdentityOf(x) != IdentityOf(t)
        {
          var k := TransferOfCell(line, i + 1, j, x);
        }
        assert Identities([t] + rest) == Identities(rest) + {IdentityOf(t)};
      } else {
        assert Transfers(line, i, j) == rest;
      }
    }
  }

  lemma {:induction false} SubsetSize<T>(few: set<T>, all: set<T>)
    requires few <= all
    ensures |few| <= |all|
  {
    assert all == few + (all - few);
  }

  lemma SourcesOf(line: Line, lo: nat, hi: nat)
    requires Valid(line)
    ensures forall t :: t in RangeTransfers(line, lo, hi) ==>
      t.source == line.action && exists c :: c in line.cells && c.transfer == Some(t)
  {
    forall t | t in RangeTransfers(line, lo, hi)
      ensures t.source == line.action && exists c :: c in line.cells && c.transfer == Some(t)
    {
      var k := TransferOfCell(line, First(line, lo, hi), Last(line, lo, hi), t);
      assert line.cells[k] in line.cells;
    }
  }

  /** Fewer transfers than the range has cannot fill it. */
  lemma RangeNotHeld(line: Line, start: nat, end: nat, others: seq<Transfer>, own: seq<Transfer>)
    requires Valid(line) && Distinct(line) && start <= end && |own| < |RangeTransfers(line, start, end)|
    requires forall t :: t in others ==> t.source != line.action
    ensures !Holds(Upserted({}, others + own), line, start, end)
  {
    var wanted, stored := RangeTransfers(line, start, end), Upserted({}, others + own);
    SourcesOf(line, start, end);
    CellsInRange(line, start, end);
    AllIdentities(line, First(line, start, end), Last(line, start, end));
    FewIdentities(own);
    if Holds(stored, line, start, end) {
      WantedStored(line, start, end, stored);
      forall x | x in Identities(wanted)
        ensures x in Identities(own)
      {
        var t :| t in wanted && IdentityOf(t) == x;
        assert x in stored;
        var u :| u in others + own && IdentityOf(u) == x;
        assert u.source == t.source;
      }
      SubsetSize(Identities(wanted), Identities(own));
    }
  }

  lemma WantedStored(line: Line, start: nat, end: nat, stored: set<Identity>)
    requires Valid(line) && start <= end && Holds(stored, line, start, end)
    ensures forall t :: t in RangeTransfers(line, start, end) ==> IdentityOf(t) in stored
  {
    CellsInRange(line, start, end);
    forall t | t in RangeTransfers(line, start, end)
      ensures IdentityOf(t) in stored
    {
      var k := TransferOfCell(line, First(line, start, end), Last(line, start, end), t);
      assert line.cells[k] in line.cells;
    }
  }

  // ---------- the theorem ----------

  lemma WindowOfTwo(line: Line)
    requires Healthy(line) && !KeepsTrack(line)
    ensures Window(line) >= 2
  {
    var s: nat :| BlankFrom(line, s) && Crowded(line, s);
    var p, q := ClosePair(line, s);
    var block := line.cells[p].block;
    CellsInRange(line, block, block);
  }

  /** For every cap there are histories of the other two actions, which keep track themselves, and a run
      of two jobs at the end of which the address claims blocks of which a transfer is missing. */
  lemma LimitedRunLies(line: Line, cap: nat) returns (history: History, events: seq<Event>)
    requires Healthy(line) && Distinct(line) && line.action == Token && !KeepsTrack(line) && cap > 0
    ensures ValidHistory(history) && history.token == line
    ensures KeepsTrack(history.normal) && KeepsTrack(history.internal)
    ensures !ClaimsTrue(history, Run(history, cap, UNSEEN, events))
  {
    WindowOfTwo(line);
    var start: nat :| BlankFrom(line, start) && Crowded(line, start);
    var end := RecordLimitOutrunsLog(line, start, start + cap);
    history := LateHistory(line, cap, start);
    LateHistoryValid(line, cap, start, end);
    events := LyingRun(line, cap, start, end);
  }

  lemma LyingRun(line: Line, cap: nat, start: nat, end: nat) returns (events: seq<Event>)
    requires Late(line, cap, start, end) && Distinct(line)
    ensures ValidHistory(LateHistory(line, cap, start))
    ensures !ClaimsTrue(LateHistory(line, cap, start), Run(LateHistory(line, cap, start), cap, UNSEEN, events))
  {
    LateHistoryValid(line, cap, start, end);
    var history := LateHistory(line, cap, start);
    var calls :=
      OtherBudget(line, cap, start, end, Normal) + OtherBudget(line, cap, start, end, Internal) +
          Cost(line, start, end) + 1;
    var progress := SyncPass(history, NONE, C.Span(start, end), cap, map[], calls);
    FirstPass(line, cap, start, end, calls, history);
    events := Mishap(start, end, calls, |progress.pass.saved|);
    SourcesOf(history.Of(Normal), start, end);
    RangeNotHeld(line, start, end, RangeTransfers(history.Of(Normal), start, end), Kept(line, start, end));
    hide Late, LateHistory, OtherBudget, Cost, Kept, RangeTransfers, SyncPass, Step, Holds, Upserted;
    RunFour(history, cap, UNSEEN, events[0], events[1], events[2], events[3]);
    AfterFailure(history, cap, start, end, calls, |progress.pass.saved|);
    AfterSuccess(history, cap, start, end, Upserted({}, progress.pass.log), calls, |progress.pass.saved|);
    var w := Run(history, cap, UNSEEN, events);
    assert w.address.have.Of(Token) == C.Span(start, end) && C.ValidCoverage(C.Span(start, end));
  }

  /** No run of any cap, with whatever failures, ends in a false claim because of this history. */
  ghost predicate NeverLies(line: Line, cap: nat) {
    forall history: History, events: seq<Event> ::
      ValidHistory(history) && history.token == line && KeepsTrack(history.normal) && KeepsTrack(history.internal) ==>
        ClaimsTrue(history, Run(history, cap, UNSEEN, events))
  }

  /** For every cap: claims about an address stay true in every run if and only if its token history
      keeps track, given that it can be fetched at all and the other histories keep track. */
  lemma ClaimsExact(line: Line, cap: nat)
    requires Healthy(line) && Distinct(line) && line.action == Token && cap > 0
    ensures KeepsTrack(line) <==> NeverLies(line, cap)
  {
    hide Healthy, KeepsTrack, Run, Distinct;
    if KeepsTrack(line) {
      forall history: History, events: seq<Event> |
        ValidHistory(history) && history.token == line && KeepsTrack(history.normal) && KeepsTrack(history.internal)
        ensures ClaimsTrue(history, Run(history, cap, UNSEEN, events))
      {
        AllKeepTrack(history);
        ReachableTrue(history, cap, events);
      }
    } else {
      var history, events := LimitedRunLies(line, cap);
    }
  }

  lemma AllKeepTrack(history: History)
    requires KeepsTrack(history.normal) && KeepsTrack(history.internal) && KeepsTrack(history.token)
    ensures HistoryKeepsTrack(history)
  {
    hide KeepsTrack;
    forall action
      ensures KeepsTrack(history.Of(action))
    {
      match action
      case Normal =>
      case Internal =>
      case Token =>
    }
  }

  /** Two rows that yield nothing and then two transfers, with windows of two rows. */
  function Example(b: nat): Line {
    Line(Token, false,
         [Cell(b, false, None), Cell(b + 1, false, None),
          Cell(b + 2, false, Some(Payment(b + 2).(source := Token))),
          Cell(b + 3, false, Some(Payment(b + 3).(source := Token)))], 2, 1)
  }

  lemma ExampleLosesTrack(b: nat)
    ensures Healthy(Example(b)) && Distinct(Example(b)) && !KeepsTrack(Example(b))
  {
    ExampleHealthy(b);
    var line := Example(b);
    assert Window(line) == 2;
    assert |Payment(b + 2).hash| == b + 2 && |Payment(b + 3).hash| == b + 3;
    CellsInRange(line, b, b);
    assert line.cells[0].block == b && First(line, b, b) == 0;
    assert Transfers(line, 1, 2) == [] && Transfers(line, 0, 2) == [];
    assert BlankFrom(line, b);
    assert CloseFrom(line, b, 2, 3);
  }

  lemma ExampleHealthy(b: nat)
    ensures Healthy(Example(b))
  {
    var line := Example(b);
    assert Window(line) == 2;
    forall block: nat {:trigger First(line, block, block)}
      ensures Last(line, block, block) - First(line, block, block) < 2
    {
      CellsInRange(line, block, block);
      var i := First(line, block, block);
      if i + 1 < |line.cells| {
        assert line.cells[i].block < line.cells[i + 1].block;
      }
    }
  }
}
