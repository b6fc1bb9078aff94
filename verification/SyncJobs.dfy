/** The life of one address across jobs: enqueue, process, stop, crash and restart.

    In every reachable state the address claims coverage only for stored blocks and every
    checkpoint of a job document is backed by stored blocks, provided the histories keep track of
    cuts or no record limit cut a listing
    (internal/syncer/manager.go, Enqueue, process, syncAddress, Stop; internal/store/store.go,
    FindSyncCheckpoints, FailInterruptedJobs). */
module SyncJobs {
  import opened Normalize
  import opened Wrappers
  import opened Timeline
  import opened RangeFetch
  import opened SyncRuns
  import C = Coverage

  datatype Status = Queued | Running | Succeeded | PartlyDone | FailedJob | Stopped

  datatype Document = Document(status: Status, checkpoints: Checkpoints)

  /** `jobs` holds, for each start block, the document of the latest job with that start. */
  datatype World = World(address: Address, jobs: map<nat, Document>)

  const UNSEEN := World(Address(false, Covered(C.Span(0, 0), C.Span(0, 0), C.Span(0, 0)), {}), map[])

  /** What can happen.  A processed job meets `calls` successful requests and writes before the first
      failure; its last writes, of discovered addresses and of the coverage, succeed if it `closes`;
      afterwards its document holds the checkpoints of its `snapshot`-th save and the status `fate`,
      whatever the failure, the user, or a lost save made of it. */
  datatype Event =
    | Enqueue(start: nat)
    | Process(
        start: nat, end: nat, head: nat, recent: bool, calls: nat, closes: bool, snapshot: nat, fate: Status)
    | Stop(start: nat)
    | Restart

  /** Only failed or stopped jobs are resumed. */
  function FindCheckpoints(jobs: map<nat, Document>, start: nat): Checkpoints {
    if start in jobs && (jobs[start].status == FailedJob || jobs[start].status == Stopped) then jobs[start].checkpoints
    else map[]
  }

  function CommonThrough(have: Covered): int {
    C.Min(have.normal.hi, C.Min(have.internal.hi, have.token.hi))
  }

  function CommonFrom(have: Covered): int {
    C.Max(have.normal.lo, C.Max(have.internal.lo, have.token.lo))
  }

  predicate AllContain(have: Covered, lo: nat, hi: nat) {
    C.CoverageContains(have.normal, lo, hi) && C.CoverageContains(have.internal, lo, hi) &&
        C.CoverageContains(have.token, lo, hi)
  }

  predicate FixedSnapshotCache(address: Address, start: nat, end: nat) {
    end > 0 && address.synced && AllContain(address.have, start, end)
  }

  predicate FullCache(address: Address, start: nat) {
    var from, through := CommonFrom(address.have), CommonThrough(address.have);
    address.synced && through >= from && (from != 0 || through != 0) && AllContain(address.have, start, through)
  }

  predicate Cached(address: Address, start: nat, end: nat, recent: bool) {
    FixedSnapshotCache(address, start, end) || (FullCache(address, start) && recent)
  }

  function Wanted(start: nat, end: nat, head: nat): C.Span {
    C.Span(start, if end > 0 then C.Min(head, end) else head)
  }

  /** The pass a Process event runs, if it runs one. */
  function PassOf(history: History, cap: nat, w: World, e: Event): (progress: Option<Progress>)
    requires ValidHistory(history)
    ensures progress.Some? ==>
      e.Process? && e.start in w.jobs && Wanted(e.start, e.end, e.head).lo <= Wanted(e.start, e.end, e.head).hi
    ensures progress.Some? ==>
      progress.value ==
          SyncPass(history, w.address.have, Wanted(e.start, e.end, e.head), cap, w.jobs[e.start].checkpoints, e.calls)
  {
    if !e.Process? || e.start !in w.jobs || w.jobs[e.start].status == Stopped then None
    else if Cached(w.address, e.start, e.end, e.recent) then None
    else
      var want := Wanted(e.start, e.end, e.head);
      if want.lo > want.hi then None
      else Some(SyncPass(history, w.address.have, want, cap, w.jobs[e.start].checkpoints, e.calls))
  }

  function FinishDocument(jobs: map<nat, Document>, e: Event, saved: seq<Checkpoints>): map<nat, Document>
    requires e.Process? && |saved| > 0
  {
    jobs[e.start := Document(e.fate, saved[if e.snapshot < |saved| then e.snapshot else |saved| - 1])]
  }

  function Step(history: History, cap: nat, w: World, e: Event): World
    requires ValidHistory(history)
  {
    match e
    case Enqueue(start) => w.(jobs := w.jobs[start := Document(Queued, FindCheckpoints(w.jobs, start))])
    case Stop(start) =>
      if start in w.jobs && (w.jobs[start].status == Queued || w.jobs[start].status == Running)
      then w.(jobs := w.jobs[start := w.jobs[start].(status := Stopped)]) else w
    case Restart =>
      w.(jobs := map start | start in w.jobs ::
           if w.jobs[start].status == Queued || w.jobs[start].status == Running then w.jobs[start].(status := FailedJob)
           else w.jobs[start])
    case Process(start, _, _, _, _, _, _, _) =>
      if start !in w.jobs || w.jobs[start].status == Stopped then w
      else
        var progress := PassOf(history, cap, w, e);
        if progress.None? then w.(jobs := FinishDocument(w.jobs, e, [w.jobs[start].checkpoints]))
        else
          var done := progress.value.error.None? && !progress.value.truncated && e.closes;
          World(
            Address(done, if done then Merge(Wanted(start, e.end, e.head), w.address.have) else w.address.have,
                    Upserted(w.address.stored, progress.value.pass.log)),
            FinishDocument(w.jobs, e, progress.value.pass.saved))
  }

  function Run(history: History, cap: nat, w: World, events: seq<Event>): World
    requires ValidHistory(history)
    decreases |events|
  {
    if events == [] then w else Run(history, cap, Step(history, cap, w, events[0]), events[1..])
  }

  // ---------- truth in every reachable state ----------

  ghost predicate ClaimsTrue(history: History, w: World) {
    CoverTrue(history, w.address.stored, w.address.have)
  }

  ghost predicate CheckpointsTrue(history: History, w: World) {
    forall start :: start in w.jobs ==> MapTrue(history, w.address.stored, start, w.jobs[start].checkpoints)
  }

  predicate Limited(history: History, cap: nat, w: World, e: Event)
    requires ValidHistory(history)
  {
    var progress := PassOf(history, cap, w, e);
    progress.Some? && progress.value.pass.limited
  }

  predicate NeverLimited(history: History, cap: nat, w: World, events: seq<Event>)
    requires ValidHistory(history)
    decreases |events|
  {
    events == [] ||
        (!Limited(history, cap, w, events[0]) &&
            NeverLimited(history, cap, Step(history, cap, w, events[0]), events[1..]))
  }

  lemma MapTrueGrows(
      history: History, stored: set<Identity>, stored': set<Identity>, start: nat, checkpoints: Checkpoints)
    requires MapTrue(history, stored, start, checkpoints) && stored <= stored'
    ensures MapTrue(history, stored', start, checkpoints)
  {
  }

  /** One step from a truthful state: claims stay true whatever happens, and so do the checkpoints
      unless a record limit cut a listing of a history that does not keep track. */
  lemma StepTrue(history: History, cap: nat, w: World, e: Event)
    requires ValidHistory(history) && ClaimsTrue(history, w) && CheckpointsTrue(history, w)
    ensures ClaimsTrue(history, Step(history, cap, w, e))
    ensures HistoryKeepsTrack(history) || !Limited(history, cap, w, e) ==>
      CheckpointsTrue(history, Step(history, cap, w, e))
    ensures w.address.stored <= Step(history, cap, w, e).address.stored
  {
    hide HistoryKeepsTrack, SyncPass, Holds;
    var w' := Step(history, cap, w, e);
    var passOf := PassOf(history, cap, w, e);
    if passOf.Some? && w.jobs[e.start].status != Stopped {
      var progress, want := passOf.value, Wanted(e.start, e.end, e.head);
      SyncPassTrue(history, w.address.stored, w.address.have, want, cap, w.jobs[e.start].checkpoints, e.calls);
      StoreGrows(w.address.stored, progress.pass.log);
      CoverTrueGrows(history, w.address.stored, w'.address.stored, w.address.have);
      if HistoryKeepsTrack(history) || !progress.pass.limited {
        forall start | start in w'.jobs
          ensures MapTrue(history, w'.address.stored, start, w'.jobs[start].checkpoints)
        {
          if start != e.start {
            MapTrueGrows(history, w.address.stored, w'.address.stored, start, w.jobs[start].checkpoints);
          }
        }
      }
    }
  }

  /** Every run from a truthful state, of a history that keeps track or with no cut listing. */
  lemma {:induction false} RunTrue(history: History, cap: nat, w: World, events: seq<Event>)
    requires ValidHistory(history) && ClaimsTrue(history, w) && CheckpointsTrue(history, w)
    requires HistoryKeepsTrack(history) || NeverLimited(history, cap, w, events)
    ensures ClaimsTrue(history, Run(history, cap, w, events)) && CheckpointsTrue(history, Run(history, cap, w, events))
    decreases |events|
  {
    hide HistoryKeepsTrack;
    if events != [] {
      StepTrue(history, cap, w, events[0]);
      RunTrue(history, cap, Step(history, cap, w, events[0]), events[1..]);
    }
  }

  /** A cached answer is backed by the store: the requested snapshot, or everything up to the common water mark. */
  lemma CachedTrue(history: History, w: World, start: nat, end: nat)
    requires ClaimsTrue(history, w)
    ensures FixedSnapshotCache(w.address, start, end) ==> forall action ::
      Holds(w.address.stored, history.Of(action), start, end)
    ensures FullCache(w.address, start) ==> forall action ::
      Holds(w.address.stored, history.Of(action), start, CommonThrough(w.address.have))
  {
    forall action
      ensures FixedSnapshotCache(w.address, start, end) ==> Holds(w.address.stored, history.Of(action), start, end)
      ensures FullCache(w.address, start) ==>
        Holds(w.address.stored, history.Of(action), start, CommonThrough(w.address.have))
    {
      var have := w.address.have.Of(action);
      assert C.ValidCoverage(have) ==> Holds(w.address.stored, history.Of(action), have.lo, have.hi);
    }
  }

  // ---------- stops and restarts ----------

  predicate InProgress(doc: Document) {
    doc.status == Queued || doc.status == Running
  }

  /** A stop ends a job in progress and a restart all of them; the next job with that start resumes from where they
      were.  Documents of other jobs, and the address, stay as they are. */
  lemma InterruptedResumes(history: History, cap: nat, w: World, e: Event, start: nat)
    requires ValidHistory(history) && (e.Stop? || e.Restart?) && start in w.jobs
    ensures
      var u := Step(history, cap, w, e);
      && u.address == w.address && u.jobs.Keys == w.jobs.Keys
      && if InProgress(w.jobs[start]) && (e.Restart? || e.start == start) then
           !InProgress(u.jobs[start]) && FindCheckpoints(u.jobs, start) == w.jobs[start].checkpoints
         else u.jobs[start] == w.jobs[start]
  {
  }

  /** A queued job begins with the checkpoints of a failed or stopped one of its start, and with none otherwise; a
      processed one is changed only if it is not stopped, and ends with its fate and with whichever of the saves of
      its pass reached its document, or with what it had when no pass ran. */
  lemma JobsSpelled(history: History, cap: nat, w: World, e: Event)
    requires ValidHistory(history) && (e.Enqueue? || e.Process?)
    ensures
      var u := Step(history, cap, w, e);
      && (forall other :: other in w.jobs && other != e.start ==> other in u.jobs && u.jobs[other] == w.jobs[other])
      && (e.Enqueue? ==>
            && u.address == w.address && e.start in u.jobs && u.jobs[e.start].status == Queued
            && u.jobs[e.start].checkpoints ==
                 if e.start in w.jobs && w.jobs[e.start].status in {FailedJob, Stopped}
                 then w.jobs[e.start].checkpoints else map[])
      && (e.Process? && e.start in w.jobs && w.jobs[e.start].status != Stopped ==>
            && u.jobs[e.start].status == e.fate
            && var progress := PassOf(history, cap, w, e);
               if progress.None? then u.jobs[e.start].checkpoints == w.jobs[e.start].checkpoints
               else
                 && (e.snapshot < |progress.value.pass.saved| ==>
                       u.jobs[e.start].checkpoints == progress.value.pass.saved[e.snapshot])
                 && u.jobs[e.start].checkpoints in progress.value.pass.saved)
      && (e.Process? && (e.start !in w.jobs || w.jobs[e.start].status == Stopped) ==> u == w)
  {
    hide SyncPass, Upserted, Merge;
  }

  // ---------- histories below the cap ----------

  function AllTransfers(line: Line): seq<Transfer> {
    Transfers(line, 0, |line.cells|)
  }

  predicate SmallHistory(history: History, cap: nat) {
    |AllTransfers(history.normal)| + |AllTransfers(history.internal)| + |AllTransfers(history.token)| < cap
  }

  function From(line: Line, block: nat): seq<Transfer> {
    Transfers(line, IndexOf(line, block), |line.cells|)
  }

  lemma {:induction false} CountBelowMonotone(line: Line, n: nat, p: int, q: int)
    requires n <= |line.cells| && p <= q
    ensures CountBelow(line, n, p) <= CountBelow(line, n, q)
  {
    if n > 0 {
      CountBelowMonotone(line, n - 1, p, q);
    }
  }

  lemma FromSplits(line: Line, from: nat, at: nat, hi: nat)
    requires Valid(line) && !line.descending && from <= at <= hi
    ensures |RangeTransfers(line, at, hi)| + |From(line, hi + 1)| <= |From(line, from)| <= |AllTransfers(line)|
  {
    var n := |line.cells|;
    CountBelowMonotone(line, n, from, at);
    CountBelowMonotone(line, n, at, hi + 1);
    TransfersSplit(line, IndexOf(line, at), IndexOf(line, hi + 1), n);
    TransfersSplit(line, IndexOf(line, from), IndexOf(line, at), n);
    TransfersSplit(line, 0, IndexOf(line, from), n);
  }

  predicate Ordered(from: nat, spans: seq<C.Span>)
    decreases |spans|
  {
    spans == [] || (from <= spans[0].lo <= spans[0].hi && Ordered(spans[0].hi + 1, spans[1..]))
  }

  lemma OrderedIntervals(want: C.Span, have: C.Span)
    requires want.lo <= want.hi
    ensures Ordered(want.lo, C.CoverageIntervals(want, have))
  {
    C.IntervalsCover(want, have);
    var spans := C.CoverageIntervals(want, have);
    if spans != [] {
      assert |spans| == 1 ==> spans[1..] == [];
      assert |spans| == 2 ==> spans[1..] == [spans[1]] && spans[1..][1..] == [];
    }
  }

  lemma {:induction false} IntervalsBelowCap(
      line: Line, from: nat, spans: seq<C.Span>, cap: nat, fetched: nat, pass: Pass)
    requires Valid(line) && !line.descending && |pass.saved| > 0 && !pass.limited
    requires Ordered(from, spans) && fetched + |From(line, from)| < cap
    ensures var progress := SyncIntervals(line, spans, cap, fetched, pass);
      !progress.pass.limited && progress.fetched <= fetched + |From(line, from)|
    decreases |spans|, 0
  {
    hide From, RangeTransfers, FetchRange;
    if spans != [] {
      var at, hi := ResumeAt(pass, line.action, spans[0].lo), spans[0].hi;
      FromSplits(line, from, spans[0].lo, hi);
      if at > hi {
        IntervalsBelowCap(line, hi + 1, spans[1..], cap, fetched, pass);
      } else {
        FetchBelowCap(line, from, at, hi, spans[1..], cap, fetched, pass);
      }
    }
  }

  lemma {:induction false} FetchBelowCap(
      line: Line, from: nat, at: nat, hi: nat, spans: seq<C.Span>, cap: nat, fetched: nat, pass: Pass)
    requires Valid(line) && !line.descending && |pass.saved| > 0 && !pass.limited && from <= at <= hi
    requires Ordered(hi + 1, spans) && fetched + |From(line, from)| < cap
    ensures var progress := AfterFetch(line, spans, cap, fetched, FetchRange(line, at, hi, cap - fetched, pass));
      !progress.pass.limited && progress.fetched <= fetched + |From(line, from)|
    decreases |spans|, 1
  {
    FromSplits(line, from, at, hi);
    hide From, RangeTransfers, FetchRange, SyncIntervals;
    var outcome := FetchRange(line, at, hi, cap - fetched, pass);
    WholeFetch(line, at, hi, cap - fetched, pass);
    if outcome.error.None? {
      IntervalsBelowCap(line, hi + 1, spans, cap, fetched + outcome.written, outcome.pass);
    }
  }

  lemma WholeFetch(line: Line, start: nat, end: nat, limit: nat, pass: Pass)
    requires Valid(line) && !line.descending && start <= end && |pass.saved| > 0 && !pass.limited
    requires |RangeTransfers(line, start, end)| < limit
    ensures var outcome := FetchRange(line, start, end, limit, pass);
      !outcome.pass.limited && (outcome.error.None? ==> outcome.written == |RangeTransfers(line, start, end)|)
  {
    hide FetchRange, RangeTransfers;
    BelowRecordLimit(line, start, end, limit, pass);
    FetchRangeSound(line, start, end, limit, pass);
  }

  function Remaining(history: History, actions: seq<Action>): nat {
    if actions == [] then 0 else |AllTransfers(history.Of(actions[0]))| + Remaining(history, actions[1..])
  }

  lemma {:induction false} ActionsBelowCap(
      history: History, have: Covered, want: C.Span, actions: seq<Action>, cap: nat, fetched: nat, pass: Pass)
    requires ValidHistory(history) && |pass.saved| > 0 && !pass.limited && want.lo <= want.hi
    requires fetched + Remaining(history, actions) < cap
    ensures !SyncActions(history, have, want, actions, cap, fetched, pass).pass.limited
    decreases |actions|
  {
    if actions != [] {
      var line, spans := history.Of(actions[0]), C.CoverageIntervals(want, have.Of(actions[0]));
      OrderedIntervals(want, have.Of(actions[0]));
      FromSplits(line, want.lo, want.lo, want.lo);
      IntervalsBelowCap(line, want.lo, spans, cap, fetched, pass);
      var done := SyncIntervals(line, spans, cap, fetched, pass);
      if done.error.None? {
        ActionsBelowCap(history, have, want, actions[1..], cap, done.fetched, done.pass);
      }
    }
  }

  /** A history with fewer transfers than the cap never meets the record limit, in any run. */
  lemma {:induction false} SmallHistoryNeverLimited(history: History, cap: nat, w: World, events: seq<Event>)
    requires ValidHistory(history) && SmallHistory(history, cap)
    ensures NeverLimited(history, cap, w, events)
    decreases |events|
  {
    if events != [] {
      var e := events[0];
      if PassOf(history, cap, w, e).Some? {
        assert Remaining(history, [Token]) == |AllTransfers(history.token)|;
        assert Remaining(history, [Internal, Token]) == |AllTransfers(history.internal)| + Remaining(history, [Token]);
        assert ACTIONS[1..] == [Internal, Token] && ACTIONS[1..][1..] == [Token];
        ActionsBelowCap(history, w.address.have, Wanted(e.start, e.end, e.head), ACTIONS, cap, 0,
                        Pass([], [w.jobs[e.start].checkpoints], e.calls, false));
      }
      SmallHistoryNeverLimited(history, cap, Step(history, cap, w, e), events[1..]);
    }
  }

  /** Every reachable state of an address whose histories keep track of cuts, whatever their size, or
      whose history stays below the cap. */
  lemma ReachableTrue(history: History, cap: nat, events: seq<Event>)
    requires ValidHistory(history) && (HistoryKeepsTrack(history) || SmallHistory(history, cap))
    ensures ClaimsTrue(history, Run(history, cap, UNSEEN, events))
    ensures CheckpointsTrue(history, Run(history, cap, UNSEEN, events))
  {
    hide HistoryKeepsTrack;
    if SmallHistory(history, cap) {
      SmallHistoryNeverLimited(history, cap, UNSEEN, events);
    }
    RunTrue(history, cap, UNSEEN, events);
  }
}
