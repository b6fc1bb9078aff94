/** Syncing one address, job after job, with crashes, stops and resumes
    (internal/syncer/manager.go, syncAddress; internal/store/store.go, FindSyncCheckpoints and
    CompleteAddressSync).  Unlimited mode, one address per job. */
module SyncRuns {
  import opened Normalize
  import opened Wrappers
  import opened Timeline
  import opened RangeFetch
  import opened LimitedFetch
  import C = Coverage

  /** The three histories of an address, oldest first. */
  datatype History = History(normal: Line, internal: Line, token: Line) {
    function Of(action: Action): Line {
      match action case Normal => normal case Internal => internal case Token => token
    }
  }

  datatype Covered = Covered(normal: C.Span, internal: C.Span, token: C.Span) {
    function Of(action: Action): C.Span {
      match action case Normal => normal case Internal => internal case Token => token
    }
  }

  const ACTIONS: seq<Action> := [Normal, Internal, Token]

  ghost predicate ValidHistory(history: History) {
    forall action :: Valid(history.Of(action)) && !history.Of(action).descending && history.Of(action).action == action
  }

  // ---------- one pass over the three actions ----------

  datatype Progress = Progress(pass: Pass, fetched: nat, truncated: bool, error: Option<Error>)

  /** A checkpoint inside or beyond an interval moves its start. */
  function ResumeAt(pass: Pass, action: Action, lo: nat): nat
    requires |pass.saved| > 0
  {
    if action in Current(pass) && Current(pass)[action] >= lo then Current(pass)[action] + 1 else lo
  }

  /** The loop over the intervals of one action; `cap` bounds the records of a whole pass. */
  function SyncIntervals(line: Line, spans: seq<C.Span>, cap: nat, fetched: nat, pass: Pass): (progress: Progress)
    requires Valid(line) && !line.descending && |pass.saved| > 0
    ensures |progress.pass.saved| > 0
    decreases |spans|, 0
  {
    if spans == [] then Progress(pass, fetched, false, None)
    else if fetched >= cap then Progress(pass, fetched, true, None)
    else
      var start := ResumeAt(pass, line.action, spans[0].lo);
      if start > spans[0].hi then SyncIntervals(line, spans[1..], cap, fetched, pass)
      else
        AfterFetch(line, spans[1..], cap, fetched, FetchRange(line, start, spans[0].hi, cap - fetched, pass))
  }

  /** An interval has been fetched: stop on its error, otherwise go on with the others. */
  function AfterFetch(line: Line, spans: seq<C.Span>, cap: nat, fetched: nat, outcome: Outcome): (progress: Progress)
    requires Valid(line) && !line.descending && |outcome.pass.saved| > 0
    ensures |progress.pass.saved| > 0
    decreases |spans|, 1
  {
    if outcome.error.Some? then Progress(outcome.pass, fetched, false, outcome.error)
    else
      var rest := SyncIntervals(line, spans, cap, fetched + outcome.written, outcome.pass);
      rest.(truncated := rest.truncated || fetched + outcome.written >= cap)
  }

  /** The loop over the actions. */
  function SyncActions(
      history: History, have: Covered, want: C.Span, actions: seq<Action>, cap: nat, fetched: nat,
          pass: Pass): (progress: Progress)
    requires ValidHistory(history) && |pass.saved| > 0
    ensures |progress.pass.saved| > 0
    decreases |actions|
  {
    if actions == [] then Progress(pass, fetched, false, None)
    else if fetched >= cap then Progress(pass, fetched, true, None)
    else
      var done := SyncIntervals(history.Of(actions[0]), C.CoverageIntervals(want, have.Of(actions[0])), cap, fetched,
          pass);
      if done.error.Some? then done
      else
        var rest := SyncActions(history, have, want, actions[1..], cap, done.fetched, done.pass);
        rest.(truncated := rest.truncated || done.truncated)
  }

  // ---------- what is stored ----------

  datatype Identity = Identity(hash: string, source: Action, traceId: string, logIndex: int, asset: string)

  function IdentityOf(t: Transfer): Identity {
    Identity(t.hash, t.source, t.traceId, t.logIndex, t.asset)
  }

  /** Upserting a log of transfers into the store. */
  function Upserted(stored: set<Identity>, log: seq<Transfer>): set<Identity> {
    stored + set t | t in log :: IdentityOf(t)
  }

  /** Every transfer of the blocks lo..hi is in the store. */
  ghost predicate Holds(stored: set<Identity>, line: Line, lo: int, hi: int) {
    forall c :: c in line.cells && lo <= c.block <= hi && c.transfer.Some? ==> IdentityOf(c.transfer.value) in stored
  }

  lemma HoldsJoin(stored: set<Identity>, line: Line, lo: int, middle: int, hi: int)
    requires Holds(stored, line, lo, middle) && Holds(stored, line, middle + 1, hi)
    ensures Holds(stored, line, lo, hi)
  {
  }

  lemma {:induction false} CellsInTransfers(line: Line, i: nat, k: nat, j: nat)
    requires i <= k < j <= |line.cells| && line.cells[k].transfer.Some?
    ensures line.cells[k].transfer.value in Transfers(line, i, j)
    decreases k - i
  {
    if i < k {
      CellsInTransfers(line, i + 1, k, j);
    }
  }

  /** A log that contains the transfers of a range makes the store hold the range. */
  lemma LogHolds(stored: set<Identity>, line: Line, start: nat, end: nat, before: seq<Transfer>, log: seq<Transfer>)
    requires Valid(line) && start <= end && before + RangeTransfers(line, start, end) <= log
    ensures Holds(Upserted(stored, log), line, start, end)
  {
    CellsInRange(line, start, end);
    var wanted := RangeTransfers(line, start, end);
    forall c | c in line.cells && start <= c.block <= end && c.transfer.Some?
      ensures IdentityOf(c.transfer.value) in Upserted(stored, log)
    {
      var k :| 0 <= k < |line.cells| && line.cells[k] == c;
      CellsInTransfers(line, First(line, start, end), k, Last(line, start, end));
      var n :| 0 <= n < |wanted| && wanted[n] == c.transfer.value;
      assert log[|before| + n] == (before + wanted)[|before| + n];
    }
  }

  lemma UpsertedGrows(stored: set<Identity>, log: seq<Transfer>, log': seq<Transfer>)
    requires log <= log'
    ensures Upserted(stored, log) <= Upserted(stored, log')
  {
  }

  /** A checkpoint map is true for a start block when everything from there to each checkpoint is stored. */
  ghost predicate MapTrue(history: History, stored: set<Identity>, start: nat, checkpoints: Checkpoints) {
    forall action :: action in checkpoints ==> Holds(stored, history.Of(action), start, checkpoints[action])
  }

  ghost predicate SavedTrue(history: History, stored: set<Identity>, start: nat, pass: Pass) {
    forall k :: 0 <= k < |pass.saved| ==> MapTrue(history, Upserted(stored, pass.log), start, pass.saved[k])
  }

  ghost predicate CoverTrue(history: History, stored: set<Identity>, have: Covered) {
    forall action ::
        C.ValidCoverage(have.Of(action)) ==> Holds(stored, history.Of(action), have.Of(action).lo, have.Of(action).hi)
  }

  /** Blocks from `from` up to the first interval, and between intervals, are stored. */
  ghost predicate GapsHold(stored: set<Identity>, line: Line, from: int, spans: seq<C.Span>)
    decreases |spans|
  {
    spans == [] ||
    (from <= spans[0].lo <= spans[0].hi && Holds(stored, line, from, spans[0].lo - 1) &&
        GapsHold(stored, line, spans[0].hi + 1, spans[1..]))
  }

  /** The last block of the last interval, or the block before `from`. */
  function LastBlock(from: int, spans: seq<C.Span>): int
    decreases |spans|
  {
    if spans == [] then from - 1 else LastBlock(spans[0].hi + 1, spans[1..])
  }

  lemma {:induction false} GapsHoldGrows(
      stored: set<Identity>, stored': set<Identity>, line: Line, from: int, spans: seq<C.Span>)
    requires stored <= stored' && GapsHold(stored, line, from, spans)
    ensures GapsHold(stored', line, from, spans)
    decreases |spans|
  {
    if spans != [] {
      GapsHoldGrows(stored, stored', line, spans[0].hi + 1, spans[1..]);
    }
  }

  lemma GapsOfIntervals(stored: set<Identity>, line: Line, want: C.Span, have: C.Span)
    requires want.lo <= want.hi
    requires C.ValidCoverage(have) ==> Holds(stored, line, have.lo, have.hi)
    ensures GapsHold(stored, line, want.lo, C.CoverageIntervals(want, have))
  {
    C.IntervalsCover(want, have);
    var spans := C.CoverageIntervals(want, have);
    if |spans| == 2 {
      assert spans[1..] == [spans[1]];
    }
  }

  /** Saved checkpoints stay true while the store grows. */
  lemma FetchKeepsSavedTrue(
      history: History, stored: set<Identity>, start: nat, action: Action, at: nat, end: nat, pass: Pass,
          outcome: Outcome)
    requires ValidHistory(history) && |pass.saved| > 0 && start <= at <= end
    requires SavedTrue(history, stored, start, pass)
    requires Holds(Upserted(stored, pass.log), history.Of(action), start, at - 1)
    requires Backed(history.Of(action), at, end, pass, outcome)
    ensures SavedTrue(history, stored, start, outcome.pass)
    ensures Whole(history.Of(action), at, end, pass, outcome) ==>
      Holds(Upserted(stored, outcome.pass.log), history.Of(action), start, end)
  {
    var line, pass' := history.Of(action), outcome.pass;
    UpsertedGrows(stored, pass.log, pass'.log);
    forall k | 0 <= k < |pass'.saved|
      ensures MapTrue(history, Upserted(stored, pass'.log), start, pass'.saved[k])
    {
      if k < |pass.saved| {
        assert pass'.saved[k] == pass.saved[k];
        assert MapTrue(history, Upserted(stored, pass.log), start, pass.saved[k]);
      } else {
        NewCheckpointTrue(history, stored, start, action, at, end, pass, outcome, k);
      }
    }
    if Whole(line, at, end, pass, outcome) {
      LogHolds(stored, line, at, end, pass.log, pass'.log);
      HoldsJoin(Upserted(stored, pass'.log), line, start, at - 1, end);
    }
  }

  lemma NewCheckpointTrue(
      history: History, stored: set<Identity>, start: nat, action: Action, at: nat, end: nat,
      pass: Pass, outcome: Outcome, k: nat)
    requires ValidHistory(history) && |pass.saved| > 0 && start <= at <= end
    requires SavedTrue(history, stored, start, pass)
    requires Holds(Upserted(stored, pass.log), history.Of(action), start, at - 1)
    requires Backed(history.Of(action), at, end, pass, outcome)
    requires |pass.saved| <= k < |outcome.pass.saved|
    ensures MapTrue(history, Upserted(stored, outcome.pass.log), start, outcome.pass.saved[k])
  {
    var line, log := history.Of(action), outcome.pass.log;
    assert SavedSoundly(line, at, end, pass, log, outcome.pass.saved[k]);
    var c: nat :| at <= c <= end && outcome.pass.saved[k] == Current(pass)[action := c]
                  && pass.log + RangeTransfers(line, at, c) <= log;
    UpsertedGrows(stored, pass.log, log);
    LogHolds(stored, line, at, c, pass.log, log);
    HoldsJoin(Upserted(stored, log), line, start, at - 1, c);
    assert MapTrue(history, Upserted(stored, pass.log), start, pass.saved[|pass.saved| - 1]);
  }

  // ---------- a pass is truthful ----------

  /** Whatever lies before the block where an interval is resumed is stored. */
  lemma ResumeHolds(
      history: History, stored: set<Identity>, start: nat, action: Action, from: nat, span: C.Span, pass: Pass)
    requires |pass.saved| > 0 && start <= from <= span.lo <= span.hi
    requires SavedTrue(history, stored, start, pass)
    requires Holds(Upserted(stored, pass.log), history.Of(action), start, from - 1)
    requires Holds(Upserted(stored, pass.log), history.Of(action), from, span.lo - 1)
    ensures var at := ResumeAt(pass, action, span.lo);
      && span.lo <= at && Holds(Upserted(stored, pass.log), history.Of(action), start, at - 1)
      && (at > span.hi ==> Holds(Upserted(stored, pass.log), history.Of(action), start, span.hi))
  {
    HoldsJoin(Upserted(stored, pass.log), history.Of(action), start, from - 1, span.lo - 1);
    assert MapTrue(history, Upserted(stored, pass.log), start, pass.saved[|pass.saved| - 1]);
  }

  /** Either the history keeps track of cuts, or none was met. */
  ghost predicate Trusted(line: Line, after: Pass) {
    KeepsTrack(line) || !after.limited
  }

  /** A fetch, cut or not: its checkpoints are backed, and it has the whole range unless it was cut. */
  lemma FetchTrusted(line: Line, start: nat, end: nat, limit: nat, pass: Pass)
    requires Valid(line) && !line.descending && start <= end && |pass.saved| > 0
    requires Trusted(line, FetchRange(line, start, end, limit, pass).pass)
    ensures
      var outcome := FetchRange(line, start, end, limit, pass);
      && Backed(line, start, end, pass, outcome)
      && (outcome.error.None? && !outcome.pass.limited ==> Whole(line, start, end, pass, outcome))
  {
    hide FetchRange, Backed;
    if KeepsTrack(line) {
      FetchRangeTracked(line, start, end, limit, pass);
    }
    if !FetchRange(line, start, end, limit, pass).pass.limited {
      FetchRangeSound(line, start, end, limit, pass);
    }
  }

  /** One action: checkpoints stay true, and when it is not truncated every interval is stored.  (A
      pass that was cut before has fetched its share.) */
  lemma {:induction false} SyncIntervalsTrue(
      history: History, stored: set<Identity>, start: nat, action: Action, from: nat, spans: seq<C.Span>,
      cap: nat, fetched: nat, pass: Pass)
    requires ValidHistory(history) && |pass.saved| > 0 && start <= from && (pass.limited ==> fetched >= cap)
    requires SavedTrue(history, stored, start, pass)
    requires Holds(Upserted(stored, pass.log), history.Of(action), start, from - 1)
    requires GapsHold(Upserted(stored, pass.log), history.Of(action), from, spans)
    requires Trusted(history.Of(action), SyncIntervals(history.Of(action), spans, cap, fetched, pass).pass)
    ensures
      var progress := SyncIntervals(history.Of(action), spans, cap, fetched, pass);
      && SavedTrue(history, stored, start, progress.pass)
      && (progress.error.None? && !progress.truncated ==>
          Holds(Upserted(stored, progress.pass.log), history.Of(action), start, LastBlock(from, spans)))
    decreases |spans|, 0
  {
    var line := history.Of(action);
    if spans != [] && fetched < cap {
      var span := spans[0];
      var at := ResumeAt(pass, action, span.lo);
      ResumeHolds(history, stored, start, action, from, span, pass);
      hide FetchRange, SavedTrue, Sound, Upserted, Holds, ResumeAt, KeepsTrack;
      if at > span.hi {
        SyncIntervalsTrue(history, stored, start, action, span.hi + 1, spans[1..], cap, fetched, pass);
      } else {
        AfterFetchTrue(history, stored, start, action, at, span.hi, spans[1..], cap, fetched, pass);
      }
    }
  }

  lemma NothingLeft(line: Line, spans: seq<C.Span>, cap: nat, fetched: nat, pass: Pass)
    requires Valid(line) && !line.descending && |pass.saved| > 0 && fetched >= cap
    ensures SyncIntervals(line, spans, cap, fetched, pass).pass == pass
  {
  }

  lemma {:induction false} AfterFetchTrue(
      history: History, stored: set<Identity>, start: nat, action: Action, at: nat, end: nat, spans: seq<C.Span>,
      cap: nat, fetched: nat, pass: Pass)
    requires ValidHistory(history) && |pass.saved| > 0 && start <= at <= end && fetched < cap && !pass.limited
    requires SavedTrue(history, stored, start, pass)
    requires Holds(Upserted(stored, pass.log), history.Of(action), start, at - 1)
    requires GapsHold(Upserted(stored, pass.log), history.Of(action), end + 1, spans)
    requires
      var line := history.Of(action);
      Trusted(line, AfterFetch(line, spans, cap, fetched, FetchRange(line, at, end, cap - fetched, pass)).pass)
    ensures
      var line := history.Of(action);
      var progress := AfterFetch(line, spans, cap, fetched, FetchRange(line, at, end, cap - fetched, pass));
      && SavedTrue(history, stored, start, progress.pass)
      && (progress.error.None? && !progress.truncated ==>
          Holds(Upserted(stored, progress.pass.log), line, start, LastBlock(end + 1, spans)))
    decreases |spans|, 1
  {
    var line := history.Of(action);
    var outcome := FetchRange(line, at, end, cap - fetched, pass);
    OneFetchTrue(history, stored, start, action, at, end, spans, cap, fetched, pass);
    SpansAfter(line, spans, cap, fetched, outcome);
    hide FetchRange, SavedTrue, Upserted, Holds, KeepsTrack, SyncIntervals, AfterFetch, GapsHold, LastBlock, Current;
    if outcome.error.None? {
      if fetched + outcome.written >= cap {
        NothingLeft(line, spans, cap, fetched + outcome.written, outcome.pass);
      } else {
        GapsHoldGrows(Upserted(stored, pass.log), Upserted(stored, outcome.pass.log), line, end + 1, spans);
        SyncIntervalsTrue(history, stored, start, action, end + 1, spans, cap, fetched + outcome.written, outcome.pass);
      }
    }
  }

  /** What happens after a fetch. */
  lemma SpansAfter(line: Line, spans: seq<C.Span>, cap: nat, fetched: nat, outcome: Outcome)
    requires Valid(line) && !line.descending && |outcome.pass.saved| > 0
    ensures
      AfterFetch(line, spans, cap, fetched, outcome) ==
      if outcome.error.Some? then Progress(outcome.pass, fetched, false, outcome.error)
      else
        var rest := SyncIntervals(line, spans, cap, fetched + outcome.written, outcome.pass);
        rest.(truncated := rest.truncated || fetched + outcome.written >= cap)
  {
    hide SyncIntervals;
  }

  /** The fetch of one interval; what follows decides whether it is trusted. */
  lemma OneFetchTrue(
      history: History, stored: set<Identity>, start: nat, action: Action, at: nat, end: nat, spans: seq<C.Span>,
      cap: nat, fetched: nat, pass: Pass)
    requires ValidHistory(history) && |pass.saved| > 0 && start <= at <= end && fetched < cap && !pass.limited
    requires SavedTrue(history, stored, start, pass)
    requires Holds(Upserted(stored, pass.log), history.Of(action), start, at - 1)
    requires
      var line := history.Of(action);
      Trusted(line, AfterFetch(line, spans, cap, fetched, FetchRange(line, at, end, cap - fetched, pass)).pass)
    ensures
      var outcome := FetchRange(history.Of(action), at, end, cap - fetched, pass);
      && SavedTrue(history, stored, start, outcome.pass)
      && Upserted(stored, pass.log) <= Upserted(stored, outcome.pass.log)
      && (outcome.error.None? && outcome.pass.limited ==> fetched + outcome.written >= cap)
      && (outcome.error.None? && !outcome.pass.limited ==>
          Holds(Upserted(stored, outcome.pass.log), history.Of(action), start, end))
  {
    var line := history.Of(action);
    var outcome := FetchRange(line, at, end, cap - fetched, pass);
    FetchRangeGrows(line, at, end, cap - fetched, pass);
    SyncIntervalsGrows(line, spans, cap, fetched + outcome.written, outcome.pass);
    hide FetchRange, SavedTrue, Upserted, Holds, KeepsTrack, Backed, Whole, SyncIntervals;
    FetchTrusted(line, at, end, cap - fetched, pass);
    FetchKeepsSavedTrue(history, stored, start, action, at, end, pass, outcome);
    UpsertedGrows(stored, pass.log, outcome.pass.log);
  }

  /** A limited pass never finishes without being marked truncated. */
  lemma {:induction false} SyncIntervalsGrows(line: Line, spans: seq<C.Span>, cap: nat, fetched: nat, pass: Pass)
    requires Valid(line) && !line.descending && |pass.saved| > 0
    ensures var progress := SyncIntervals(line, spans, cap, fetched, pass);
      && pass.log <= progress.pass.log && fetched <= progress.fetched
      && (pass.limited ==> progress.pass.limited)
      && (progress.error.None? && progress.pass.limited && !pass.limited ==>
          progress.truncated && progress.fetched >= cap)
    decreases |spans|
  {
    if spans != [] && fetched < cap {
      var at := ResumeAt(pass, line.action, spans[0].lo);
      if at > spans[0].hi {
        SyncIntervalsGrows(line, spans[1..], cap, fetched, pass);
      } else {
        var outcome := FetchRange(line, at, spans[0].hi, cap - fetched, pass);
        FetchRangeGrows(line, at, spans[0].hi, cap - fetched, pass);
        if outcome.error.None? {
          SyncIntervalsGrows(line, spans[1..], cap, fetched + outcome.written, outcome.pass);
          PrefixTransitive(pass.log, outcome.pass.log,
              SyncIntervals(line, spans[1..], cap, fetched + outcome.written, outcome.pass).pass.log);
        }
      }
    }
  }

  lemma LastBlockReaches(stored: set<Identity>, line: Line, want: C.Span, have: C.Span)
    requires want.lo <= want.hi
    requires C.ValidCoverage(have) ==> Holds(stored, line, have.lo, have.hi)
    requires Holds(stored, line, want.lo, LastBlock(want.lo, C.CoverageIntervals(want, have)))
    ensures Holds(stored, line, want.lo, want.hi)
  {
    C.IntervalsCover(want, have);
    var spans := C.CoverageIntervals(want, have);
    if |spans| == 2 {
      assert spans[1..] == [spans[1]];
      assert LastBlock(want.lo, spans) == LastBlock(spans[0].hi + 1, spans[1..]) == want.hi;
    } else if |spans| == 1 {
      assert spans[1..] == [];
      assert LastBlock(want.lo, spans) == LastBlock(spans[0].hi + 1, spans[1..]) == spans[0].hi;
    }
  }

  lemma CoverTrueGrows(history: History, stored: set<Identity>, stored': set<Identity>, have: Covered)
    requires CoverTrue(history, stored, have) && stored <= stored'
    ensures CoverTrue(history, stored', have)
  {
  }

  /** The histories of these actions keep track, or no listing was cut. */
  ghost predicate AllTrusted(history: History, actions: seq<Action>, after: Pass) {
    (forall action :: action in actions ==> KeepsTrack(history.Of(action))) || !after.limited
  }

  /** All three actions: checkpoints stay true, and a pass that was not truncated has stored all that
      was wanted. */
  lemma {:induction false} SyncActionsTrue(
      history: History, stored: set<Identity>, have: Covered, want: C.Span, actions: seq<Action>,
      cap: nat, fetched: nat, pass: Pass)
    requires ValidHistory(history) && |pass.saved| > 0 && want.lo <= want.hi && (pass.limited ==> fetched >= cap)
    requires CoverTrue(history, stored, have) && SavedTrue(history, stored, want.lo, pass)
    requires AllTrusted(history, actions, SyncActions(history, have, want, actions, cap, fetched, pass).pass)
    ensures
      var progress := SyncActions(history, have, want, actions, cap, fetched, pass);
      && SavedTrue(history, stored, want.lo, progress.pass)
      && (progress.error.None? && !progress.truncated ==>
          forall action :: action in actions ==>
            Holds(Upserted(stored, progress.pass.log), history.Of(action), want.lo, want.hi))
    decreases |actions|, 1
  {
    if actions != [] && fetched < cap {
      var action, line := actions[0], history.Of(actions[0]);
      var spans := C.CoverageIntervals(want, have.Of(action));
      var done := SyncIntervals(line, spans, cap, fetched, pass);
      GapsOfIntervals(stored, line, want, have.Of(action));
      UpsertedGrows(stored, [], pass.log);
      GapsHoldGrows(stored, Upserted(stored, pass.log), line, want.lo, spans);
      SyncIntervalsGrows(line, spans, cap, fetched, pass);
      if done.error.None? {
        SyncActionsGrows(history, have, want, actions[1..], cap, done.fetched, done.pass);
      }
      assert Holds(Upserted(stored, pass.log), line, want.lo, want.lo - 1);
      SyncIntervalsTrue(history, stored, want.lo, action, want.lo, spans, cap, fetched, pass);
      if done.error.None? {
        OtherActionsTrue(history, stored, have, want, actions, cap, done);
      }
    }
  }

  lemma {:induction false} OtherActionsTrue(
      history: History, stored: set<Identity>, have: Covered, want: C.Span, actions: seq<Action>,
      cap: nat, done: Progress)
    requires ValidHistory(history) && |done.pass.saved| > 0 && want.lo <= want.hi && actions != []
    requires done.pass.limited ==> done.fetched >= cap
    requires CoverTrue(history, stored, have) && SavedTrue(history, stored, want.lo, done.pass)
    requires !done.truncated ==>
      Holds(Upserted(stored, done.pass.log), history.Of(actions[0]), want.lo,
            LastBlock(want.lo, C.CoverageIntervals(want, have.Of(actions[0]))))
    requires AllTrusted(history, actions[1..],
      SyncActions(history, have, want, actions[1..], cap, done.fetched, done.pass).pass)
    ensures
      var rest := SyncActions(history, have, want, actions[1..], cap, done.fetched, done.pass);
      && SavedTrue(history, stored, want.lo, rest.pass)
      && (rest.error.None? && !rest.truncated && !done.truncated ==>
          forall action :: action in actions ==>
            Holds(Upserted(stored, rest.pass.log), history.Of(action), want.lo, want.hi))
    decreases |actions|, 0
  {
    hide SyncIntervals, SyncActions, SavedTrue, Upserted;
    var action, line := actions[0], history.Of(actions[0]);
    var rest := SyncActions(history, have, want, actions[1..], cap, done.fetched, done.pass);
    SyncActionsTrue(history, stored, have, want, actions[1..], cap, done.fetched, done.pass);
    SyncActionsGrows(history, have, want, actions[1..], cap, done.fetched, done.pass);
    if !done.truncated {
      var stored1 := Upserted(stored, done.pass.log);
      StoreGrows(stored, done.pass.log);
      CoverTrueGrows(history, stored, stored1, have);
      LastBlockReaches(stored1, line, want, have.Of(action));
      UpsertedGrows(stored, done.pass.log, rest.pass.log);
      assert Holds(Upserted(stored, rest.pass.log), line, want.lo, want.hi);
    }
  }

  lemma StoreGrows(stored: set<Identity>, log: seq<Transfer>)
    ensures stored <= Upserted(stored, log)
  {
  }

  lemma {:induction false} SyncActionsGrows(
      history: History, have: Covered, want: C.Span, actions: seq<Action>, cap: nat, fetched: nat, pass: Pass)
    requires ValidHistory(history) && |pass.saved| > 0
    ensures var progress := SyncActions(history, have, want, actions, cap, fetched, pass);
      && pass.log <= progress.pass.log
      && (pass.limited ==> progress.pass.limited)
      && (progress.error.None? && progress.pass.limited && !pass.limited ==> progress.truncated)
    decreases |actions|
  {
    if actions != [] && fetched < cap {
      var line, spans := history.Of(actions[0]), C.CoverageIntervals(want, have.Of(actions[0]));
      var done := SyncIntervals(line, spans, cap, fetched, pass);
      SyncIntervalsGrows(line, spans, cap, fetched, pass);
      if done.error.None? {
        SyncActionsGrows(history, have, want, actions[1..], cap, done.fetched, done.pass);
        PrefixTransitive(pass.log, done.pass.log,
            SyncActions(history, have, want, actions[1..], cap, done.fetched, done.pass).pass.log);
      }
    }
  }

  // ---------- the address document ----------

  datatype Address = Address(synced: bool, have: Covered, stored: set<Identity>)

  function Merge(want: C.Span, have: Covered): Covered {
    Covered(C.MergeCoverage(want, have.normal), C.MergeCoverage(want, have.internal), C.MergeCoverage(want, have.token))
  }

  lemma MergeTrue(history: History, stored: set<Identity>, want: C.Span, have: Covered)
    requires want.lo <= want.hi && CoverTrue(history, stored, have)
    requires forall action :: Holds(stored, history.Of(action), want.lo, want.hi)
    ensures CoverTrue(history, stored, Merge(want, have))
  {
    var merged := Merge(want, have);
    forall action | C.ValidCoverage(merged.Of(action))
      ensures Holds(stored, history.Of(action), merged.Of(action).lo, merged.Of(action).hi)
    {
      C.MergeIsUnion(want, have.Of(action));
      forall c | c in history.Of(action).cells && merged.Of(action).lo <= c.block <= merged.Of(action).hi &&
          c.transfer.Some?
        ensures IdentityOf(c.transfer.value) in stored
      {
        assert C.Covers(merged.Of(action), c.block);
        assert Holds(stored, history.Of(action), want.lo, want.hi);
      }
    }
  }

  /** The stored coverage always has a range common to the three actions: saving it never fails. */
  lemma MergeHasCommonRange(want: C.Span, have: Covered)
    requires want.lo <= want.hi
    ensures var merged := Merge(want, have);
      C.Max(merged.normal.lo, C.Max(merged.internal.lo, merged.token.lo)) <= want.lo <= want.hi
        <= C.Min(merged.normal.hi, C.Min(merged.internal.hi, merged.token.hi))
  {
  }

  lemma AllActions(action: Action)
    ensures action in ACTIONS
  {
    assert ACTIONS[0] == Normal && ACTIONS[1] == Internal && ACTIONS[2] == Token;
    match action
    case Normal =>
    case Internal =>
    case Token =>
  }

  function SyncPass(
      history: History, have: Covered, want: C.Span, cap: nat, checkpoints: Checkpoints,
          calls: nat): (progress: Progress)
    requires ValidHistory(history)
    ensures |progress.pass.saved| > 0
  {
    SyncActions(history, have, want, ACTIONS, cap, 0, Pass([], [checkpoints], calls, false))
  }

  /** All three histories keep track of cuts. */
  ghost predicate HistoryKeepsTrack(history: History) {
    forall action :: KeepsTrack(history.Of(action))
  }

  /** A pass from true checkpoints.  Whatever failed or was cut short, coverage is claimed only for
      stored blocks; and every checkpoint map it saved is true, unless a record limit cut a listing of
      a history that does not keep track. */
  lemma SyncPassTrue(
      history: History, stored: set<Identity>, have: Covered, want: C.Span, cap: nat,
      checkpoints: Checkpoints, calls: nat)
    requires ValidHistory(history) && want.lo <= want.hi
    requires CoverTrue(history, stored, have) && MapTrue(history, stored, want.lo, checkpoints)
    ensures
      var progress := SyncPass(history, have, want, cap, checkpoints, calls);
      && (HistoryKeepsTrack(history) || !progress.pass.limited ==> SavedTrue(history, stored, want.lo, progress.pass))
      && (progress.error.None? && !progress.truncated ==>
          !progress.pass.limited && CoverTrue(history, Upserted(stored, progress.pass.log), Merge(want, have)))
  {
    var pass := Pass([], [checkpoints], calls, false);
    var progress := SyncPass(history, have, want, cap, checkpoints, calls);
    SyncActionsGrows(history, have, want, ACTIONS, cap, 0, pass);
    assert Upserted(stored, []) == stored;
    if HistoryKeepsTrack(history) || !progress.pass.limited {
      SyncActionsTrue(history, stored, have, want, ACTIONS, cap, 0, pass);
      if progress.error.None? && !progress.truncated {
        var stored' := Upserted(stored, progress.pass.log);
        StoreGrows(stored, progress.pass.log);
        CoverTrueGrows(history, stored, stored', have);
        forall action
          ensures Holds(stored', history.Of(action), want.lo, want.hi)
        {
          AllActions(action);
        }
        MergeTrue(history, stored', want, have);
      }
    }
  }
}
