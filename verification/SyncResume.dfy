/** A pass fetches only what is missing: nothing that is covered, and nothing up to a checkpoint
    (internal/syncer/manager.go, syncAddress and fetchRange). */
module SyncResume {
  import opened Normalize
  import opened Wrappers
  import opened Timeline
  import opened RangeFetch
  import opened SyncRuns
  import C = Coverage

  // ---------- one fetch ----------

  ghost predicate AllIn(line: Line, start: nat, end: nat, transfers: seq<Transfer>) {
    forall t :: t in transfers ==> start <= t.block <= end && t.source == line.action
  }

  /** The log grew by transfers of the range, and at most the checkpoint of the action moved, into the range. */
  ghost predicate Inside(line: Line, start: nat, end: nat, pass: Pass, after: Pass) {
    && |pass.saved| > 0 && |after.saved| > 0
    && pass.log <= after.log && AllIn(line, start, end, after.log[|pass.log|..])
    && (Current(after) == Current(pass) || exists c: nat :: start <= c <= end && MovedTo(pass, after, line.action, c))
  }

  ghost predicate MovedTo(pass: Pass, after: Pass, action: Action, c: nat)
    requires |pass.saved| > 0 && |after.saved| > 0
  {
    Current(after) == Current(pass)[action := c]
  }

  lemma {:induction false} RangeIsIn(line: Line, start: nat, end: nat, i: nat, j: nat)
    requires Valid(line) && start <= end && First(line, start, end) <= i <= j <= Last(line, start, end)
    ensures AllIn(line, start, end, Transfers(line, i, j))
    decreases j - i
  {
    if i < j {
      CellsInRange(line, start, end);
      assert line.cells[i] in line.cells;
      RangeIsIn(line, start, end, i + 1, j);
    }
  }

  lemma {:induction false} KeptIsIn(line: Line, start: nat, end: nat, transfers: seq<Transfer>, block: nat)
    requires AllIn(line, start, end, transfers)
    ensures AllIn(line, start, end, KeepBefore(false, transfers, block))
  {
    if transfers != [] {
      assert transfers[0] in transfers;
      KeptIsIn(line, start, end, transfers[1..], block);
    }
  }

  lemma PersistInside(line: Line, start: nat, end: nat, pass: Pass, listed: Pass, transfers: seq<Transfer>)
    requires |pass.saved| > 0 && listed.saved == pass.saved && listed.log == pass.log
    requires AllIn(line, start, end, transfers)
    ensures Inside(line, start, end, pass, Persist(listed, transfers, 0).pass)
  {
    PersistSound(listed, transfers, 0);
    var log := Persist(listed, transfers, 0).pass.log;
    assert transfers[0..] == transfers;
    forall t | t in log[|pass.log|..]
      ensures t in transfers
    {
      var i :| |pass.log| <= i < |log| && log[i] == t;
      assert log[i] == (pass.log + transfers)[i];
    }
  }

  lemma SaveInside(line: Line, start: nat, end: nat, pass: Pass, kept: Pass, c: nat)
    requires Inside(line, start, end, pass, kept) && start <= c <= end
    ensures Inside(line, start, end, pass, Save(kept, line.action, c))
  {
    assert Current(kept)[line.action := c] == Current(pass)[line.action := c];
    assert MovedTo(pass, Save(kept, line.action, c), line.action, c);
  }

  lemma CheckpointsCompose(pass: Pass, middle: Pass, after: Pass, action: Action, c: nat)
    requires |pass.saved| > 0 && |middle.saved| > 0 && |after.saved| > 0 && MovedTo(middle, after, action, c)
    requires Current(middle) == Current(pass) || exists b: nat :: MovedTo(pass, middle, action, b)
    ensures MovedTo(pass, after, action, c)
  {
  }

  lemma InsideCompose(line: Line, start: nat, end: nat, a: nat, z: nat, pass: Pass, middle: Pass, after: Pass)
    requires Inside(line, start, end, pass, middle) && Inside(line, a, z, middle, after) && start <= a && z <= end
    ensures Inside(line, start, end, pass, after)
  {
    forall t | t in after.log[|pass.log|..]
      ensures start <= t.block <= end && t.source == line.action
    {
      var i :| |pass.log| <= i < |after.log| && after.log[i] == t;
      if i < |middle.log| {
        assert middle.log[i] in middle.log[|pass.log|..];
      } else {
        assert after.log[i] in after.log[|middle.log|..];
      }
    }
    if Current(after) != Current(middle) {
      var c: nat :| a <= c <= z && MovedTo(middle, after, line.action, c);
      CheckpointsCompose(pass, middle, after, line.action, c);
    } else if Current(middle) != Current(pass) {
      var c: nat :| start <= c <= end && MovedTo(pass, middle, line.action, c);
      assert MovedTo(pass, after, line.action, c);
    }
  }

  lemma NothingInside(line: Line, start: nat, end: nat, pass: Pass, after: Pass)
    requires |pass.saved| > 0 && after.log == pass.log && after.saved == pass.saved
    ensures Inside(line, start, end, pass, after)
  {
  }

  /** A fetch logs transfers of its range only, and moves at most its action's checkpoint, into the range. */
  lemma {:induction false} FetchInside(line: Line, start: nat, end: nat, limit: nat, pass: Pass)
    requires Valid(line) && !line.descending && start <= end && |pass.saved| > 0
    ensures Inside(line, start, end, pass, FetchRange(line, start, end, limit, pass).pass)
    decreases end - start, 1
  {
    hide Inside, AllIn, Save, Persist, KeepBefore;
    ListRangeSound(line, start, end, limit, pass.calls);
    ListRangeLimit(line, start, end, limit, pass.calls);
    CellsInRange(line, start, end);
    var (listing, calls) := ListRange(line, start, end, limit, pass.calls);
    var listed := pass.(calls := calls);
    var first, last := First(line, start, end), Last(line, start, end);
    NothingInside(line, start, end, pass, listed);
    match listing
    case Failed(error) =>
    case RecordLimit(transfers) =>
      RangeIsIn(line, start, end, first, Min(first + Window(line), last));
      PrefixIn(line, start, end, transfers, Transfers(line, first, Min(first + Window(line), last)));
      PersistInside(line, start, end, pass, listed.(limited := true), transfers);
    case Complete(transfers) =>
      var cut := limit > 0 && |transfers| > limit;
      RangeIsIn(line, start, end, first, last);
      PersistInside(line, start, end, pass, listed.(limited := pass.limited || cut), transfers);
      var kept := Persist(listed.(limited := pass.limited || cut), transfers, 0);
      SaveInside(line, start, end, pass, kept.pass, end);
    case PageLimit(transfers, lastBlock) =>
      RangeIsIn(line, start, end, first, first + Window(line));
      KeptIsIn(line, start, end, transfers, lastBlock);
      PersistInside(line, start, end, pass, listed, KeepBefore(false, transfers, lastBlock));
      var kept := Persist(listed, KeepBefore(false, transfers, lastBlock), 0);
      if start == end {
      } else if transfers == [] {
        HalvesInside(line, start, end, limit, pass, listed);
      } else if kept.error.None? && lastBlock == start {
        BlockInside(line, start, end, limit, pass, kept);
      } else if kept.error.None? {
        RestInside(line, start, end, limit, pass, kept, lastBlock);
      }
  }

  lemma PrefixIn(line: Line, start: nat, end: nat, part: seq<Transfer>, whole: seq<Transfer>)
    requires part <= whole && AllIn(line, start, end, whole)
    ensures AllIn(line, start, end, part)
  {
    forall t | t in part
      ensures t in whole
    {
      var i :| 0 <= i < |part| && part[i] == t;
      assert whole[i] == t;
    }
  }

  lemma {:induction false} HalvesInside(line: Line, start: nat, end: nat, limit: nat, pass: Pass, listed: Pass)
    requires Valid(line) && !line.descending && start < end && Inside(line, start, end, pass, listed)
    ensures |listed.saved| > 0 && Inside(line, start, end, pass, FetchHalves(line, start, end, limit, listed).pass)
    decreases end - start, 0
  {
    assert |listed.saved| > 0;
    hide FetchRange, Inside;
    var middle := start + (end - start) / 2;
    assert start <= middle < end;
    FetchInside(line, start, middle, limit, listed);
    var left := FetchRange(line, start, middle, limit, listed);
    InsideCompose(line, start, end, start, middle, pass, listed, left.pass);
    if left.error.None? {
      FetchInside(line, middle + 1, end, limit, left.pass);
      InsideCompose(line, start, end, middle + 1, end, pass, left.pass,
                    FetchRange(line, middle + 1, end, limit, left.pass).pass);
    }
  }

  lemma {:induction false} RestInside(
      line: Line, start: nat, end: nat, limit: nat, pass: Pass, kept: Outcome, lastBlock: nat)
    requires Valid(line) && !line.descending && start < lastBlock <= end
    requires Inside(line, start, end, pass, kept.pass)
    ensures |kept.pass.saved| > 0
    ensures Inside(line, start, end, pass, FetchAfter(line, start, end, limit, kept, lastBlock).pass)
    decreases end - start, 0
  {
    assert |kept.pass.saved| > 0;
    hide FetchRange, Inside, Save;
    var saved := Save(kept.pass, line.action, lastBlock - 1);
    SaveInside(line, start, end, pass, kept.pass, lastBlock - 1);
    SavedSome(kept.pass, line.action, lastBlock - 1);
    FetchInside(line, lastBlock, end, limit, saved);
    InsideCompose(line, start, end, lastBlock, end, pass, saved, FetchRange(line, lastBlock, end, limit, saved).pass);
  }

  lemma {:induction false} BlockInside(line: Line, start: nat, end: nat, limit: nat, pass: Pass, kept: Outcome)
    requires Valid(line) && !line.descending && start < end && Inside(line, start, end, pass, kept.pass)
    ensures |kept.pass.saved| > 0 && Inside(line, start, end, pass, FetchBlock(line, start, end, limit, kept).pass)
    decreases end - start, 0
  {
    assert |kept.pass.saved| > 0;
    hide FetchRange, Inside;
    FetchInside(line, start, start, limit, kept.pass);
    var block := FetchRange(line, start, start, limit, kept.pass);
    InsideCompose(line, start, end, start, start, pass, kept.pass, block.pass);
    if block.error.None? {
      FetchInside(line, start + 1, end, limit, block.pass);
      InsideCompose(line, start, end, start + 1, end, pass, block.pass,
                    FetchRange(line, start + 1, end, limit, block.pass).pass);
    }
  }

  lemma SavedSome(pass: Pass, action: Action, c: int)
    requires |pass.saved| > 0
    ensures |Save(pass, action, c).saved| > 0
  {
  }

  // ---------- one action ----------

  /** What the gaps still lack: blocks of a gap behind the checkpoint, if there is one. */
  ghost predicate Lacks(spans: seq<C.Span>, checkpoints: Checkpoints, action: Action, block: nat) {
    C.Fetched(spans, block) && (action in checkpoints ==> block > checkpoints[action])
  }

  /** The log grew by transfers that were lacking, and checkpoints of other actions stayed. */
  ghost predicate Fills(line: Line, spans: seq<C.Span>, pass: Pass, after: Pass) {
    && |pass.saved| > 0 && |after.saved| > 0 && pass.log <= after.log
    && (forall i :: |pass.log| <= i < |after.log| ==>
          after.log[i].source == line.action && Lacks(spans, Current(pass), line.action, after.log[i].block))
    && forall action :: action != line.action ==>
         (action in Current(after) <==> action in Current(pass))
         && (action in Current(pass) ==> Current(after)[action] == Current(pass)[action])
  }

  /** Gaps come in order. */
  ghost predicate InOrder(spans: seq<C.Span>) {
    forall i, j :: 0 <= i < j < |spans| ==> spans[i].hi < spans[j].lo
  }

  lemma FetchedLater(spans: seq<C.Span>, block: nat)
    requires spans != [] && C.Fetched(spans[1..], block) && InOrder(spans)
    ensures C.Fetched(spans, block) && block > spans[0].hi
  {
    var i :| 0 <= i < |spans[1..]| && C.Within(spans[1..][i], block);
    assert C.Within(spans[i + 1], block);
  }

  /** A fetch of the rest of the first gap fills that gap. */
  lemma FirstGap(line: Line, spans: seq<C.Span>, pass: Pass, start: nat, after: Pass)
    requires spans != [] && |pass.saved| > 0 && start == ResumeAt(pass, line.action, spans[0].lo) <= spans[0].hi
    requires Inside(line, start, spans[0].hi, pass, after)
    ensures Fills(line, spans, pass, after)
  {
    forall i | |pass.log| <= i < |after.log|
      ensures after.log[i].source == line.action && Lacks(spans, Current(pass), line.action, after.log[i].block)
    {
      assert after.log[i] in after.log[|pass.log|..];
      assert C.Within(spans[0], after.log[i].block);
    }
  }

  /** The later gaps follow. */
  lemma LaterGaps(line: Line, spans: seq<C.Span>, pass: Pass, start: nat, middle: Pass, after: Pass)
    requires spans != [] && InOrder(spans) && |pass.saved| > 0
    requires start == ResumeAt(pass, line.action, spans[0].lo) <= spans[0].hi
    requires Inside(line, start, spans[0].hi, pass, middle) && Fills(line, spans[1..], middle, after)
    ensures Fills(line, spans, pass, after)
  {
    FirstGap(line, spans, pass, start, middle);
    hide C.Fetched;
    forall i | |pass.log| <= i < |after.log|
      ensures after.log[i].source == line.action && Lacks(spans, Current(pass), line.action, after.log[i].block)
    {
      if i < |middle.log| {
        assert after.log[i] == middle.log[i];
      } else {
        FetchedLater(spans, after.log[i].block);
      }
    }
  }

  lemma SkippedGap(line: Line, spans: seq<C.Span>, pass: Pass, after: Pass)
    requires spans != [] && InOrder(spans) && Fills(line, spans[1..], pass, after)
    ensures Fills(line, spans, pass, after)
  {
    hide C.Fetched;
    forall i | |pass.log| <= i < |after.log|
      ensures Lacks(spans, Current(pass), line.action, after.log[i].block)
    {
      FetchedLater(spans, after.log[i].block);
    }
  }

  /** The intervals of an action: what is fetched lies in a gap and behind the checkpoint there was. */
  lemma {:induction false} IntervalsFill(line: Line, spans: seq<C.Span>, cap: nat, fetched: nat, pass: Pass)
    requires Valid(line) && !line.descending && |pass.saved| > 0 && InOrder(spans)
    ensures Fills(line, spans, pass, SyncIntervals(line, spans, cap, fetched, pass).pass)
    decreases |spans|
  {
    hide FetchRange, Inside, Lacks;
    if spans != [] && fetched < cap {
      var start := ResumeAt(pass, line.action, spans[0].lo);
      if start > spans[0].hi {
        IntervalsFill(line, spans[1..], cap, fetched, pass);
        SkippedGap(line, spans, pass, SyncIntervals(line, spans[1..], cap, fetched, pass).pass);
      } else {
        FetchInside(line, start, spans[0].hi, cap - fetched, pass);
        var outcome := FetchRange(line, start, spans[0].hi, cap - fetched, pass);
        FirstGap(line, spans, pass, start, outcome.pass);
        if outcome.error.None? {
          IntervalsFill(line, spans[1..], cap, fetched + outcome.written, outcome.pass);
          LaterGaps(line, spans, pass, start, outcome.pass,
                    SyncIntervals(line, spans[1..], cap, fetched + outcome.written, outcome.pass).pass);
        }
      }
    }
  }

  // ---------- a whole pass ----------

  /** The block was missing for its action: not covered, not before the wanted range, and behind its checkpoint. */
  ghost predicate Missing(have: Covered, want: C.Span, checkpoints: Checkpoints, t: Transfer) {
    && !C.Covers(have.Of(t.source), t.block) && want.lo <= t.block
    && (t.source in checkpoints ==> t.block > checkpoints[t.source])
  }

  /** The log grew by what was missing for the actions given; checkpoints of others stayed. */
  ghost predicate FillsAll(have: Covered, want: C.Span, actions: seq<Action>, pass: Pass, after: Pass) {
    && |pass.saved| > 0 && |after.saved| > 0 && pass.log <= after.log
    && (forall i :: |pass.log| <= i < |after.log| ==>
          after.log[i].source in actions && Missing(have, want, Current(pass), after.log[i]))
  }

  lemma GapsInOrder(want: C.Span, have: C.Span)
    requires want.lo <= want.hi
    ensures InOrder(C.CoverageIntervals(want, have))
    ensures forall block: nat :: C.Fetched(C.CoverageIntervals(want, have), block) ==>
      !C.Covers(have, block) && want.lo <= block
  {
    C.IntervalsCover(want, have);
  }

  lemma ActionFills(line: Line, have: Covered, want: C.Span, actions: seq<Action>, pass: Pass, after: Pass)
    requires want.lo <= want.hi && actions != [] && actions[0] == line.action
    requires Fills(line, C.CoverageIntervals(want, have.Of(line.action)), pass, after)
    ensures FillsAll(have, want, actions, pass, after)
  {
    GapsInOrder(want, have.Of(line.action));
  }

  lemma OtherActionsFill(
      line: Line, have: Covered, want: C.Span, actions: seq<Action>, pass: Pass, middle: Pass, after: Pass)
    requires want.lo <= want.hi && actions != [] && actions[0] == line.action && line.action !in actions[1..]
    requires Fills(line, C.CoverageIntervals(want, have.Of(line.action)), pass, middle)
    requires FillsAll(have, want, actions[1..], middle, after)
    ensures FillsAll(have, want, actions, pass, after)
  {
    ActionFills(line, have, want, actions, pass, middle);
    hide C.Covers, Lacks;
    forall i | |pass.log| <= i < |after.log|
      ensures after.log[i].source in actions && Missing(have, want, Current(pass), after.log[i])
    {
      if i < |middle.log| {
        assert after.log[i] == middle.log[i];
      } else {
        assert after.log[i].source in actions[1..];
      }
    }
  }

  lemma {:induction false} ActionsFill(
      history: History, have: Covered, want: C.Span, actions: seq<Action>, cap: nat, fetched: nat, pass: Pass)
    requires ValidHistory(history) && |pass.saved| > 0 && want.lo <= want.hi
    requires forall i, j :: 0 <= i < j < |actions| ==> actions[i] != actions[j]
    ensures FillsAll(have, want, actions, pass, SyncActions(history, have, want, actions, cap, fetched, pass).pass)
    decreases |actions|
  {
    hide Fills, Missing, SyncIntervals;
    if actions != [] && fetched < cap {
      var line := history.Of(actions[0]);
      var spans := C.CoverageIntervals(want, have.Of(actions[0]));
      GapsInOrder(want, have.Of(actions[0]));
      IntervalsFill(line, spans, cap, fetched, pass);
      var done := SyncIntervals(line, spans, cap, fetched, pass);
      ActionFills(line, have, want, actions, pass, done.pass);
      if done.error.None? {
        ActionsFill(history, have, want, actions[1..], cap, done.fetched, done.pass);
        OtherActionsFill(line, have, want, actions, pass, done.pass,
                         SyncActions(history, have, want, actions[1..], cap, done.fetched, done.pass).pass);
      }
    }
  }

  /** A pass logs only transfers of blocks that its action has not covered, that are not before the wanted range,
      and that lie behind the checkpoint the job resumes from. */
  lemma PassFetchesMissing(
      history: History, have: Covered, want: C.Span, cap: nat, checkpoints: Checkpoints, calls: nat)
    requires ValidHistory(history) && want.lo <= want.hi
    ensures forall t :: t in SyncPass(history, have, want, cap, checkpoints, calls).pass.log ==>
      Missing(have, want, checkpoints, t)
  {
    hide Missing, SyncActions;
    var pass := Pass([], [checkpoints], calls, false);
    ActionsFill(history, have, want, ACTIONS, cap, 0, pass);
    var log := SyncPass(history, have, want, cap, checkpoints, calls).pass.log;
    forall t | t in log
      ensures Missing(have, want, checkpoints, t)
    {
      var i :| 0 <= i < |log| && log[i] == t;
    }
  }
}
