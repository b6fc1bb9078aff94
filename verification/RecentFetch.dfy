/** Fetching a block range newest first, up to a number of transfers
    (internal/syncer/manager.go, fetchRecentRange). */
module RecentFetch {
  import opened Normalize
  import opened Wrappers
  import opened Timeline
  import opened RangeFetch

  datatype Recent = Recent(pass: Pass, written: nat, truncated: bool, error: Option<Error>)

  function PersistRecent(pass: Pass, transfers: seq<Transfer>, truncated: bool): Recent {
    var outcome := Persist(pass, transfers, 0);
    Recent(outcome.pass, outcome.written, truncated, outcome.error)
  }

  function Take(transfers: seq<Transfer>, limit: nat): seq<Transfer> {
    if |transfers| > limit then transfers[..limit] else transfers
  }

  function FetchRecent(line: Line, start: nat, end: nat, limit: int, pass: Pass): (recent: Recent)
    requires Valid(line) && line.descending && |pass.saved| > 0
    ensures |recent.pass.saved| > 0
    decreases end - start
  {
    if limit <= 0 || end < start then Recent(pass, 0, false, None)
    else
      ListRangeSound(line, start, end, limit, pass.calls);
      var (listing, calls) := ListRange(line, start, end, limit, pass.calls);
      var listed := pass.(calls := calls);
      match listing
      case Failed(error) => Recent(listed, 0, false, Some(error))
      case RecordLimit(transfers) => PersistRecent(listed, transfers, true)
      case Complete(transfers) =>
        var recent := PersistRecent(listed, Take(transfers, limit), |transfers| > limit);
        if recent.error.Some? then recent else recent.(pass := Save(recent.pass, line.action, start - 1))
      case PageLimit(transfers, boundary) =>
        if boundary <= start || boundary >= end then PersistRecent(listed, Take(transfers, limit), true)
        else
          var complete := KeepBefore(true, transfers, boundary);
          if |complete| >= limit then PersistRecent(listed, complete[..limit], true)
          else
            var recent := PersistRecent(listed, complete, false);
            if recent.error.Some? then recent.(written := 0)
            else
              var rest := FetchRecent(line, start, boundary, limit - |complete|,
                  Save(recent.pass, line.action, boundary));
              rest.(written := recent.written + rest.written)
  }

  // ---------- adjacent ranges, newest first ----------

  lemma RecentSplit(line: Line, start: nat, boundary: nat, end: nat)
    requires Valid(line) && line.descending && start <= boundary < end
    ensures RangeTransfers(line, boundary + 1, end) + RangeTransfers(line, start, boundary) ==
      RangeTransfers(line, start, end)
    ensures First(line, start, end) == First(line, boundary + 1, end) <= Last(line, boundary + 1, end)
         == First(line, start, boundary) <= Last(line, start, boundary) == Last(line, start, end)
  {
    CellsInRange(line, start, boundary);
    CellsInRange(line, boundary + 1, end);
    TransfersSplit(line, First(line, start, end), Last(line, boundary + 1, end), Last(line, start, end));
  }

  /** Cut before its last block, the window holds exactly the newer blocks. */
  lemma WindowHoldsNewerBlocks(line: Line, start: nat, end: nat, boundary: nat)
    requires Valid(line) && line.descending && start <= boundary < end && FullWindow(line, start, end, boundary)
    ensures KeepBefore(true, Transfers(line, First(line, start, end), First(line, start, end) + Window(line)), boundary)
         == RangeTransfers(line, boundary + 1, end)
  {
    var first := First(line, start, end);
    var stop := first + Window(line);
    CellsInRange(line, start, end);
    CellsInRange(line, start, boundary);
    RecentSplit(line, start, boundary, end);
    var cut := First(line, start, boundary);
    assert line.cells[stop - 1].block == boundary;
    assert cut <= stop - 1;
    KeepBeforeCut(line, first, cut, stop, boundary);
  }

  // ---------- what the fetch achieves ----------

  /** The log grew by a prefix of the newest-first history, at most `limit` long; without an error
      its length is what was reported, and when nothing was truncated it is the whole range.  No room or an
      inverted range is no error and nothing cut, and no request is spent on it. */
  ghost predicate NewestFirst(line: Line, start: nat, end: nat, limit: int, pass: Pass, recent: Recent) {
    var wanted := if start <= end then RangeTransfers(line, start, end) else [];
    && pass.log <= recent.pass.log && recent.pass.log <= pass.log + wanted
    && |recent.pass.log| - |pass.log| <= (if limit > 0 then limit else 0)
    && (recent.error.None? ==> recent.written == |recent.pass.log| - |pass.log|)
    && (recent.error.None? && !recent.truncated && limit > 0 ==> recent.pass.log == pass.log + wanted)
    && (recent.error == Some(Interrupted) ==> recent.pass.calls == 0)
    && recent.error != Some(PageLimitExceeded)
    && (limit <= 0 || end < start ==> recent.error.None? && !recent.truncated && recent.pass == pass)
  }

  lemma PersistRecentSound(
      line: Line, start: nat, end: nat, limit: nat, pass: Pass, listed: Pass, part: seq<Transfer>, truncated: bool)
    requires limit > 0 && start <= end && listed.log == pass.log && |part| <= limit &&
      part <= RangeTransfers(line, start, end)
    requires truncated || part == RangeTransfers(line, start, end)
    ensures NewestFirst(line, start, end, limit, pass, PersistRecent(listed, part, truncated))
  {
    PersistSound(listed, part, 0);
    assert part[0..] == part;
    assert pass.log + part <= pass.log + RangeTransfers(line, start, end);
    PrefixTransitive(PersistRecent(listed, part, truncated).pass.log, pass.log + part,
        pass.log + RangeTransfers(line, start, end));
  }

  lemma RecentCompose(
      line: Line, start: nat, boundary: nat, end: nat, limit: nat, pass: Pass, newer: Recent, rest: Recent)
    requires Valid(line) && line.descending && start <= boundary < end
    requires newer.error.None? && newer.pass.log == pass.log + RangeTransfers(line, boundary + 1, end)
    requires newer.written == |RangeTransfers(line, boundary + 1, end)| < limit
    requires NewestFirst(line, start, boundary, limit - newer.written, newer.pass, rest)
    ensures NewestFirst(line, start, end, limit, pass, rest.(written := newer.written + rest.written))
  {
    RecentSplit(line, start, boundary, end);
    LogsCompose(pass.log, RangeTransfers(line, boundary + 1, end), RangeTransfers(line, start, boundary),
        newer.pass.log, rest.pass.log);
  }

  /** Every outcome of a newest-first fetch. */
  lemma {:induction false} FetchRecentSound(line: Line, start: nat, end: nat, limit: int, pass: Pass)
    requires Valid(line) && line.descending && |pass.saved| > 0
    ensures NewestFirst(line, start, end, limit, pass, FetchRecent(line, start, end, limit, pass))
    decreases end - start
  {
    if limit > 0 && start <= end {
      ListRangeSound(line, start, end, limit, pass.calls);
      CellsInRange(line, start, end);
      var (listing, calls) := ListRange(line, start, end, limit, pass.calls);
      var listed := pass.(calls := calls);
      match listing
      case Failed(error) =>
      case RecordLimit(transfers) =>
        PersistRecentSound(line, start, end, limit, pass, listed, transfers, true);
      case Complete(transfers) =>
        PersistRecentSound(line, start, end, limit, pass, listed, Take(transfers, limit), |transfers| > limit);
      case PageLimit(transfers, boundary) =>
        TransfersSplit(line, First(line, start, end), First(line, start, end) + Window(line), Last(line, start, end));
        if boundary <= start || boundary >= end {
          PersistRecentSound(line, start, end, limit, pass, listed, Take(transfers, limit), true);
        } else {
          PageLimitRecent(line, start, end, limit, pass, listed, boundary);
        }
    }
  }

  /** What a cut window leads to. */
  lemma PageLimitStep(line: Line, start: nat, end: nat, limit: nat, pass: Pass, listed: Pass, boundary: nat)
    requires Valid(line) && line.descending && |pass.saved| > 0 && limit > 0 && start < boundary < end
    requires FullWindow(line, start, end, boundary)
    requires listed == pass.(calls := listed.calls)
    requires ListRange(line, start, end, limit, pass.calls)
          == (PageLimit(Transfers(line, First(line, start, end), First(line, start, end) + Window(line)), boundary),
              listed.calls)
    ensures
      var complete := RangeTransfers(line, boundary + 1, end);
      var recent := PersistRecent(listed, complete, false);
      FetchRecent(line, start, end, limit, pass) ==
        if |complete| >= limit then PersistRecent(listed, complete[..limit], true)
        else if recent.error.Some? then recent.(written := 0)
        else
          var rest := FetchRecent(line, start, boundary, limit - |complete|, Save(recent.pass, line.action, boundary));
          rest.(written := recent.written + rest.written)
  {
    WindowHoldsNewerBlocks(line, start, end, boundary);
    hide Transfers, KeepBefore, Persist, FullWindow, RangeTransfers;
  }

  lemma {:induction false} PageLimitRecent(
      line: Line, start: nat, end: nat, limit: nat, pass: Pass, listed: Pass, boundary: nat)
    requires Valid(line) && line.descending && |pass.saved| > 0 && limit > 0 && start < boundary < end
    requires FullWindow(line, start, end, boundary)
    requires listed == pass.(calls := listed.calls)
    requires ListRange(line, start, end, limit, pass.calls)
          == (PageLimit(Transfers(line, First(line, start, end), First(line, start, end) + Window(line)), boundary),
              listed.calls)
    ensures NewestFirst(line, start, end, limit, pass, FetchRecent(line, start, end, limit, pass))
    decreases end - start, 0
  {
    hide FetchRecent, RangeTransfers, Transfers, FullWindow, ListRange;
    PageLimitStep(line, start, end, limit, pass, listed, boundary);
    RecentSplit(line, start, boundary, end);
    var complete := RangeTransfers(line, boundary + 1, end);
    if |complete| >= limit {
      PersistRecentSound(line, start, end, limit, pass, listed, complete[..limit], true);
    } else {
      PersistSound(listed, complete, 0);
      assert complete[0..] == complete;
      var recent := PersistRecent(listed, complete, false);
      if recent.error.Some? {
        PrefixTransitive(recent.pass.log, pass.log + complete, pass.log + RangeTransfers(line, start, end));
      } else {
        var saved := recent.(pass := Save(recent.pass, line.action, boundary));
        FetchRecentSound(line, start, boundary, limit - |complete|, saved.pass);
        RecentCompose(line, start, boundary, end, limit, pass, saved,
                      FetchRecent(line, start, boundary, limit - |complete|, saved.pass));
      }
    }
  }

  // ---------- what is cut and what is saved ----------

  /** A full window ends in the first block of the range, or does not leave its last. */
  ghost predicate CutInBlock(line: Line, start: nat, end: nat) {
    exists boundary: nat :: FullWindow(line, start, end, boundary) && (boundary <= start || boundary >= end)
  }

  /** Some stretch that begins with the range is. */
  ghost predicate CutSomewhere(line: Line, start: nat, end: nat) {
    exists hi: nat :: start <= hi <= end && CutInBlock(line, start, hi)
  }

  /** A save for this action that vouches for the blocks above a checkpoint, which are logged. */
  ghost predicate SavedNewest(
      line: Line, start: nat, end: nat, pass: Pass, log: seq<Transfer>, checkpoints: Checkpoints)
    requires |pass.saved| > 0
  {
    exists c: nat {:trigger RangeTransfers(line, c, end)} ::
      && start <= c <= end && checkpoints == Current(pass)[line.action := c - 1]
      && pass.log + RangeTransfers(line, c, end) <= log
  }

  /** What a fetch of a non-empty range under a positive limit reports without an error: that nothing is cut
      only if the range holds fewer transfers than the limit, and then its last save is the block before the
      range; that it is cut only if it holds as many, or some window of it is cut inside a block.  Whatever
      happens, a save vouches for logged blocks only. */
  ghost predicate CutsAndSaves(line: Line, start: nat, end: nat, limit: nat, pass: Pass, recent: Recent)
    requires |pass.saved| > 0 && start <= end
  {
    && (recent.error.None? && !recent.truncated ==>
          |RangeTransfers(line, start, end)| < limit && |recent.pass.saved| > 0
          && Current(recent.pass) == Current(pass)[line.action := start - 1])
    && (recent.error.None? && recent.truncated ==>
          |RangeTransfers(line, start, end)| >= limit || CutSomewhere(line, start, end))
    && pass.saved <= recent.pass.saved
    && forall k :: |pass.saved| <= k < |recent.pass.saved| ==>
         SavedNewest(line, start, end, pass, recent.pass.log, recent.pass.saved[k])
  }

  /** Nothing is saved when the outcome of a listing is only persisted. */
  lemma PersistCuts(
      line: Line, start: nat, end: nat, limit: nat, pass: Pass, listed: Pass, part: seq<Transfer>, truncated: bool)
    requires |pass.saved| > 0 && start <= end && listed.saved == pass.saved && truncated
    requires |RangeTransfers(line, start, end)| >= limit || CutSomewhere(line, start, end)
    ensures CutsAndSaves(line, start, end, limit, pass, PersistRecent(listed, part, truncated))
  {
  }

  /** A whole listing. */
  lemma CompleteCuts(line: Line, start: nat, end: nat, limit: nat, pass: Pass, listed: Pass)
    requires |pass.saved| > 0 && start <= end && listed == pass.(calls := listed.calls)
    requires |RangeTransfers(line, start, end)| < limit
    ensures
      var recent := PersistRecent(listed, RangeTransfers(line, start, end), false);
      && CutsAndSaves(line, start, end, limit, pass, if recent.error.Some? then recent
           else recent.(pass := Save(recent.pass, line.action, start - 1)))
  {
    var wanted := RangeTransfers(line, start, end);
    PersistSound(listed, wanted, 0);
    assert wanted[0..] == wanted;
    var recent := PersistRecent(listed, wanted, false);
    if recent.error.None? {
      var saved := Save(recent.pass, line.action, start - 1);
      assert SavedNewest(line, start, end, pass, saved.log, saved.saved[|pass.saved|]) by {
        assert pass.log + RangeTransfers(line, start, end) <= saved.log;
      }
    }
  }

  lemma CutInTail(line: Line, start: nat, boundary: nat, end: nat)
    requires boundary <= end && CutSomewhere(line, start, boundary)
    ensures CutSomewhere(line, start, end)
  {
  }

  /** What the older blocks save is backed from the newest block on. */
  lemma SavedBehind(
      line: Line, start: nat, boundary: nat, end: nat, pass: Pass, newer: Pass, log: seq<Transfer>,
      checkpoints: Checkpoints)
    requires Valid(line) && line.descending && |pass.saved| > 0 && start <= boundary < end
    requires newer.log == pass.log + RangeTransfers(line, boundary + 1, end)
    requires |newer.saved| > 0 && Current(newer) == Current(pass)[line.action := boundary]
    requires SavedNewest(line, start, boundary, newer, log, checkpoints)
    ensures SavedNewest(line, start, end, pass, log, checkpoints)
  {
    hide RangeTransfers;
    var c: nat :| start <= c <= boundary && checkpoints == Current(newer)[line.action := c - 1]
                  && newer.log + RangeTransfers(line, c, boundary) <= log;
    RecentSplit(line, c, boundary, end);
    assert newer.log + RangeTransfers(line, c, boundary) == pass.log + RangeTransfers(line, c, end);
    assert checkpoints == Current(pass)[line.action := c - 1];
  }

  /** The newer blocks were logged and saved; the older ones follow. */
  lemma CutsCompose(line: Line, start: nat, boundary: nat, end: nat, limit: nat, pass: Pass, newer: Pass, rest: Recent)
    requires Valid(line) && line.descending && |pass.saved| > 0 && start <= boundary < end
    requires newer.log == pass.log + RangeTransfers(line, boundary + 1, end)
    requires newer.saved == pass.saved + [Current(pass)[line.action := boundary]]
    requires |RangeTransfers(line, boundary + 1, end)| < limit && newer.log <= rest.pass.log
    requires CutsAndSaves(line, start, boundary, limit - |RangeTransfers(line, boundary + 1, end)|, newer, rest)
    ensures CutsAndSaves(line, start, end, limit, pass, rest)
  {
    RecentSplit(line, start, boundary, end);
    hide RangeTransfers, CutSomewhere, SavedNewest;
    if CutSomewhere(line, start, boundary) {
      CutInTail(line, start, boundary, end);
    }
    SavesCompose(line, start, boundary, end, pass, newer, rest.pass);
    assert Current(newer)[line.action := start - 1] == Current(pass)[line.action := start - 1];
  }

  lemma SavesCompose(
      line: Line, start: nat, boundary: nat, end: nat, pass: Pass, newer: Pass, last: Pass)
    requires Valid(line) && line.descending && |pass.saved| > 0 && start <= boundary < end
    requires newer.log == pass.log + RangeTransfers(line, boundary + 1, end) && newer.log <= last.log
    requires newer.saved == pass.saved + [Current(pass)[line.action := boundary]] && newer.saved <= last.saved
    requires forall k :: |newer.saved| <= k < |last.saved| ==>
      SavedNewest(line, start, boundary, newer, last.log, last.saved[k])
    ensures pass.saved <= last.saved
    ensures forall k :: |pass.saved| <= k < |last.saved| ==>
      SavedNewest(line, start, end, pass, last.log, last.saved[k])
  {
    hide RangeTransfers, SavedNewest;
    assert last.saved[|pass.saved|] == newer.saved[|pass.saved|];
    BoundarySaved(line, start, boundary, end, pass, newer, last.log);
    forall k | |newer.saved| <= k < |last.saved|
      ensures SavedNewest(line, start, end, pass, last.log, last.saved[k])
    {
      SavedBehind(line, start, boundary, end, pass, newer, last.log, last.saved[k]);
    }
  }

  lemma BoundarySaved(
      line: Line, start: nat, boundary: nat, end: nat, pass: Pass, newer: Pass, log: seq<Transfer>)
    requires |pass.saved| > 0 && start <= boundary < end
    requires newer.log == pass.log + RangeTransfers(line, boundary + 1, end) && newer.log <= log
    ensures SavedNewest(line, start, end, pass, log, Current(pass)[line.action := boundary])
  {
    assert pass.log + RangeTransfers(line, boundary + 1, end) <= log;
    assert boundary == (boundary + 1) - 1;
  }

  /** Every fetch reports and saves so. */
  lemma {:induction false} FetchRecentCuts(line: Line, start: nat, end: nat, limit: nat, pass: Pass)
    requires Valid(line) && line.descending && |pass.saved| > 0 && limit > 0 && start <= end
    ensures CutsAndSaves(line, start, end, limit, pass, FetchRecent(line, start, end, limit, pass))
    decreases end - start
  {
    hide CutsAndSaves, Save;
    ListRangeSound(line, start, end, limit, pass.calls);
    ListRangeLimit(line, start, end, limit, pass.calls);
    CellsInRange(line, start, end);
    var (listing, calls) := ListRange(line, start, end, limit, pass.calls);
    var listed := pass.(calls := calls);
    match listing
    case Failed(error) =>
      FailedCuts(line, start, end, limit, pass, listed, error);
    case RecordLimit(transfers) =>
      PersistCuts(line, start, end, limit, pass, listed, transfers, true);
    case Complete(transfers) =>
      CompleteCuts(line, start, end, limit, pass, listed);
    case PageLimit(transfers, boundary) =>
      if boundary <= start || boundary >= end {
        assert FullWindow(line, start, end, boundary);
        assert CutInBlock(line, start, end);
        PersistCuts(line, start, end, limit, pass, listed, Take(transfers, limit), true);
      } else {
        PageLimitCuts(line, start, end, limit, pass, listed, boundary);
      }
  }

  lemma FailedCuts(line: Line, start: nat, end: nat, limit: nat, pass: Pass, listed: Pass, error: Error)
    requires |pass.saved| > 0 && start <= end && listed.saved == pass.saved
    ensures CutsAndSaves(line, start, end, limit, pass, Recent(listed, 0, false, Some(error)))
  {
  }

  lemma {:induction false} PageLimitCuts(
      line: Line, start: nat, end: nat, limit: nat, pass: Pass, listed: Pass, boundary: nat)
    requires Valid(line) && line.descending && |pass.saved| > 0 && limit > 0 && start < boundary < end
    requires FullWindow(line, start, end, boundary)
    requires listed == pass.(calls := listed.calls)
    requires ListRange(line, start, end, limit, pass.calls)
          == (PageLimit(Transfers(line, First(line, start, end), First(line, start, end) + Window(line)), boundary),
              listed.calls)
    ensures CutsAndSaves(line, start, end, limit, pass, FetchRecent(line, start, end, limit, pass))
    decreases end - start, 0
  {
    hide FetchRecent, RangeTransfers, Transfers, FullWindow, ListRange, CutsAndSaves;
    PageLimitStep(line, start, end, limit, pass, listed, boundary);
    RecentSplit(line, start, boundary, end);
    var complete := RangeTransfers(line, boundary + 1, end);
    if |complete| >= limit {
      PersistCuts(line, start, end, limit, pass, listed, complete[..limit], true);
    } else {
      PersistSound(listed, complete, 0);
      assert complete[0..] == complete;
      var recent := PersistRecent(listed, complete, false);
      if recent.error.Some? {
        FailedPersistCuts(line, start, end, limit, pass, recent.(written := 0));
      } else {
        var newer := Save(recent.pass, line.action, boundary);
        FetchRecentCuts(line, start, boundary, limit - |complete|, newer);
        FetchRecentSound(line, start, boundary, limit - |complete|, newer);
        CutsCompose(line, start, boundary, end, limit, pass, newer,
                    FetchRecent(line, start, boundary, limit - |complete|, newer));
        CutsWritten(line, start, end, limit, pass, FetchRecent(line, start, boundary, limit - |complete|, newer),
                    FetchRecent(line, start, end, limit, pass));
      }
    }
  }

  lemma FailedPersistCuts(line: Line, start: nat, end: nat, limit: nat, pass: Pass, recent: Recent)
    requires |pass.saved| > 0 && start <= end && recent.error.Some? && recent.pass.saved == pass.saved
    ensures CutsAndSaves(line, start, end, limit, pass, recent)
  {
  }

  lemma CutsWritten(line: Line, start: nat, end: nat, limit: nat, pass: Pass, rest: Recent, recent: Recent)
    requires |pass.saved| > 0 && start <= end && recent == rest.(written := recent.written)
    requires CutsAndSaves(line, start, end, limit, pass, rest)
    ensures CutsAndSaves(line, start, end, limit, pass, recent)
  {
  }
}
