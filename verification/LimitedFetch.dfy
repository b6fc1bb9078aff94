/** Fetches that the record limit may cut (internal/syncer/manager.go, fetchRange).

    After a cut nothing more is saved, except where a window without a single transfer made the fetch
    halve its range: there the second half goes on whatever was cut from the first.  Here is what it
    takes for that never to matter. */
module LimitedFetch {
  import opened Normalize
  import opened Wrappers
  import opened Timeline
  import opened RangeFetch

  /** From block s on, a whole window of rows yields no transfer. */
  ghost predicate BlankFrom(line: Line, s: nat) {
    var first := First(line, s, s);
    first + Window(line) <= |line.cells| && Transfers(line, first, first + Window(line)) == []
  }

  /** Two transfers lie, seen from block s, within a factor of two of each other. */
  ghost predicate Crowded(line: Line, s: nat) {
    exists p, q ::
      && 0 <= p < q < |line.cells|
      && CloseFrom(line, s, p, q)
  }

  predicate CloseFrom(line: Line, s: nat, p: nat, q: nat)
    requires p < q < |line.cells|
  {
    && line.cells[p].transfer.Some? && line.cells[q].transfer.Some?
    && line.cells[q].block - s < 2 * (line.cells[p].block - s)
  }

  /** No window without a transfer is followed by two such transfers. */
  ghost predicate KeepsTrack(line: Line) {
    forall s: nat :: BlankFrom(line, s) ==> !Crowded(line, s)
  }

  // ---------- what halves hold ----------

  lemma {:induction false} OneTransfer(line: Line, i: nat, j: nat) returns (p: nat)
    requires i <= j <= |line.cells| && Transfers(line, i, j) != []
    ensures i <= p < j && line.cells[p].transfer.Some? && |Transfers(line, p + 1, j)| == |Transfers(line, i, j)| - 1
    decreases j - i
  {
    if line.cells[i].transfer.Some? {
      p := i;
    } else {
      assert Transfers(line, i, j) == Transfers(line, i + 1, j);
      p := OneTransfer(line, i + 1, j);
    }
  }

  /** The upper half of a range that begins with a blank window holds at most one transfer. */
  lemma HalfHoldsOne(line: Line, start: nat, end: nat)
    requires Valid(line) && !line.descending && start < end && !Crowded(line, start)
    ensures |RangeTransfers(line, start + (end - start) / 2 + 1, end)| <= 1
  {
    var lo := start + (end - start) / 2 + 1;
    CellsInRange(line, lo, end);
    var i, j := First(line, lo, end), Last(line, lo, end);
    if |Transfers(line, i, j)| >= 2 {
      var p := OneTransfer(line, i, j);
      var q := OneTransfer(line, p + 1, j);
      assert CloseFrom(line, start, p, q);
    }
  }

  /** A listing of a range that begins with a blank window sees no transfer. */
  lemma BlankListing(line: Line, start: nat, end: nat, limit: nat, calls: nat)
    requires Valid(line) && !line.descending && start <= end && BlankFrom(line, start)
    ensures First(line, start, end) <= Last(line, start, end)
    ensures
      var listing := ListRange(line, start, end, limit, calls).0;
      !listing.RecordLimit? && (listing.PageLimit? ==> listing.transfers == [])
  {
    ListRangeSound(line, start, end, limit, calls);
    ListRangeLimit(line, start, end, limit, calls);
    CellsInRange(line, start, end);
    var first, window := First(line, start, end), Window(line);
    var seen := Min(first + window, Last(line, start, end));
    assert first == First(line, start, start);
    TransfersSplit(line, first, seen, first + window);
  }

  /** A page limit without transfers is a blank window. */
  lemma EmptyWindowIsBlank(line: Line, start: nat, end: nat, limit: nat, calls: nat)
    requires Valid(line) && !line.descending && start <= end
    ensures First(line, start, end) <= Last(line, start, end)
    ensures
      var listing := ListRange(line, start, end, limit, calls).0;
      listing.PageLimit? ==> (listing.transfers == [] <==> BlankFrom(line, start))
  {
    ListRangeSound(line, start, end, limit, calls);
    CellsInRange(line, start, end);
    assert First(line, start, end) == First(line, start, start);
  }

  /** A block that fills the window alone cannot be fetched. */
  lemma FullBlockFails(line: Line, start: nat, end: nat, limit: nat, calls: nat, pass: Pass)
    requires Valid(line) && !line.descending && start <= end && |pass.saved| > 0
    requires First(line, start, end) <= Last(line, start, end)
    requires
      var listing := ListRange(line, start, end, limit, calls).0;
      listing.PageLimit? && listing.lastBlock == start
    ensures FetchRange(line, start, start, limit, pass).error.Some?
  {
    ListRangeSound(line, start, end, limit, calls);
    ListRangeLimit(line, start, end, limit, calls);
    ListRangeSound(line, start, start, limit, pass.calls);
    ListRangeLimit(line, start, start, limit, pass.calls);
    CellsInRange(line, start, end);
    CellsInRange(line, start, start);
    hide Transfers, KeepBefore, CountBelow, ListFrom, ListRange, Persist, FetchHalves, FetchAfter, FetchBlock;
    var first, window := First(line, start, end), Window(line);
    assert first == First(line, start, start);
    assert line.cells[first + window - 1].block == start;
    assert first + window - 1 < Last(line, start, start);
  }

  // ---------- backed checkpoints, cut or not ----------

  /** The limit leaves room for the range, or the range begins with a blank window. */
  ghost predicate Fits(line: Line, start: nat, end: nat, limit: nat) {
    limit == 0 || |RangeTransfers(line, start, end)| <= limit || BlankFrom(line, start)
  }

  ghost predicate Tracked(line: Line, start: nat, end: nat, limit: nat, pass: Pass, outcome: Outcome)
    requires |pass.saved| > 0
  {
    && Backed(line, start, end, pass, outcome)
    && (outcome.error.None? && Fits(line, start, end, limit) ==> Whole(line, start, end, pass, outcome))
  }

  lemma SoundIsTracked(line: Line, start: nat, end: nat, limit: nat, pass: Pass, outcome: Outcome)
    requires |pass.saved| > 0 && Sound(line, start, end, pass, outcome)
    ensures Tracked(line, start, end, limit, pass, outcome)
  {
  }

  /** A cut listing: some of the range is written and nothing is saved. */
  lemma CutTracked(line: Line, start: nat, end: nat, limit: nat, pass: Pass, listed: Pass, transfers: seq<Transfer>)
    requires Valid(line) && !line.descending && start <= end && |pass.saved| > 0
    requires listed.log == pass.log && listed.saved == pass.saved
    requires transfers <= RangeTransfers(line, start, end) && |transfers| == limit > 0 && !BlankFrom(line, start)
    ensures Tracked(line, start, end, limit, pass, Persist(listed, transfers, 0))
  {
    PersistSound(listed, transfers, 0);
    assert transfers[0..] == transfers;
    var wanted := RangeTransfers(line, start, end);
    assert pass.log + transfers <= pass.log + wanted;
    PrefixTransitive(Persist(listed, transfers, 0).pass.log, pass.log + transfers, pass.log + wanted);
  }

  /** Every fetch of a history that keeps track, cut by the record limit or not, appends a prefix of
      the range's transfers and saves only checkpoints that the log backs. */
  lemma {:induction false} FetchRangeTracked(line: Line, start: nat, end: nat, limit: nat, pass: Pass)
    requires Valid(line) && !line.descending && start <= end && |pass.saved| > 0 && KeepsTrack(line)
    ensures Tracked(line, start, end, limit, pass, FetchRange(line, start, end, limit, pass))
    decreases end - start, 2
  {
    ListRangeSound(line, start, end, limit, pass.calls);
    ListRangeLimit(line, start, end, limit, pass.calls);
    EmptyWindowIsBlank(line, start, end, limit, pass.calls);
    CellsInRange(line, start, end);
    var (listing, calls) := ListRange(line, start, end, limit, pass.calls);
    var listed := pass.(calls := calls);
    hide Sound, Tracked, KeepsTrack, BlankFrom, Transfers, KeepBefore, CountBelow, ListFrom, Persist;
    match listing
    case Failed(error) =>
      NothingSaved(line, start, end, pass, Outcome(listed, 0, Some(error)), []);
      SoundIsTracked(line, start, end, limit, pass, Outcome(listed, 0, Some(error)));
    case RecordLimit(transfers) =>
      if BlankFrom(line, start) {
        BlankListing(line, start, end, limit, pass.calls);
      } else {
        CutTracked(line, start, end, limit, pass, listed.(limited := true), transfers);
      }
    case Complete(transfers) =>
      CompleteSound(line, start, end, pass, listed, transfers);
      SoundIsTracked(line, start, end, limit, pass, FetchRange(line, start, end, limit, pass));
    case PageLimit(transfers, lastBlock) =>
      if start == end {
        WindowHealth(line, start, end, lastBlock);
        NothingSaved(line, start, end, pass, Outcome(listed, 0, Some(PageLimitExceeded)), []);
        SoundIsTracked(line, start, end, limit, pass, Outcome(listed, 0, Some(PageLimitExceeded)));
      } else if transfers == [] {
        FetchHalvesTracked(line, start, end, limit, pass, listed);
      } else {
        WindowTracked(line, start, end, limit, pass, listed, lastBlock);
      }
  }

  lemma {:induction false} FetchHalvesTracked(
      line: Line, start: nat, end: nat, limit: nat, pass: Pass, listed: Pass)
    requires Valid(line) && !line.descending && start < end && |pass.saved| > 0 && KeepsTrack(line)
    requires listed == pass.(calls := listed.calls) && BlankFrom(line, start)
    ensures Tracked(line, start, end, limit, pass, FetchHalves(line, start, end, limit, listed))
    decreases end - start, 0
  {
    hide FetchRange, Tracked, BlankFrom, KeepsTrack;
    var middle := start + (end - start) / 2;
    var left := FetchRange(line, start, middle, limit, listed);
    FetchRangeTracked(line, start, middle, limit, listed);
    if left.error.Some? {
      FailedHalf(line, start, middle, end, limit, pass, listed, left);
    } else {
      FetchRangeTracked(line, middle + 1, end, limit, left.pass);
      BothHalves(line, start, end, limit, pass, listed, left, FetchRange(line, middle + 1, end, limit, left.pass));
    }
  }

  lemma FailedHalf(
      line: Line, start: nat, middle: nat, end: nat, limit: nat, pass: Pass, listed: Pass, left: Outcome)
    requires Valid(line) && !line.descending && start <= middle < end && |pass.saved| > 0
    requires listed == pass.(calls := listed.calls) && left.error.Some?
    requires Tracked(line, start, middle, limit, listed, left)
    ensures Tracked(line, start, end, limit, pass, left.(written := 0))
  {
    hide Backed;
    BackedFrom(line, start, middle, pass, listed, left);
    BackedWiden(line, start, middle, end, pass, left, 0);
  }

  lemma BothHalves(
      line: Line, start: nat, end: nat, limit: nat, pass: Pass, listed: Pass, left: Outcome, right: Outcome)
    requires Valid(line) && !line.descending && start < end && |pass.saved| > 0 && KeepsTrack(line)
    requires listed == pass.(calls := listed.calls) && BlankFrom(line, start)
    requires |left.pass.saved| > 0 && left.error.None?
    requires Tracked(line, start, start + (end - start) / 2, limit, listed, left)
    requires Tracked(line, start + (end - start) / 2 + 1, end, limit, left.pass, right)
    ensures Tracked(line, start, end, limit, pass, right.(written := left.written + right.written))
  {
    HalfHoldsOne(line, start, end);
    hide Backed, BlankFrom, RangeTransfers, KeepsTrack;
    var middle := start + (end - start) / 2;
    BackedFrom(line, start, middle, pass, listed, left);
    BackedCompose(line, start, middle, end, pass, left, right, left.written + right.written);
  }

  /** A full window with transfers: the whole blocks in it are written. */
  lemma WindowKept(line: Line, start: nat, end: nat, limit: nat, pass: Pass, listed: Pass, last: nat)
    returns (kept: Outcome)
    requires Valid(line) && !line.descending && start < end && |pass.saved| > 0
    requires First(line, start, end) <= Last(line, start, end)
    requires
      var (listing, calls) := ListRange(line, start, end, limit, pass.calls);
      listing.PageLimit? && listing.transfers != [] && listing.lastBlock == last && listed == pass.(calls := calls)
    ensures start <= last <= end && kept.pass.saved == pass.saved
    ensures
      var whole := if last > start then RangeTransfers(line, start, last - 1) else [];
      && pass.log <= kept.pass.log && kept.pass.log <= pass.log + whole
      && (kept.error.Some? ==> kept.error == Some(Interrupted) && kept.pass.calls == 0)
      && (kept.error.None? ==> kept.pass.log == pass.log + whole && kept.written == |whole|)
    ensures kept.error.None? && last == start ==> kept.pass == pass.(calls := kept.pass.calls)
    ensures FetchRange(line, start, end, limit, pass) ==
      if kept.error.Some? then kept.(written := 0)
      else if last > start then FetchAfter(line, start, end, limit, kept, last)
      else FetchBlock(line, start, end, limit, kept)
  {
    ListRangeSound(line, start, end, limit, pass.calls);
    WindowHoldsWholeBlocks(line, start, end, last);
    var whole := KeepBefore(false, ListRange(line, start, end, limit, pass.calls).0.transfers, last);
    PersistSound(listed, whole, 0);
    assert whole[0..] == whole;
    kept := Persist(listed, whole, 0);
    hide Transfers, KeepBefore, CountBelow, ListFrom, ListRange, FetchHalves, FetchAfter, FetchBlock, RangeTransfers;
  }

  lemma {:induction false} WindowTracked(
      line: Line, start: nat, end: nat, limit: nat, pass: Pass, listed: Pass, last: nat)
    requires Valid(line) && !line.descending && start < end && |pass.saved| > 0 && KeepsTrack(line)
    requires First(line, start, end) <= Last(line, start, end)
    requires
      var (listing, calls) := ListRange(line, start, end, limit, pass.calls);
      listing.PageLimit? && listing.transfers != [] && listing.lastBlock == last && listed == pass.(calls := calls)
    ensures Tracked(line, start, end, limit, pass, FetchRange(line, start, end, limit, pass))
    decreases end - start, 1
  {
    ListRangeSound(line, start, end, limit, pass.calls);
    EmptyWindowIsBlank(line, start, end, limit, pass.calls);
    WindowHealth(line, start, end, last);
    var kept := WindowKept(line, start, end, limit, pass, listed, last);
    if last == start {
      FullBlockFails(line, start, end, limit, pass.calls, kept.pass);
    }
    hide Sound, Tracked, KeepsTrack, BlankFrom, Transfers, RangeTransfers, ListRange, FetchRange, FetchAfter,
        FetchBlock;
    if kept.error.Some? {
      var whole := if last > start then RangeTransfers(line, start, last - 1) else [];
      NothingSavedInWindow(line, start, end, pass, kept, whole, last);
      SoundIsTracked(line, start, end, limit, pass, kept.(written := 0));
    } else if last > start {
      FetchAfterTracked(line, start, end, limit, pass, kept, last);
    } else {
      FetchBlockTracked(line, start, end, limit, pass, kept);
    }
  }

  lemma {:induction false} FetchAfterTracked(
      line: Line, start: nat, end: nat, limit: nat, pass: Pass, kept: Outcome, last: nat)
    requires Valid(line) && !line.descending && start < last <= end && |pass.saved| > 0 && KeepsTrack(line)
    requires Readable(line, start, last - 1) && !Overfull(line, start, last - 1) && !BlankFrom(line, start)
    requires kept.error.None? && kept.pass.log == pass.log + RangeTransfers(line, start, last - 1)
    requires kept.written == |RangeTransfers(line, start, last - 1)| && kept.pass.saved == pass.saved
    ensures Tracked(line, start, end, limit, pass, FetchAfter(line, start, end, limit, kept, last))
    decreases end - start, 0
  {
    hide FetchRange, BlankFrom, RangeTransfers, KeepsTrack, Readable, Overfull, Sound, Tracked, Valid;
    var saved := kept.(pass := Save(kept.pass, line.action, last - 1));
    WindowPersisted(line, start, end, last, pass, kept);
    SoundIsTracked(line, start, last - 1, 0, pass, saved);
    FetchRangeTracked(line, last, end, limit, saved.pass);
    AfterCompose(line, start, end, limit, pass, saved, last, FetchRange(line, last, end, limit, saved.pass));
  }

  lemma AfterCompose(
      line: Line, start: nat, end: nat, limit: nat, pass: Pass, saved: Outcome, last: nat, rest: Outcome)
    requires Valid(line) && !line.descending && start < last <= end && |pass.saved| > 0 && |saved.pass.saved| > 0
    requires saved.error.None? && !BlankFrom(line, start)
    requires Tracked(line, start, last - 1, 0, pass, saved) && Tracked(line, last, end, limit, saved.pass, rest)
    ensures Tracked(line, start, end, limit, pass, rest.(written := saved.written + rest.written))
  {
    TailFits(line, start, end, limit, last);
    assert Fits(line, start, last - 1, 0);
    hide Backed, Fits, Whole, RangeTransfers;
    BackedCompose(line, start, last - 1, end, pass, saved, rest, saved.written + rest.written);
  }

  lemma TailFits(line: Line, start: nat, end: nat, limit: nat, last: nat)
    requires Valid(line) && !line.descending && start < last <= end && !BlankFrom(line, start)
    ensures Fits(line, start, end, limit) ==> Fits(line, last, end, limit)
  {
    RangeSplit(line, start, last - 1, end);
  }

  /** A window of one block only: fetching that block fails. */
  lemma {:induction false} FetchBlockTracked(
      line: Line, start: nat, end: nat, limit: nat, pass: Pass, kept: Outcome)
    requires Valid(line) && !line.descending && start < end && |pass.saved| > 0 && KeepsTrack(line)
    requires kept.pass == pass.(calls := kept.pass.calls)
    requires FetchRange(line, start, start, limit, kept.pass).error.Some?
    ensures Tracked(line, start, end, limit, pass, FetchBlock(line, start, end, limit, kept))
    decreases end - start, 0
  {
    var block := FetchRange(line, start, start, limit, kept.pass);
    FetchRangeTracked(line, start, start, limit, kept.pass);
    hide FetchRange, BlankFrom, RangeTransfers, KeepsTrack, Backed;
    BackedFrom(line, start, start, pass, kept.pass, block);
    BackedWiden(line, start, start, end, pass, block, kept.written + block.written);
  }
}
