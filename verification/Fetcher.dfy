/** The range fetchers as the sync manager runs them: transfers are upserted batch by batch and
    progress is reported into the job document (internal/syncer/manager.go). */
module Fetcher {
  import opened Normalize
  import opened Wrappers
  import opened Timeline
  import opened Paging
  import RF = RangeFetch
  import RecentFetch

  class SyncRun {
    var log: seq<Transfer>
    var saved: seq<RF.Checkpoints>
    var calls: nat
    ghost var limited: bool

    constructor (checkpoints: RF.Checkpoints, calls: nat)
      ensures View() == RF.Pass([], [checkpoints], calls, false)
    {
      this.log := [];
      this.saved := [checkpoints];
      this.calls := calls;
      this.limited := false;
    }

    ghost function View(): RF.Pass
      reads this
    {
      RF.Pass(log, saved, calls, limited)
    }

    /** progress.ActionCheckpoints[action] = checkpoint, followed by a save of the job document. */
    method Report(action: Action, checkpoint: int)
      requires |saved| > 0
      modifies this
      ensures View() == RF.Save(old(View()), action, checkpoint)
    {
      saved := saved + [saved[|saved| - 1][action := checkpoint]];
    }

    method PersistTransfers(transfers: seq<Transfer>) returns (written: nat, error: Option<Error>)
      modifies this
      ensures RF.Outcome(View(), written, error) == RF.Persist(old(View()), transfers, 0)
    {
      var startIndex := 0;
      while startIndex < |transfers|
        invariant startIndex <= |transfers|
        invariant RF.Persist(old(View()), transfers, 0) == RF.Persist(View(), transfers, startIndex)
      {
        var endIndex := Min(startIndex + RF.BATCH, |transfers|);
        if calls == 0 {
          return 0, Some(Interrupted);
        }
        calls := calls - 1;
        log := log + transfers[startIndex..endIndex];
        startIndex := endIndex;
      }
      return |transfers|, None;
    }

    /** One listing; every page request uses up a call. */
    method Call(feed: Feed, start: nat, end: nat, limit: nat) returns (listing: Listing)
      requires ValidFeed(feed) && start <= end
      modifies this`calls
      ensures Valid(LineOf(feed)) && First(LineOf(feed), start, end) <= Last(LineOf(feed), start, end)
      ensures (listing, calls) == ListRange(LineOf(feed), start, end, limit, old(calls))
      ensures ListContract(LineOf(feed), First(LineOf(feed), start, end), Last(LineOf(feed), start, end), limit,
        listing, calls)
    {
      LineOfValidFeed(feed);
      ListRangeSound(LineOf(feed), start, end, limit, calls);
      listing, calls := List(feed, start, end, limit, calls);
    }

    /** Keeps, in place, the transfers strictly before a block in feed order. */
    method KeepBefore(descending: bool, transfers: seq<Transfer>, block: nat) returns (complete: seq<Transfer>)
      ensures complete == RF.KeepBefore(descending, transfers, block)
    {
      complete := [];
      for i := 0 to |transfers|
        invariant complete == RF.KeepBefore(descending, transfers[..i], block)
      {
        KeepBeforeSnoc(descending, transfers[..i], transfers[i], block);
        assert transfers[..i + 1] == transfers[..i] + [transfers[i]];
        if (if descending then transfers[i].block > block else transfers[i].block < block) {
          complete := complete + [transfers[i]];
        }
      }
      assert transfers[..|transfers|] == transfers;
    }

    method FetchRange(feed: Feed, start: nat, end: nat, limit: nat) returns (written: nat, error: Option<Error>)
      requires ValidFeed(feed) && !feed.descending && start <= end && |saved| > 0
      modifies this
      ensures Valid(LineOf(feed))
      ensures RF.Outcome(View(), written, error) == RF.FetchRange(LineOf(feed), start, end, limit, old(View()))
      decreases end - start, 1
    {
      hide RF.Persist, RF.KeepBefore, RF.FetchHalves, RF.FetchAfter, RF.FetchBlock, Valid, ListRange, ValidFeed, First,
          Last;
      var listing := Call(feed, start, end, limit);
      match listing
      case Failed(failure) =>
        return 0, Some(failure);
      case RecordLimit(transfers) =>
        limited := true;
        written, error := PersistTransfers(transfers);
      case PageLimit(transfers, resumeBlock) =>
        if start == end {
          return 0, Some(PageLimitExceeded);
        }
        RF.WindowHoldsWholeBlocks(LineOf(feed), start, end, resumeBlock);
        if |transfers| == 0 {
          written, error := FetchHalves(feed, start, end, limit);
          return;
        }
        var complete := KeepBefore(false, transfers, resumeBlock);
        written, error := PersistTransfers(complete);
        if error.Some? {
          return 0, error;
        }
        written, error := Resume(feed, start, end, limit, written, resumeBlock);
      case Complete(all) =>
        var transfers := all;
        if limit > 0 && |transfers| > limit {
          transfers := transfers[..limit];
          limited := true;
        }
        written, error := PersistTransfers(transfers);
        if error.None? {
          Report(feed.action, end);
        }
    }

    /** The window held nothing usable: fetch the two halves of the range. */
    method FetchHalves(feed: Feed, start: nat, end: nat, limit: nat) returns (written: nat, error: Option<Error>)
      requires ValidFeed(feed) && Valid(LineOf(feed)) && !feed.descending && start < end && |saved| > 0
      modifies this
      ensures RF.Outcome(View(), written, error) == RF.FetchHalves(LineOf(feed), start, end, limit, old(View()))
      decreases end - start, 0
    {
      hide RF.FetchRange;
      var middle := start + (end - start) / 2;
      var left, leftError := FetchRange(feed, start, middle, limit);
      if leftError.Some? {
        return 0, leftError;
      }
      var right;
      right, error := FetchRange(feed, middle + 1, end, limit);
      return left + right, error;
    }

    /** The window was persisted up to its last block: go on from there. */
    method Resume(
        feed: Feed, start: nat, end: nat, limit: nat, persisted: nat, resumeBlock: nat)
      returns (written: nat, error: Option<Error>)
      requires ValidFeed(feed) && Valid(LineOf(feed)) && !feed.descending && start < end &&
        start <= resumeBlock <= end && |saved| > 0
      modifies this
      ensures RF.Outcome(View(), written, error) ==
        var kept := RF.Outcome(old(View()), persisted, None);
        if resumeBlock > start then RF.FetchAfter(LineOf(feed), start, end, limit, kept, resumeBlock)
        else RF.FetchBlock(LineOf(feed), start, end, limit, kept)
      decreases end - start, 0
    {
      hide RF.FetchRange;
      if resumeBlock > start {
        Report(feed.action, resumeBlock - 1);
      }
      if resumeBlock <= start {
        var block;
        block, error := FetchRange(feed, start, start, limit);
        if error.Some? || start == end {
          return persisted + block, error;
        }
        var rest;
        rest, error := FetchRange(feed, start + 1, end, limit);
        return persisted + block + rest, error;
      }
      var rest;
      rest, error := FetchRange(feed, resumeBlock, end, limit);
      return persisted + rest, error;
    }

    method FetchRecentRange(
        feed: Feed, start: nat, end: nat, limit: int) returns (written: nat, truncated: bool, error: Option<Error>)
      requires ValidFeed(feed) && feed.descending && |saved| > 0
      modifies this
      ensures Valid(LineOf(feed))
      ensures RecentFetch.Recent(View(), written, truncated, error) ==
        RecentFetch.FetchRecent(LineOf(feed), start, end, limit, old(View()))
      decreases end - start
    {
      hide RF.Persist, RF.KeepBefore, Valid, ListContract, ListRange, ValidFeed, First, Last;
      LineOfValidFeed(feed);
      if limit <= 0 || end < start {
        return 0, false, None;
      }
      var listing := Call(feed, start, end, limit);
      match listing
      case RecordLimit(transfers) =>
        written, error := PersistTransfers(transfers);
        truncated := true;
      case Failed(failure) =>
        return 0, false, Some(failure);
      case Complete(transfers) =>
        truncated := |transfers| > limit;
        written, error := PersistTransfers(RecentFetch.Take(transfers, limit));
        if error.None? {
          Report(feed.action, start - 1);
        }
      case PageLimit(transfers, boundary) =>
        if boundary <= start || boundary >= end {
          written, error := PersistTransfers(RecentFetch.Take(transfers, limit));
          return written, true, error;
        }
        var complete := KeepBefore(true, transfers, boundary);
        if |complete| >= limit {
          written, error := PersistTransfers(complete[..limit]);
          return written, true, error;
        }
        written, error := PersistTransfers(complete);
        if error.Some? {
          return 0, false, error;
        }
        Report(feed.action, boundary);
        var rest;
        rest, truncated, error := FetchRecentRange(feed, start, boundary, limit - |complete|);
        return written + rest, truncated, error;
    }
  }

  lemma {:induction false} KeepBeforeSnoc(descending: bool, transfers: seq<Transfer>, last: Transfer, block: nat)
    ensures RF.KeepBefore(descending, transfers + [last], block)
         == RF.KeepBefore(descending, transfers, block) + RF.KeepBefore(descending, [last], block)
  {
    if transfers == [] {
      assert [] + [last] == [last];
    } else {
      assert (transfers + [last])[1..] == transfers[1..] + [last];
      KeepBeforeSnoc(descending, transfers[1..], last, block);
    }
  }
}
