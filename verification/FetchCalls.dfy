/** How many requests and writes a fetch may need (internal/syncer/manager.go, fetchRange). */
module FetchCalls {
  import opened Normalize
  import opened Timeline
  import opened RangeFetch
  import opened RecordLimit

  lemma {:induction false} ListSpends(
      line: Line, first: nat, last: nat, page: nat, at: nat, limit: nat, calls: nat)
    requires line.pageSize > 0 && line.maxPages > 0
    requires first <= at <= last <= |line.cells| && page <= line.maxPages && (page > 0 ==> first < at)
    ensures ListFrom(line, first, last, page, at, limit, calls).1 >= calls - (line.maxPages - page)
    decreases line.maxPages - page
  {
    if page < line.maxPages && calls > 0 {
      var next := Min(at + line.pageSize, last);
      if next - at == line.pageSize {
        ListSpends(line, first, last, page + 1, next, limit, calls - 1);
      }
    }
  }

  lemma {:induction false} PersistSpends(pass: Pass, transfers: seq<Transfer>, at: nat)
    requires at <= |transfers|
    ensures Persist(pass, transfers, at).pass.calls >= pass.calls - (|transfers| - at)
    decreases |transfers| - at
  {
    if at < |transfers| && pass.calls > 0 {
      var next := Min(at + BATCH, |transfers|);
      PersistSpends(pass.(log := pass.log + transfers[at..next], calls := pass.calls - 1), transfers, next);
    }
  }

  lemma {:induction false} FewTransfers(line: Line, i: nat, j: nat)
    requires i <= j <= |line.cells|
    ensures |Transfers(line, i, j)| <= j - i
    decreases j - i
  {
    if i < j {
      FewTransfers(line, i + 1, j);
    }
  }

  lemma {:induction false} FewBefore(transfers: seq<Transfer>, block: nat)
    ensures |KeepBefore(false, transfers, block)| <= |transfers|
  {
    if transfers != [] {
      FewBefore(transfers[1..], block);
    }
  }

  /** What a fetch of d + 1 blocks may spend. */
  function Budget(line: Line, d: nat): nat {
    line.maxPages + |line.cells| + if d == 0 then 0 else 2 * Budget(line, d - 1)
  }

  lemma {:induction false} BudgetGrows(line: Line, c: nat, d: nat)
    requires c <= d
    ensures Budget(line, c) <= Budget(line, d)
  {
    if c < d {
      BudgetGrows(line, c, d - 1);
    }
  }

  lemma {:induction false} FetchSpends(line: Line, start: nat, end: nat, limit: nat, pass: Pass)
    requires Valid(line) && !line.descending && start <= end && |pass.saved| > 0
    ensures FetchRange(line, start, end, limit, pass).pass.calls >= pass.calls - Budget(line, end - start)
    decreases end - start, 2
  {
    ListRangeSound(line, start, end, limit, pass.calls);
    CellsInRange(line, start, end);
    var first, last := First(line, start, end), Last(line, start, end);
    ListSpends(line, first, last, 0, first, limit, pass.calls);
    FewTransfers(line, first, last);
    var (listing, calls) := ListRange(line, start, end, limit, pass.calls);
    var listed := pass.(calls := calls);
    hide Transfers, KeepBefore, CountBelow, ListFrom, ListRange, FetchHalves, FetchAfter, FetchBlock, Sorted;
    match listing
    case Failed(error) =>
    case RecordLimit(transfers) =>
      PersistSpends(listed.(limited := true), transfers, 0);
    case Complete(transfers) =>
      var cut := limit > 0 && |transfers| > limit;
      PersistSpends(listed.(limited := pass.limited || cut), if cut then transfers[..limit] else transfers, 0);
    case PageLimit(transfers, lastBlock) =>
      FewTransfers(line, first, first + Window(line));
      LastBlockInRange(line, start, end, lastBlock);
      if start < end {
        SplitSpends(line, start, end, limit, listed, transfers, lastBlock);
      }
  }

  lemma LastBlockInRange(line: Line, start: nat, end: nat, last: nat)
    requires Valid(line) && !line.descending && start <= end && FullWindow(line, start, end, last)
    ensures start <= last <= end
  {
    WindowHoldsWholeBlocks(line, start, end, last);
  }

  /** What follows a page limit. */
  lemma {:induction false} SplitSpends(
      line: Line, start: nat, end: nat, limit: nat, pass: Pass, transfers: seq<Transfer>, lastBlock: nat)
    requires Valid(line) && !line.descending && start < end && |pass.saved| > 0 && start <= lastBlock <= end
    requires |transfers| <= |line.cells|
    ensures
      var most := |line.cells| + 2 * Budget(line, end - start - 1);
      var kept := Persist(pass, KeepBefore(false, transfers, lastBlock), 0);
      && FetchHalves(line, start, end, limit, pass).pass.calls >= pass.calls - most
      && kept.pass.calls >= pass.calls - most
      && (kept.error.None? && lastBlock > start ==>
          FetchAfter(line, start, end, limit, kept, lastBlock).pass.calls >= pass.calls - most)
      && (kept.error.None? && lastBlock <= start ==>
          FetchBlock(line, start, end, limit, kept).pass.calls >= pass.calls - most)
    decreases end - start, 1
  {
    var whole := KeepBefore(false, transfers, lastBlock);
    FewBefore(transfers, lastBlock);
    PersistSpends(pass, whole, 0);
    var kept := Persist(pass, whole, 0);
    hide FetchRange, FetchHalves, FetchAfter, FetchBlock, Persist, KeepBefore, Valid, Budget;
    HalvesSpend(line, start, end, limit, pass);
    if kept.error.None? && lastBlock > start {
      AfterSpends(line, start, end, limit, kept, lastBlock);
    } else if kept.error.None? {
      BlockSpends(line, start, end, limit, kept);
    }
  }

  lemma {:induction false} HalvesSpend(line: Line, start: nat, end: nat, limit: nat, pass: Pass)
    requires Valid(line) && !line.descending && start < end && |pass.saved| > 0
    ensures FetchHalves(line, start, end, limit, pass).pass.calls >= pass.calls - 2 * Budget(line, end - start - 1)
    decreases end - start, 0, 1
  {
    hide FetchRange, Budget;
    TwoFetches(line, start, start + (end - start) / 2, end, limit, pass);
  }

  lemma {:induction false} BlockSpends(line: Line, start: nat, end: nat, limit: nat, kept: Outcome)
    requires Valid(line) && !line.descending && start < end && |kept.pass.saved| > 0
    ensures
      FetchBlock(line, start, end, limit, kept).pass.calls >= kept.pass.calls - 2 * Budget(line, end - start - 1)
    decreases end - start, 0, 1
  {
    hide FetchRange, Budget;
    TwoFetches(line, start, start, end, limit, kept.pass);
  }

  lemma {:induction false} AfterSpends(line: Line, start: nat, end: nat, limit: nat, kept: Outcome, lastBlock: nat)
    requires Valid(line) && !line.descending && start < lastBlock <= end && |kept.pass.saved| > 0
    ensures
      FetchAfter(line, start, end, limit, kept, lastBlock).pass.calls
      >= kept.pass.calls - 2 * Budget(line, end - start - 1)
    decreases end - start, 0
  {
    hide FetchRange;
    BudgetGrows(line, end - lastBlock, end - start - 1);
    FetchSpends(line, lastBlock, end, limit, Save(kept.pass, line.action, lastBlock - 1));
  }

  lemma {:induction false} TwoFetches(line: Line, start: nat, middle: nat, end: nat, limit: nat, pass: Pass)
    requires Valid(line) && !line.descending && start <= middle < end && |pass.saved| > 0
    ensures
      var left := FetchRange(line, start, middle, limit, pass);
      && left.pass.calls >= pass.calls - 2 * Budget(line, end - start - 1)
      && FetchRange(line, middle + 1, end, limit, left.pass).pass.calls
         >= pass.calls - 2 * Budget(line, end - start - 1)
    decreases end - start, 0, 0
  {
    var left := FetchRange(line, start, middle, limit, pass);
    BudgetGrows(line, middle - start, end - start - 1);
    BudgetGrows(line, end - (middle + 1), end - start - 1);
    hide FetchRange;
    FetchSpends(line, start, middle, limit, pass);
    FetchSpends(line, middle + 1, end, limit, left.pass);
  }

  /** A history whose rows are readable and whose blocks fit the window is fetched completely once
      enough requests and writes succeed, if the record limit leaves room for the range. */
  lemma HealthyFetchSucceeds(line: Line, start: nat, end: nat, limit: nat, pass: Pass)
    requires Healthy(line) && start <= end && |pass.saved| > 0 && !pass.limited && Below(line, start, end, limit)
    requires pass.calls > Budget(line, end - start)
    ensures
      var o := FetchRange(line, start, end, limit, pass);
      && o.error.None? && !o.pass.limited && Whole(line, start, end, pass, o)
      && |o.pass.saved| > 0 && Current(o.pass) == Current(pass)[line.action := end]
      && o.written == |RangeTransfers(line, start, end)| && o.pass.calls >= pass.calls - Budget(line, end - start)
  {
    HealthyRange(line, start, end);
    hide FetchRange, Healthy, Readable, Overfull, Below, RangeTransfers, Budget;
    FetchSpends(line, start, end, limit, pass);
    BelowRecordLimit(line, start, end, limit, pass);
    FetchRangeSound(line, start, end, limit, pass);
    var o := FetchRange(line, start, end, limit, pass);
    assert o.pass.calls > 0;
    NoCause(line, start, end, pass, o);
  }

  /** Nothing can have made it fail. */
  lemma NoCause(line: Line, start: nat, end: nat, pass: Pass, o: Outcome)
    requires |pass.saved| > 0 && Sound(line, start, end, pass, o) && o.pass.calls > 0
    requires Readable(line, start, end) && !Overfull(line, start, end)
    ensures o.error.None?
  {
    hide Readable, Overfull, Backed;
    match o.error
    case None =>
    case Some(MalformedResponse) =>
    case Some(PageLimitExceeded) =>
    case Some(Interrupted) =>
  }

  lemma HealthyRange(line: Line, start: nat, end: nat)
    requires Healthy(line) && start <= end
    ensures Valid(line) && !line.descending
    ensures Readable(line, start, end) && !Overfull(line, start, end)
  {
    CellsInRange(line, start, end);
    forall r | First(line, start, end) <= r < Last(line, start, end)
      ensures !line.cells[r].unreadable
    {
      assert line.cells[r] in line.cells;
    }
  }
}
