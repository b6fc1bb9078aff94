/** One address's history as an explorer serves it, and what a paged listing of it returns.

    A cell is a raw row after normalization: it may be unreadable, and it yields at most one
    transfer.  Cells are sorted by block, oldest or newest first. */
module Timeline {
  import opened Normalize
  import opened Wrappers

  datatype Cell = Cell(block: nat, unreadable: bool, transfer: Option<Transfer>)

  datatype Line = Line(action: Action, descending: bool, cells: seq<Cell>, pageSize: nat, maxPages: nat)

  function Position(line: Line, block: int): int {
    if line.descending then -block else block
  }

  ghost predicate Sorted(line: Line) {
    forall i, j :: 0 <= i <= j < |line.cells| ==>
      Position(line, line.cells[i].block) <= Position(line, line.cells[j].block)
  }

  ghost predicate Valid(line: Line) {
    && line.pageSize > 0 && line.maxPages > 0 && Sorted(line)
    && forall c :: c in line.cells && c.transfer.Some? ==>
      c.transfer.value.block == c.block && c.transfer.value.source == line.action
  }

  // ---------- the cells of a block range ----------

  function CountBelow(line: Line, n: nat, position: int): (count: nat)
    requires n <= |line.cells|
    ensures count <= n
  {
    if n == 0 then 0
    else CountBelow(line, n - 1, position) + if Position(line, line.cells[n - 1].block) < position then 1 else 0
  }

  /** Index of the first cell at or after a position, in feed order. */
  function IndexOf(line: Line, position: int): (i: nat)
    ensures i <= |line.cells|
  {
    CountBelow(line, |line.cells|, position)
  }

  function First(line: Line, start: nat, end: nat): (i: nat)
    ensures i <= |line.cells|
  {
    IndexOf(line, if line.descending then Position(line, end) else Position(line, start))
  }

  function Last(line: Line, start: nat, end: nat): (i: nat)
    ensures i <= |line.cells|
  {
    IndexOf(line, if line.descending then Position(line, start) + 1 else Position(line, end) + 1)
  }

  lemma {:induction false} CountBelowSplits(line: Line, n: nat, position: int)
    requires Sorted(line) && n <= |line.cells|
    ensures forall i ::
      0 <= i < n ==> (i < CountBelow(line, n, position) <==> Position(line, line.cells[i].block) < position)
  {
    if n > 0 {
      CountBelowSplits(line, n - 1, position);
      if Position(line, line.cells[n - 1].block) < position && n > 1 {
        assert Position(line, line.cells[n - 2].block) <= Position(line, line.cells[n - 1].block);
        assert n - 2 < CountBelow(line, n - 1, position);
      }
    }
  }

  /** The cells First..Last are exactly the cells whose block is in the range. */
  lemma CellsInRange(line: Line, start: nat, end: nat)
    requires Sorted(line) && start <= end
    ensures First(line, start, end) <= Last(line, start, end)
    ensures forall i :: 0 <= i < |line.cells| ==>
      (First(line, start, end) <= i < Last(line, start, end) <==> start <= line.cells[i].block <= end)
  {
    var lo := if line.descending then Position(line, end) else Position(line, start);
    var hi := if line.descending then Position(line, start) + 1 else Position(line, end) + 1;
    CountBelowSplits(line, |line.cells|, lo);
    CountBelowSplits(line, |line.cells|, hi);
    var i := First(line, start, end);
    if i > 0 {
      assert Position(line, line.cells[i - 1].block) < lo;
    }
  }

  // ---------- the transfers of a stretch of cells ----------

  function Transfers(line: Line, i: nat, j: nat): seq<Transfer>
    requires i <= j <= |line.cells|
    decreases j - i
  {
    if i == j then []
    else (if line.cells[i].transfer.Some? then [line.cells[i].transfer.value] else []) + Transfers(line, i + 1, j)
  }

  /** The transfers of a block range, in feed order. */
  function RangeTransfers(line: Line, start: nat, end: nat): seq<Transfer> {
    if First(line, start, end) <= Last(line, start, end)
    then Transfers(line, First(line, start, end), Last(line, start, end)) else []
  }

  lemma {:induction false} TransfersSplit(line: Line, i: nat, k: nat, j: nat)
    requires i <= k <= j <= |line.cells|
    ensures Transfers(line, i, k) + Transfers(line, k, j) == Transfers(line, i, j)
    decreases k - i
  {
    if i < k {
      TransfersSplit(line, i + 1, k, j);
    }
  }

  predicate HasUnreadable(line: Line, i: nat, j: nat)
    requires i <= j <= |line.cells|
  {
    exists r :: i <= r < j && line.cells[r].unreadable
  }

  // ---------- the listing ----------

  datatype Error = MalformedResponse | PageLimitExceeded | Interrupted

  datatype Listing =
    | Complete(transfers: seq<Transfer>)
    | PageLimit(transfers: seq<Transfer>, lastBlock: nat)
    | RecordLimit(transfers: seq<Transfer>)
    | Failed(error: Error)

  function Min(a: int, b: int): int { if a < b then a else b }

  /** The number of rows on that many full pages. */
  function FullPages(pageSize: nat, pages: nat): nat {
    if pages == 0 then 0 else FullPages(pageSize, pages - 1) + pageSize
  }

  /** The number of rows one listing can see. */
  function Window(line: Line): nat {
    FullPages(line.pageSize, line.maxPages)
  }

  lemma {:induction false} FullPagesGrow(pageSize: nat, a: nat, b: nat)
    requires a <= b
    ensures FullPages(pageSize, a) <= FullPages(pageSize, b)
  {
    if a < b {
      FullPagesGrow(pageSize, a, b - 1);
    }
  }

  lemma {:induction false} FullPagesIsProduct(pageSize: nat, pages: nat)
    ensures FullPages(pageSize, pages) == pages * pageSize
  {
    if pages > 0 {
      FullPagesIsProduct(pageSize, pages - 1);
    }
  }

  /** What the loop over pages returns from page number `page` on, when the cells first..at have
      been read.  `calls` is the number of requests that still succeed; a limit of 0 is no limit. */
  function ListFrom(line: Line, first: nat, last: nat, page: nat, at: nat, limit: nat, calls: nat): (Listing, nat)
    requires line.pageSize > 0 && line.maxPages > 0
    requires first <= at <= last <= |line.cells| && page <= line.maxPages && (page > 0 ==> first < at)
    decreases line.maxPages - page
  {
    if page == line.maxPages then (PageLimit(Transfers(line, first, at), line.cells[at - 1].block), calls)
    else if calls == 0 then (Failed(Interrupted), 0)
    else
      var next := Min(at + line.pageSize, last);
      var transfers := Transfers(line, first, next);
      if HasUnreadable(line, at, next) then (Failed(MalformedResponse), calls - 1)
      else if limit > 0 && |transfers| >= limit then (RecordLimit(transfers[..limit]), calls - 1)
      else if next - at < line.pageSize then (Complete(transfers), calls - 1)
      else ListFrom(line, first, last, page + 1, next, limit, calls - 1)
  }

  function ListRange(line: Line, start: nat, end: nat, limit: nat, calls: nat): (Listing, nat)
    requires line.pageSize > 0 && line.maxPages > 0 && First(line, start, end) <= Last(line, start, end)
  {
    ListFrom(line, First(line, start, end), Last(line, start, end), 0, First(line, start, end), limit, calls)
  }

  /** What the range fetcher may rely on: a complete listing is the whole range and shorter than
      the window, a page limit reports a full window and the block of its last row, and a record
      limit reports exactly `limit` transfers from the front of the range. */
  predicate ListContract(line: Line, first: nat, last: nat, limit: nat, listing: Listing, calls: nat)
    requires first <= last <= |line.cells|
  {
    var window := Window(line);
    match listing
    case Complete(transfers) =>
      transfers == Transfers(line, first, last) && last - first < window && !HasUnreadable(line, first, last)
    case PageLimit(transfers, lastBlock) =>
      0 < window <= last - first && transfers == Transfers(line, first, first + window)
      && lastBlock == line.cells[first + window - 1].block && !HasUnreadable(line, first, first + window)
    case RecordLimit(transfers) =>
      limit > 0 && |transfers| == limit && transfers <= Transfers(line, first, last)
    case Failed(error) =>
      (error == MalformedResponse && HasUnreadable(line, first, last)) || (error == Interrupted && calls == 0)
  }

  lemma {:induction false} ListFromSound(line: Line, first: nat, last: nat, page: nat, at: nat, limit: nat, calls: nat)
    requires line.pageSize > 0 && line.maxPages > 0
    requires first <= at <= last <= |line.cells| && page <= line.maxPages && (page > 0 ==> first < at)
    requires at == first + FullPages(line.pageSize, page) && !HasUnreadable(line, first, at)
    ensures var (listing, left) := ListFrom(line, first, last, page, at, limit, calls);
      left <= calls && ListContract(line, first, last, limit, listing, left)
    decreases line.maxPages - page
  {
    if page < line.maxPages && calls > 0 {
      var next := Min(at + line.pageSize, last);
      TransfersSplit(line, first, next, last);
      FullPagesGrow(line.pageSize, page + 1, line.maxPages);
      if HasUnreadable(line, at, next) {
        assert HasUnreadable(line, first, last);
      } else if next - at == line.pageSize {
        ListFromSound(line, first, last, page + 1, next, limit, calls - 1);
      }
    }
  }

  /** Every listing meets the contract, whatever requests fail. */
  lemma ListRangeSound(line: Line, start: nat, end: nat, limit: nat, calls: nat)
    requires Valid(line) && start <= end
    ensures First(line, start, end) <= Last(line, start, end)
    ensures var (listing, left) := ListRange(line, start, end, limit, calls);
      left <= calls && ListContract(line, First(line, start, end), Last(line, start, end), limit, listing, left)
  {
    CellsInRange(line, start, end);
    ListFromSound(line, First(line, start, end), Last(line, start, end), 0, First(line, start, end), limit, calls);
  }

  // ---------- the record limit of a listing ----------

  predicate BelowLimit(limit: nat, transfers: seq<Transfer>) {
    limit > 0 ==> |transfers| < limit
  }

  /** A listing that is not cut by the record limit is below it, and one that is cut reports what the
      window begins with. */
  predicate LimitContract(line: Line, first: nat, last: nat, limit: nat, listing: Listing)
    requires first <= last <= |line.cells|
  {
    match listing
    case Complete(transfers) => BelowLimit(limit, transfers)
    case PageLimit(transfers, _) => BelowLimit(limit, transfers)
    case RecordLimit(transfers) =>
      |transfers| == limit > 0 && transfers <= Transfers(line, first, Min(first + Window(line), last))
    case Failed(_) => true
  }

  lemma {:induction false} ListFromLimit(
      line: Line, first: nat, last: nat, page: nat, at: nat, limit: nat, calls: nat)
    requires line.pageSize > 0 && line.maxPages > 0
    requires first <= at <= last <= |line.cells| && page <= line.maxPages && (page > 0 ==> first < at)
    requires at == first + FullPages(line.pageSize, page)
    requires page > 0 ==> BelowLimit(limit, Transfers(line, first, at))
    ensures LimitContract(line, first, last, limit, ListFrom(line, first, last, page, at, limit, calls).0)
    decreases line.maxPages - page
  {
    if page < line.maxPages && calls > 0 {
      var next, window := Min(at + line.pageSize, last), Min(first + Window(line), last);
      FullPagesGrow(line.pageSize, page + 1, line.maxPages);
      assert FullPages(line.pageSize, page + 1) == FullPages(line.pageSize, page) + line.pageSize;
      TransfersSplit(line, first, next, window);
      if next - at == line.pageSize && BelowLimit(limit, Transfers(line, first, next)) {
        ListFromLimit(line, first, last, page + 1, next, limit, calls - 1);
      }
    }
  }

  lemma ListRangeLimit(line: Line, start: nat, end: nat, limit: nat, calls: nat)
    requires Valid(line) && start <= end
    ensures First(line, start, end) <= Last(line, start, end)
    ensures LimitContract(line, First(line, start, end), Last(line, start, end), limit,
      ListRange(line, start, end, limit, calls).0)
  {
    CellsInRange(line, start, end);
    ListFromLimit(line, First(line, start, end), Last(line, start, end), 0, First(line, start, end), limit, calls);
  }
}
