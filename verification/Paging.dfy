/** The paged listing of one address's history (internal/etherscan/client.go).

    The explorer is modelled as a fixed history of rows sorted by block, oldest or newest first.
    A listing that starts at a block boundary yields exactly the transfers that one unsplit pass
    over the whole history yields there, synthetic log indices included. */
module Paging {
  import opened Normalize
  import opened Wrappers
  import opened Timeline

  datatype Feed = Feed(
    action: Action, descending: bool, rows: seq<Row>, pageSize: nat, maxPages: nat, digest: Digest)

  /** Number of counted rows lo..i with a given key. */
  function Rank(feed: Feed, lo: nat, i: nat, key: TokenKey): nat
    requires lo <= i <= |feed.rows|
  {
    if i == lo then 0
    else
      var row := feed.rows[i - 1];
      Rank(feed, lo, i - 1, key) + if Counted(feed.action, row) && KeyOf(row) == key then 1 else 0
  }

  /** What row i contributes to one pass over the whole history. */
  function CellAt(feed: Feed, i: nat): (cell: Cell)
    requires i < |feed.rows|
    ensures cell.block == feed.rows[i].block
    ensures cell.transfer.Some? ==> cell.transfer.value.block == cell.block && cell.transfer.value.source == feed.action
  {
    var row := feed.rows[i];
    var outcome := RowOutcome(feed.action, feed.digest, row, Rank(feed, 0, i, KeyOf(row)));
    Cell(row.block, Unreadable(feed.action, row), if outcome.Accepted? then Some(outcome.transfer) else None)
  }

  function CellsFrom(feed: Feed, i: nat): (cells: seq<Cell>)
    requires i <= |feed.rows|
    ensures |cells| == |feed.rows| - i
    ensures forall k :: 0 <= k < |cells| ==> cells[k].block == feed.rows[i + k].block
    decreases |feed.rows| - i
  {
    if i == |feed.rows| then [] else [CellAt(feed, i)] + CellsFrom(feed, i + 1)
  }

  /** The unsplit pass: every row with the occurrence number it has in the whole history. */
  function LineOf(feed: Feed): Line {
    Line(feed.action, feed.descending, CellsFrom(feed, 0), feed.pageSize, feed.maxPages)
  }

  lemma {:induction false} CellsFromAt(feed: Feed, i: nat, k: nat)
    requires i <= k < |feed.rows|
    ensures CellsFrom(feed, i)[k - i] == CellAt(feed, k)
    decreases k - i
  {
    if i < k {
      CellsFromAt(feed, i + 1, k);
    }
  }

  /** A transaction is in one block. */
  ghost predicate OneBlockPerHash(feed: Feed) {
    forall i, j ::
        0 <= i < |feed.rows| && 0 <= j < |feed.rows| && feed.rows[i].hash != "" &&
            feed.rows[i].hash == feed.rows[j].hash ==>
      feed.rows[i].block == feed.rows[j].block
  }

  ghost predicate ValidFeed(feed: Feed) {
    feed.pageSize > 0 && feed.maxPages > 0 && Sorted(LineOf(feed)) && OneBlockPerHash(feed)
  }

  lemma LineOfValidFeed(feed: Feed)
    requires ValidFeed(feed)
    ensures Valid(LineOf(feed))
  {
    var line := LineOf(feed);
    forall c | c in line.cells && c.transfer.Some?
      ensures c.transfer.value.block == c.block && c.transfer.value.source == line.action
    {
      var k :| 0 <= k < |line.cells| && line.cells[k] == c;
      CellsFromAt(feed, 0, k);
    }
  }

  // ---------- a listing from a block boundary is part of the unsplit pass ----------

  ghost predicate Boundary(feed: Feed, lo: nat) {
    lo <= |feed.rows| &&
    forall i, j :: 0 <= i < lo <= j < |feed.rows| ==> feed.rows[i].block != feed.rows[j].block
  }

  lemma RangeStartsAtBoundary(feed: Feed, start: nat, end: nat)
    requires ValidFeed(feed) && start <= end
    ensures Boundary(feed, First(LineOf(feed), start, end))
  {
    var line := LineOf(feed);
    CountBelowSplits(line, |line.cells|, if line.descending then Position(line, end) else Position(line, start));
    forall i | 0 <= i < |feed.rows|
      ensures feed.rows[i].block == line.cells[i].block
    {
      CellsFromAt(feed, 0, i);
    }
  }

  lemma {:induction false} RankSplit(feed: Feed, lo: nat, k: nat, i: nat, key: TokenKey)
    requires lo <= k <= i <= |feed.rows|
    ensures Rank(feed, lo, i, key) == Rank(feed, lo, k, key) + Rank(feed, k, i, key)
  {
    if k < i {
      RankSplit(feed, lo, k, i - 1, key);
    }
  }

  lemma {:induction false} RankOfAbsentKey(feed: Feed, lo: nat, i: nat, key: TokenKey)
    requires lo <= i <= |feed.rows|
    requires forall j :: lo <= j < i ==> KeyOf(feed.rows[j]) != key
    ensures Rank(feed, lo, i, key) == 0
  {
    if lo < i {
      RankOfAbsentKey(feed, lo, i - 1, key);
    }
  }

  /** Counting from a block boundary gives a row the occurrence number it has in the whole history. */
  lemma RankFromBoundary(feed: Feed, lo: nat, i: nat)
    requires OneBlockPerHash(feed) && Boundary(feed, lo) && lo <= i < |feed.rows| && feed.rows[i].hash != ""
    ensures Rank(feed, lo, i, KeyOf(feed.rows[i])) == Rank(feed, 0, i, KeyOf(feed.rows[i]))
  {
    var key := KeyOf(feed.rows[i]);
    forall j | 0 <= j < lo
      ensures KeyOf(feed.rows[j]) != key
    {
      assert feed.rows[j].block != feed.rows[i].block;
    }
    RankOfAbsentKey(feed, 0, lo, key);
    RankSplit(feed, 0, lo, i, key);
  }

  /** Two token rows without a log index never share both key and occurrence number, so their synthetic
      indices agree only where the digest takes two different arguments to one value. */
  lemma SyntheticApart(feed: Feed, i: nat, j: nat)
    requires i < j < |feed.rows| && Counted(feed.action, feed.rows[i]) && Counted(feed.action, feed.rows[j])
    requires CellAt(feed, i).transfer.Some? && CellAt(feed, j).transfer.Some?
    ensures
      var x, y := KeyOf(feed.rows[i]), KeyOf(feed.rows[j]);
      var m, n := Rank(feed, 0, i, x), Rank(feed, 0, j, y);
      && (x, m) != (y, n)
      && CellAt(feed, i).transfer.value.logIndex == -1 - feed.digest(x, m)
      && CellAt(feed, j).transfer.value.logIndex == -1 - feed.digest(y, n)
  {
    RankSplit(feed, 0, i + 1, j, KeyOf(feed.rows[i]));
  }

  ghost predicate CountsRows(feed: Feed, lo: nat, at: nat, counts: Counts)
    requires lo <= at <= |feed.rows|
  {
    forall key :: Seen(counts, key) == Rank(feed, lo, at, key)
  }

  lemma NothingCounted(feed: Feed, lo: nat)
    requires lo <= |feed.rows|
    ensures CountsRows(feed, lo, lo, map[])
  {
  }

  /** Restarting the occurrence counts at a block boundary changes no transfer. */
  lemma {:induction false} ListingIsUnsplitPass(feed: Feed, lo: nat, at: nat, next: nat, counts: Counts)
    requires OneBlockPerHash(feed) && Boundary(feed, lo) && lo <= at <= next <= |feed.rows|
    requires CountsRows(feed, lo, at, counts)
    ensures Normalized(feed.action, feed.digest, feed.rows[at..next], counts) == Transfers(LineOf(feed), at, next)
    ensures CountsRows(feed, lo, next, CountAll(feed.action, feed.rows[at..next], counts))
    decreases next - at
  {
    if at < next {
      var row := feed.rows[at];
      assert feed.rows[at..next][1..] == feed.rows[at + 1..next];
      RowMeetsCell(feed, lo, at, counts);
      CountsNext(feed, lo, at, counts);
      hide RowOutcome, Rank, CellsFrom, CellAt, OneBlockPerHash, Boundary, CountsRows;
      ListingIsUnsplitPass(feed, lo, at + 1, next, Count(feed.action, row, counts));
    }
  }

  /** With these counts a row yields what it contributes to the whole pass. */
  lemma RowMeetsCell(feed: Feed, lo: nat, at: nat, counts: Counts)
    requires OneBlockPerHash(feed) && Boundary(feed, lo) && lo <= at < |feed.rows| && CountsRows(feed, lo, at, counts)
    ensures
      var row := feed.rows[at];
      var o := RowOutcome(feed.action, feed.digest, row, Seen(counts, KeyOf(row)));
      LineOf(feed).cells[at].transfer == if o.Accepted? then Some(o.transfer) else None
  {
    var row := feed.rows[at];
    CellsFromAt(feed, 0, at);
    assert Seen(counts, KeyOf(row)) == Rank(feed, lo, at, KeyOf(row));
    if row.hash != "" {
      RankFromBoundary(feed, lo, at);
    }
  }

  lemma CountsNext(feed: Feed, lo: nat, at: nat, counts: Counts)
    requires lo <= at < |feed.rows| && CountsRows(feed, lo, at, counts)
    ensures CountsRows(feed, lo, at + 1, Count(feed.action, feed.rows[at], counts))
  {
    var counts' := Count(feed.action, feed.rows[at], counts);
    forall k
      ensures Seen(counts', k) == Rank(feed, lo, at + 1, k)
    {
      assert Seen(counts, k) == Rank(feed, lo, at, k);
    }
  }

  lemma UnreadablePage(feed: Feed, at: nat, next: nat)
    requires at <= next <= |feed.rows|
    ensures HasUnreadable(LineOf(feed), at, next) <==> exists row ::
      row in feed.rows[at..next] && Unreadable(feed.action, row)
  {
    hide Unreadable, CellsFrom;
    forall r | at <= r < next && LineOf(feed).cells[r].unreadable
      ensures exists row :: row in feed.rows[at..next] && Unreadable(feed.action, row)
    {
      CellsFromAt(feed, 0, r);
      assert feed.rows[at..next][r - at] == feed.rows[r];
    }
    forall row | row in feed.rows[at..next] && Unreadable(feed.action, row)
      ensures HasUnreadable(LineOf(feed), at, next)
    {
      var r :| 0 <= r < next - at && feed.rows[at..next][r] == row;
      CellsFromAt(feed, 0, at + r);
      assert LineOf(feed).cells[at + r].unreadable;
    }
  }

  // ---------- the loop over pages ----------

  /** One page of rows first..last as the explorer serves it: pages are numbered from 1. */
  function ServedPage(feed: Feed, first: nat, last: nat, page: nat): seq<Row>
    requires page > 0 && first <= last <= |feed.rows|
  {
    var from := Min(first + FullPages(feed.pageSize, page - 1), last);
    feed.rows[from..Min(from + feed.pageSize, last)]
  }

  /** One iteration: the page is fetched and normalized with the counts of the pages before it. */
  method ReadPage(feed: Feed, first: nat, last: nat, page: nat, ghost at: nat, counts: Counts)
    returns (items: seq<Row>, ghost next: nat, transfers: Option<seq<Transfer>>, counts': Counts)
    requires OneBlockPerHash(feed) && Boundary(feed, first) && page > 0
    requires first <= at <= last <= |feed.rows| && at == first + FullPages(feed.pageSize, page - 1)
    requires CountsRows(feed, first, at, counts)
    ensures next == Min(at + feed.pageSize, last) && items == feed.rows[at..next]
    ensures transfers.None? <==> HasUnreadable(LineOf(feed), at, next)
    ensures transfers.Some? ==> transfers.value == Transfers(LineOf(feed), at, next)
    ensures transfers.Some? ==> CountsRows(feed, first, next, counts')
  {
    hide CellAt, CellsFrom, RowOutcome, Rank;
    items, next := ServedPage(feed, first, last, page), Min(at + feed.pageSize, last);
    ListingIsUnsplitPass(feed, first, at, next, counts);
    UnreadablePage(feed, at, next);
    transfers, counts' := NormalizeWithState(feed.action, feed.digest, items, counts);
  }

  /** The loop over pages, with an optional limit on the number of transfers. */
  method List(feed: Feed, start: nat, end: nat, limit: nat, calls: nat) returns (listing: Listing, calls': nat)
    requires ValidFeed(feed)
    ensures start > end ==> listing == Failed(MalformedResponse) && calls' == calls
    ensures start <= end ==>
      First(LineOf(feed), start, end) <= Last(LineOf(feed), start, end) &&
      (listing, calls') == ListRange(LineOf(feed), start, end, limit, calls)
  {
    if start > end {
      return Failed(MalformedResponse), calls;
    }
    CellsInRange(LineOf(feed), start, end);
    RangeStartsAtBoundary(feed, start, end);
    listing, calls' := ListRows(feed, First(LineOf(feed), start, end), Last(LineOf(feed), start, end), limit, calls);
  }

  method ListRows(feed: Feed, first: nat, last: nat, limit: nat, calls: nat) returns (listing: Listing, calls': nat)
    requires feed.pageSize > 0 && feed.maxPages > 0 && OneBlockPerHash(feed)
    requires first <= last <= |feed.rows| && Boundary(feed, first)
    ensures (listing, calls') == ListFrom(LineOf(feed), first, last, 0, first, limit, calls)
  {
    hide CellAt, CellsFrom, Rank, Seen;
    ghost var line := LineOf(feed);
    ghost var goal := ListFrom(line, first, last, 0, first, limit, calls);
    var transfers: seq<Transfer> := [];
    var tokenOccurrences: Counts := map[];
    var lastRawBlock := 0;
    calls' := calls;
    ghost var at := first;
    NothingCounted(feed, first);
    for page := 1 to feed.maxPages + 1
      invariant first <= at <= last && at == first + FullPages(feed.pageSize, page - 1)
      invariant page > 1 ==> first < at && lastRawBlock == feed.rows[at - 1].block
      invariant transfers == Transfers(line, first, at)
      invariant CountsRows(feed, first, at, tokenOccurrences)
      invariant goal == ListFrom(line, first, last, page - 1, at, limit, calls')
    {
      if calls' == 0 {
        return Failed(Interrupted), 0;
      }
      var items, pageTransfers;
      ghost var next;
      items, next, pageTransfers, tokenOccurrences := ReadPage(feed, first, last, page, at, tokenOccurrences);
      calls' := calls' - 1;
      if pageTransfers.None? {
        return Failed(MalformedResponse), calls';
      }
      transfers := transfers + pageTransfers.value;
      assert transfers == Transfers(line, first, next) by { TransfersSplit(line, first, at, next); }
      if limit > 0 && |transfers| >= limit {
        return RecordLimit(transfers[..limit]), calls';
      }
      if |items| > 0 {
        lastRawBlock := items[|items| - 1].block;
      }
      if |items| < feed.pageSize {
        return Complete(transfers), calls';
      }
      at := next;
    }
    return PageLimit(transfers, lastRawBlock), calls';
  }

  // ---------- the window clamp ----------

  const MAX_RESULT_WINDOW: nat := 10_000

  /** Page size and page count after the defaults and the clamp. */
  function ClampWindow(pageSize: int, maxPages: int): (int, int) {
    var size := if pageSize <= 0 then 100 else pageSize;
    var most := if MAX_RESULT_WINDOW / size < 1 then 1 else MAX_RESULT_WINDOW / size;
    (size, if maxPages <= 0 then most else Min(maxPages, most))
  }

  /** The clamp keeps the explorer's result window exactly for page sizes the explorer can serve. */
  lemma ClampKeepsWindow(pageSize: int, maxPages: int)
    ensures var (size, pages) := ClampWindow(pageSize, maxPages);
      size > 0 && pages > 0 && (size * pages <= MAX_RESULT_WINDOW <==> pageSize <= MAX_RESULT_WINDOW)
  {
    var (size, pages) := ClampWindow(pageSize, maxPages);
    if size <= MAX_RESULT_WINDOW {
      var most := MAX_RESULT_WINDOW / size;
      assert pages <= most;
      assert size * pages <= size * most by {
        assert size * most - size * pages == size * (most - pages);
      }
      assert size * most <= MAX_RESULT_WINDOW;
    }
  }
}
