/** Where the record limit makes a fetch lose track: the converse of LimitedFetch.

    With one record left, a fetch takes at most one transfer from every part into which blank windows
    divide its range.  A part with two transfers loses one; the parts behind it go on and save their
    checkpoints over it. */
module RecordLimit {
  import opened Normalize
  import opened Wrappers
  import opened Timeline
  import opened RangeFetch
  import opened LimitedFetch

  /** A history that can be fetched at all: every row is readable and no block fills a window. */
  ghost predicate Healthy(line: Line) {
    && Valid(line) && !line.descending
    && (forall c :: c in line.cells ==> !c.unreadable)
    && (forall block: nat {:trigger First(line, block, block)} ::
          Last(line, block, block) - First(line, block, block) < Window(line))
  }

  /** The range begins with a blank window. */
  ghost predicate Halved(line: Line, x: nat, y: nat) {
    BlankFrom(line, x) && Window(line) <= Last(line, x, y) - First(line, x, y)
  }

  /** What a fetch with one record left keeps of a range. */
  ghost function Kept(line: Line, x: nat, y: nat): seq<Transfer>
    requires x <= y
    decreases y - x
  {
    if x < y && Halved(line, x, y) then
      var middle := x + (y - x) / 2;
      Kept(line, x, middle) + Kept(line, middle + 1, y)
    else
      RangeTransfers(line, x, y)[..Min(1, |RangeTransfers(line, x, y)|)]
  }

  lemma HalvesAdd(line: Line, x: nat, y: nat)
    requires Valid(line) && !line.descending && x < y
    ensures
      var middle := x + (y - x) / 2;
      && |RangeTransfers(line, x, middle)| + |RangeTransfers(line, middle + 1, y)| == |RangeTransfers(line, x, y)|
      && (Halved(line, x, y) ==> |Kept(line, x, middle)| + |Kept(line, middle + 1, y)| == |Kept(line, x, y)|)
  {
    hide Halved, RangeTransfers;
    RangeSplit(line, x, x + (y - x) / 2, y);
  }

  lemma {:induction false} KeptFits(line: Line, x: nat, y: nat)
    requires Valid(line) && !line.descending && x <= y
    ensures |Kept(line, x, y)| <= |RangeTransfers(line, x, y)|
    decreases y - x
  {
    hide Halved, RangeTransfers, Kept, Valid;
    if x < y && Halved(line, x, y) {
      HalvesAdd(line, x, y);
      KeptFits(line, x, x + (y - x) / 2);
      KeptFits(line, x + (y - x) / 2 + 1, y);
    } else {
      KeptOfPart(line, x, y);
    }
  }

  /** Of a part that is not halved at most one transfer is kept. */
  lemma KeptOfPart(line: Line, x: nat, y: nat)
    requires x <= y && !(x < y && Halved(line, x, y))
    ensures |Kept(line, x, y)| == Min(1, |RangeTransfers(line, x, y)|)
  {
  }

  /** Calls that are enough for it. */
  ghost function Cost(line: Line, x: nat, y: nat): nat
    requires x <= y
    decreases y - x
  {
    if x < y && Halved(line, x, y) then
      var middle := x + (y - x) / 2;
      line.maxPages + Cost(line, x, middle) + Cost(line, middle + 1, y)
    else line.maxPages + 1
  }

  // ---------- the fetch ----------

  lemma {:induction false} EnoughCalls(
      line: Line, first: nat, last: nat, page: nat, at: nat, limit: nat, calls: nat)
    requires line.pageSize > 0 && line.maxPages > 0
    requires first <= at <= last <= |line.cells| && page <= line.maxPages && (page > 0 ==> first < at)
    requires calls >= line.maxPages - page
    ensures
      var (listing, left) := ListFrom(line, first, last, page, at, limit, calls);
      listing != Failed(Interrupted) && left >= calls - (line.maxPages - page)
    decreases line.maxPages - page
  {
    if page < line.maxPages {
      var next := Min(at + line.pageSize, last);
      if next - at == line.pageSize {
        EnoughCalls(line, first, last, page + 1, next, limit, calls - 1);
      }
    }
  }

  /** With enough calls, the listing of a part is complete and empty, one transfer, or a blank window. */
  lemma ListingOfOne(line: Line, x: nat, y: nat, calls: nat)
    requires Healthy(line) && x <= y && calls >= line.maxPages
    ensures First(line, x, y) <= Last(line, x, y)
    ensures
      var (listing, left) := ListRange(line, x, y, 1, calls);
      && left >= calls - line.maxPages
      && match listing
         case Complete(transfers) => transfers == [] == RangeTransfers(line, x, y) && !Halved(line, x, y)
         case RecordLimit(transfers) =>
           |transfers| == 1 && transfers <= RangeTransfers(line, x, y) && !Halved(line, x, y)
         case PageLimit(transfers, _) => transfers == [] && x < y && Halved(line, x, y)
         case Failed(_) => false
  {
    ListRangeSound(line, x, y, 1, calls);
    ListRangeLimit(line, x, y, 1, calls);
    EnoughCalls(line, First(line, x, y), Last(line, x, y), 0, First(line, x, y), 1, calls);
    EmptyWindowIsBlank(line, x, y, 1, calls);
    CellsInRange(line, x, y);
    var listing := ListRange(line, x, y, 1, calls).0;
    if listing.RecordLimit? && BlankFrom(line, x) {
      BlankListing(line, x, y, 1, calls);
    }
    if listing.PageLimit? && x == y {
      assert Last(line, x, x) - First(line, x, x) < Window(line);
    }
  }

  /** The last part of a range holds no transfer: its end is saved. */
  ghost predicate SavesEnd(line: Line, x: nat, y: nat)
    requires x <= y
    decreases y - x
  {
    if x < y && Halved(line, x, y) then SavesEnd(line, x + (y - x) / 2 + 1, y) else RangeTransfers(line, x, y) == []
  }

  lemma {:induction false} EmptySavesEnd(line: Line, x: nat, y: nat)
    requires Valid(line) && !line.descending && x <= y && RangeTransfers(line, x, y) == []
    ensures SavesEnd(line, x, y)
    decreases y - x
  {
    if x < y {
      var middle := x + (y - x) / 2;
      RangeSplit(line, x, middle, y);
      EmptySavesEnd(line, middle + 1, y);
    }
  }

  /** The outcome of a fetch with one record left: no error, the transfers kept, and the checkpoint at
      the end of the range where the last part is empty. */
  ghost predicate OneByOne(line: Line, x: nat, y: nat, pass: Pass, o: Outcome)
    requires x <= y && |pass.saved| > 0
  {
    && o.error.None? && o.pass.log == pass.log + Kept(line, x, y) && o.written == |Kept(line, x, y)|
    && o.pass.calls >= pass.calls - Cost(line, x, y)
    && |o.pass.saved| >= |pass.saved|
    && SameOthers(line.action, Current(o.pass), Current(pass))
    && (SavesEnd(line, x, y) ==>
        |o.pass.saved| > |pass.saved| && Current(o.pass) == Current(pass)[line.action := y])
  }

  lemma {:induction false} FetchOneByOne(line: Line, x: nat, y: nat, pass: Pass)
    requires Healthy(line) && x <= y && |pass.saved| > 0 && pass.calls >= Cost(line, x, y)
    ensures OneByOne(line, x, y, pass, FetchRange(line, x, y, 1, pass))
    decreases y - x, 2
  {
    ListingOfOne(line, x, y, pass.calls);
    var (listing, calls) := ListRange(line, x, y, 1, pass.calls);
    var listed := pass.(calls := calls);
    hide ListRange, Halved, CountBelow, Transfers, KeepBefore, Healthy;
    match listing
    case Complete(transfers) =>
      assert Persist(listed, [], 0) == Outcome(listed, 0, None);
    case RecordLimit(transfers) =>
      OneWritten(listed.(limited := true), transfers);
    case PageLimit(transfers, last) =>
      HalvesOneByOne(line, x, y, pass, listed);
    case Failed(_) =>
  }

  lemma OneWritten(pass: Pass, transfers: seq<Transfer>)
    requires |transfers| == 1 && pass.calls > 0
    ensures Persist(pass, transfers, 0) == Outcome(pass.(log := pass.log + transfers, calls := pass.calls - 1), 1, None)
  {
    assert transfers[0..1] == transfers;
  }

  lemma {:induction false} HalvesOneByOne(line: Line, x: nat, y: nat, pass: Pass, listed: Pass)
    requires Healthy(line) && x < y && |pass.saved| > 0 && pass.calls >= Cost(line, x, y)
    requires Halved(line, x, y) && listed == pass.(calls := listed.calls) && listed.calls >= pass.calls - line.maxPages
    ensures OneByOne(line, x, y, pass, FetchHalves(line, x, y, 1, listed))
    decreases y - x, 1
  {
    var middle := x + (y - x) / 2;
    hide FetchRange, FetchHalves, Halved, RangeTransfers, Healthy, OneByOne, Cost, Kept, SavesEnd, Valid;
    HealthyIsValid(line);
    CostSplits(line, x, y);
    var left := FetchRange(line, x, middle, 1, listed);
    FetchOneByOne(line, x, middle, listed);
    LeftHalfDone(line, x, middle, listed, left);
    HalvesMeet(line, x, y, listed);
    RightHalfOneByOne(line, x, y, pass, listed, left);
  }

  lemma HalvesMeet(line: Line, x: nat, y: nat, pass: Pass)
    requires Valid(line) && !line.descending && x < y && |pass.saved| > 0
    ensures
      var left := FetchRange(line, x, x + (y - x) / 2, 1, pass);
      left.error.None? ==>
        var right := FetchRange(line, x + (y - x) / 2 + 1, y, 1, left.pass);
        FetchHalves(line, x, y, 1, pass) == right.(written := left.written + right.written)
  {
    hide FetchRange;
  }

  lemma {:induction false} RightHalfOneByOne(line: Line, x: nat, y: nat, pass: Pass, listed: Pass, left: Outcome)
    requires Healthy(line) && x < y && |pass.saved| > 0 && Halved(line, x, y)
    requires listed == pass.(calls := listed.calls) && listed.calls >= pass.calls - line.maxPages
    requires OneByOne(line, x, x + (y - x) / 2, listed, left) && |left.pass.saved| > 0
    requires left.pass.calls >= Cost(line, x + (y - x) / 2 + 1, y)
    ensures
      var right := FetchRange(line, x + (y - x) / 2 + 1, y, 1, left.pass);
      OneByOne(line, x, y, pass, right.(written := left.written + right.written))
    decreases y - x, 0
  {
    hide FetchRange, Halved, RangeTransfers, OneByOne, Cost, Kept, SavesEnd;
    var lo := x + (y - x) / 2 + 1;
    FetchOneByOne(line, lo, y, left.pass);
    HalvesCompose(line, x, y, pass, listed, left, FetchRange(line, lo, y, 1, left.pass));
  }

  lemma CostSplits(line: Line, x: nat, y: nat)
    requires x < y && Halved(line, x, y)
    ensures Cost(line, x, y) == line.maxPages + Cost(line, x, x + (y - x) / 2) + Cost(line, x + (y - x) / 2 + 1, y)
  {
    hide Halved;
  }

  lemma LeftHalfDone(line: Line, x: nat, y: nat, pass: Pass, o: Outcome)
    requires x <= y && |pass.saved| > 0 && OneByOne(line, x, y, pass, o)
    ensures o.error.None? && |o.pass.saved| > 0 && o.pass.calls >= pass.calls - Cost(line, x, y)
  {
  }

  lemma HalvesCompose(line: Line, x: nat, y: nat, pass: Pass, listed: Pass, left: Outcome, right: Outcome)
    requires x < y && |pass.saved| > 0 && Halved(line, x, y)
    requires listed == pass.(calls := listed.calls) && listed.calls >= pass.calls - line.maxPages
    requires OneByOne(line, x, x + (y - x) / 2, listed, left) && |left.pass.saved| > 0
    requires OneByOne(line, x + (y - x) / 2 + 1, y, left.pass, right)
    ensures OneByOne(line, x, y, pass, right.(written := left.written + right.written))
  {
    hide Halved, RangeTransfers;
    SameUpdated(line.action, Current(left.pass), Current(pass), y);
  }

  // ---------- the loss ----------

  lemma {:induction false} TransfersIn(line: Line, i: nat, j: nat, p: nat, q: nat)
    requires i <= p < q < j <= |line.cells| && line.cells[p].transfer.Some? && line.cells[q].transfer.Some?
    ensures |Transfers(line, i, j)| >= 2
  {
    TransfersSplit(line, i, p, j);
    TransfersSplit(line, p + 1, q, j);
  }

  /** The block of the first of two close transfers, and as many blocks again: one part, one loss. */
  lemma PartLoses(line: Line, s: nat, p: nat, q: nat) returns (y: nat)
    requires Healthy(line) && p < q < |line.cells| && CloseFrom(line, s, p, q) && s < line.cells[p].block
    ensures y == 2 * line.cells[p].block - s - 1 && line.cells[p].block <= y
    ensures |Kept(line, line.cells[p].block, y)| < |RangeTransfers(line, line.cells[p].block, y)|
  {
    var x := line.cells[p].block;
    y := 2 * x - s - 1;
    CellsInRange(line, x, y);
    CellsInRange(line, x, x);
    assert x <= line.cells[q].block <= y;
    TransfersIn(line, First(line, x, y), Last(line, x, y), p, q);
    NotBlank(line, x, p);
  }

  lemma NotBlank(line: Line, x: nat, p: nat)
    requires Healthy(line) && p < |line.cells| && line.cells[p].transfer.Some? && line.cells[p].block == x
    ensures !BlankFrom(line, x)
  {
    CellsInRange(line, x, x);
    var first := First(line, x, x);
    assert Last(line, x, x) - first < Window(line);
    if first + Window(line) <= |line.cells| {
      TransfersSplit(line, first, p, first + Window(line));
    }
  }

  /** From a blank window on, the range up to y loses a transfer. */
  ghost predicate Loses(line: Line, s: nat, y: nat) {
    s < y && Halved(line, s, y) && |Kept(line, s, y)| < |RangeTransfers(line, s, y)|
  }

  /** If one half loses a transfer, so does the whole. */
  lemma HalfLoses(line: Line, s: nat, y: nat)
    requires Valid(line) && !line.descending && s < y && Halved(line, s, y)
    requires
      var middle := s + (y - s) / 2;
      || |Kept(line, s, middle)| < |RangeTransfers(line, s, middle)|
      || |Kept(line, middle + 1, y)| < |RangeTransfers(line, middle + 1, y)|
    ensures Loses(line, s, y)
  {
    hide Kept, Halved, RangeTransfers, Valid;
    KeptFits(line, s, s + (y - s) / 2);
    KeptFits(line, s + (y - s) / 2 + 1, y);
    HalvesAdd(line, s, y);
  }

  lemma ClosePair(line: Line, s: nat) returns (p: nat, q: nat)
    requires Healthy(line) && Crowded(line, s)
    ensures p < q < |line.cells| && CloseFrom(line, s, p, q)
    ensures s < line.cells[p].block <= line.cells[q].block && line.cells[p].transfer.Some?
  {
    p, q :| 0 <= p < q < |line.cells| && CloseFrom(line, s, p, q);
    assert line.cells[p].block <= line.cells[q].block;
  }

  lemma HealthyIsValid(line: Line)
    requires Healthy(line)
    ensures Valid(line) && !line.descending
  {
  }

  lemma LossBegins(line: Line, s: nat) returns (y: nat)
    requires Healthy(line) && BlankFrom(line, s) && Crowded(line, s)
    ensures Loses(line, s, y)
  {
    hide Kept, Halved, RangeTransfers, Healthy, BlankFrom, Crowded, Valid, CloseFrom;
    var p, q := ClosePair(line, s);
    y := PartLoses(line, s, p, q);
    BehindWindow(line, s, y, p);
    assert s + (y - s) / 2 + 1 == line.cells[p].block;
    HealthyIsValid(line);
    HalfLoses(line, s, y);
  }

  /** A transfer behind the window shows that the range is longer than the window. */
  lemma BehindWindow(line: Line, s: nat, y: nat, p: nat)
    requires Healthy(line) && s <= y && BlankFrom(line, s) && p < |line.cells|
    requires line.cells[p].transfer.Some? && s <= line.cells[p].block <= y
    ensures Halved(line, s, y)
  {
    CellsInRange(line, s, y);
    var first := First(line, s, y);
    assert first == First(line, s, s) && first <= p < Last(line, s, y);
    if p < first + Window(line) {
      TransfersSplit(line, first, p, first + Window(line));
    }
  }

  lemma LossDoubles(line: Line, s: nat, y: nat)
    requires Healthy(line) && Loses(line, s, y)
    ensures Loses(line, s, 2 * y - s + 1) && y < 2 * y - s + 1
  {
    var z := 2 * y - s + 1;
    hide Kept, Halved, RangeTransfers, Healthy, Valid;
    HealthyIsValid(line);
    HalvedBeyond(line, s, y, z);
    assert s + (z - s) / 2 == y;
    HalfLoses(line, s, z);
  }

  lemma HalvedBeyond(line: Line, s: nat, y: nat, z: nat)
    requires Valid(line) && !line.descending && s <= y < z && Halved(line, s, y)
    ensures Halved(line, s, z)
  {
    RangeSplit(line, s, y, z);
  }

  lemma {:induction false} LossBeyond(line: Line, s: nat, y: nat, least: nat) returns (z: nat)
    requires Healthy(line) && Loses(line, s, y)
    ensures Loses(line, s, z) && z >= least
    decreases least - y
  {
    if y >= least {
      z := y;
    } else {
      LossDoubles(line, s, y);
      z := LossBeyond(line, s, 2 * y - s + 1, least);
    }
  }

  lemma EmptyBehind(line: Line, y: nat, z: nat)
    requires Healthy(line) && y < z && forall c :: c in line.cells ==> c.block <= y
    ensures RangeTransfers(line, y + 1, z) == []
  {
    CellsInRange(line, y + 1, z);
    var i := First(line, y + 1, z);
    if i < |line.cells| {
      assert line.cells[i] in line.cells;
    }
  }

  lemma {:induction false} BlocksBounded(cells: seq<Cell>) returns (top: nat)
    ensures forall c :: c in cells ==> c.block <= top
  {
    if cells == [] {
      top := 0;
    } else {
      var rest := BlocksBounded(cells[1..]);
      top := if rest < cells[0].block then cells[0].block else rest;
      assert cells == [cells[0]] + cells[1..];
    }
  }

  /** With enough calls and one record left, a fetch of s..end succeeds and saves that end as
      checkpoint, though a transfer is missing. */
  ghost predicate Outruns(line: Line, s: nat, end: nat)
    requires Valid(line) && !line.descending
  {
    && s < end && |Kept(line, s, end)| < |RangeTransfers(line, s, end)|
    && forall pass: Pass {:trigger FetchRange(line, s, end, 1, pass)} ::
         |pass.saved| > 0 && pass.calls >= Cost(line, s, end) ==>
           var o := FetchRange(line, s, end, 1, pass);
           && OneByOne(line, s, end, pass, o)
           && Current(o.pass) == Current(pass)[line.action := end]
           && !Backed(line, s, end, pass, o)
  }

  /** In a history that does not keep track, this happens to fetches from some block on, with an end
      behind every other block. */
  lemma RecordLimitOutrunsLog(line: Line, s: nat, least: nat) returns (end: nat)
    requires Healthy(line) && BlankFrom(line, s) && Crowded(line, s)
    ensures least <= end && Outruns(line, s, end)
  {
    var y0 := LossBegins(line, s);
    var top := BlocksBounded(line.cells);
    var y := LossBeyond(line, s, y0, Max(top, least));
    end := 2 * y - s + 1;
    LossDoubles(line, s, y);
    EmptyBehind(line, y, end);
    forall pass: Pass {:trigger FetchRange(line, s, end, 1, pass)} |
      |pass.saved| > 0 && pass.calls >= Cost(line, s, end)
      ensures
        var o := FetchRange(line, s, end, 1, pass);
        && OneByOne(line, s, end, pass, o)
        && Current(o.pass) == Current(pass)[line.action := end]
        && !Backed(line, s, end, pass, o)
    {
      LastHalfSaves(line, s, y, pass);
    }
  }

  function Max(a: int, b: int): int { if a < b then b else a }

  lemma LastHalfSaves(line: Line, s: nat, y: nat, pass: Pass)
    requires Healthy(line) && Loses(line, s, y) && Loses(line, s, 2 * y - s + 1)
    requires RangeTransfers(line, y + 1, 2 * y - s + 1) == []
    requires |pass.saved| > 0 && pass.calls >= Cost(line, s, 2 * y - s + 1)
    ensures
      var end := 2 * y - s + 1;
      var o := FetchRange(line, s, end, 1, pass);
      && OneByOne(line, s, end, pass, o)
      && Current(o.pass) == Current(pass)[line.action := end]
      && !Backed(line, s, end, pass, o)
  {
    var end := 2 * y - s + 1;
    LastHalfEmpty(line, s, y);
    hide FetchRange, SavesEnd, Halved, Kept, Cost, RangeTransfers, Healthy, Backed;
    FetchOneByOne(line, s, end, pass);
    NotBacked(line, s, end, pass, FetchRange(line, s, end, 1, pass));
  }

  lemma LastHalfEmpty(line: Line, s: nat, y: nat)
    requires Healthy(line) && s < y && Halved(line, s, 2 * y - s + 1)
    requires RangeTransfers(line, y + 1, 2 * y - s + 1) == []
    ensures SavesEnd(line, s, 2 * y - s + 1)
  {
    var end := 2 * y - s + 1;
    hide Halved, RangeTransfers;
    assert s + (end - s) / 2 == y;
    EmptySavesEnd(line, y + 1, end);
  }

  /** A checkpoint at the end of a range that is not in the log is not backed. */
  lemma NotBacked(line: Line, s: nat, end: nat, pass: Pass, o: Outcome)
    requires |pass.saved| > 0 && |o.pass.saved| > |pass.saved|
    requires Current(o.pass) == Current(pass)[line.action := end]
    requires |o.pass.log| < |pass.log| + |RangeTransfers(line, s, end)|
    ensures !Backed(line, s, end, pass, o)
  {
    if Backed(line, s, end, pass, o) {
      BackedAt(line, s, end, pass, o.pass.log, o.pass.saved[|o.pass.saved| - 1]);
    }
  }

  lemma BackedAt(line: Line, s: nat, end: nat, pass: Pass, log: seq<Transfer>, map': Checkpoints)
    requires |pass.saved| > 0 && SavedSoundly(line, s, end, pass, log, map')
    requires map' == Current(pass)[line.action := end]
    ensures pass.log + RangeTransfers(line, s, end) <= log
  {
    var c: nat :| s <= c <= end && map' == Current(pass)[line.action := c] &&
        pass.log + RangeTransfers(line, s, c) <= log;
    assert map'[line.action] == c == end;
  }

  ghost predicate AlwaysBacked(line: Line)
    requires Valid(line) && !line.descending
  {
    forall start: nat, end: nat, limit: nat, pass: Pass {:trigger FetchRange(line, start, end, limit, pass)} ::
      start <= end && |pass.saved| > 0 ==> Backed(line, start, end, pass, FetchRange(line, start, end, limit, pass))
  }

  lemma SometimesNotBacked(line: Line)
    requires Healthy(line) && !KeepsTrack(line)
    ensures !AlwaysBacked(line)
  {
    var s: nat :| BlankFrom(line, s) && Crowded(line, s);
    hide FetchRange, Backed, BlankFrom, Crowded, Cost, Kept, OneByOne;
    var end := RecordLimitOutrunsLog(line, s, s);
    var pass := Pass([], [map[]], Cost(line, s, end), false);
    assert !Backed(line, s, end, pass, FetchRange(line, s, end, 1, pass));
  }

  /** For a history that can be fetched at all, keeping track is exactly what it takes: every fetch,
      whatever its range, its limit and its failures, saves backed checkpoints only. */
  lemma KeepsTrackIsExact(line: Line)
    requires Healthy(line)
    ensures KeepsTrack(line) <==> AlwaysBacked(line)
  {
    hide FetchRange, Backed, KeepsTrack;
    if KeepsTrack(line) {
      forall start: nat, end: nat, limit: nat, pass: Pass {:trigger FetchRange(line, start, end, limit, pass)} |
        start <= end && |pass.saved| > 0
        ensures Backed(line, start, end, pass, FetchRange(line, start, end, limit, pass))
      {
        FetchRangeTracked(line, start, end, limit, pass);
      }
    } else {
      SometimesNotBacked(line);
    }
  }
}
