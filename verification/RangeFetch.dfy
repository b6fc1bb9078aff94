/** Fetching a block range oldest first: page limits split the range, whole blocks are persisted
    in batches, and a checkpoint is saved after each finished part
    (internal/syncer/manager.go, fetchRange and persistTransfers). */
module RangeFetch {
  import opened Normalize
  import opened Wrappers
  import opened Timeline

  type Checkpoints = map<Action, int>

  /** A job in flight.  `log` is the transfers upserted so far, in order; `saved` is the checkpoint
      maps of the job document, oldest first and never empty, the last one being current; `calls`
      is the number of requests and batch writes that still succeed; `limited` tells whether a
      record limit has cut a listing short. */
  datatype Pass = Pass(log: seq<Transfer>, saved: seq<Checkpoints>, calls: nat, limited: bool)

  datatype Outcome = Outcome(pass: Pass, written: nat, error: Option<Error>)

  const BATCH: nat := 1000

  function Current(pass: Pass): Checkpoints
    requires |pass.saved| > 0
  {
    pass.saved[|pass.saved| - 1]
  }

  function Save(pass: Pass, action: Action, checkpoint: int): Pass
    requires |pass.saved| > 0
  {
    pass.(saved := pass.saved + [Current(pass)[action := checkpoint]])
  }

  /** Batches are written in order until one fails. */
  function Persist(pass: Pass, transfers: seq<Transfer>, at: nat): (outcome: Outcome)
    requires at <= |transfers|
    ensures outcome.pass.saved == pass.saved && outcome.pass.limited == pass.limited
    decreases |transfers| - at
  {
    if at == |transfers| then Outcome(pass, |transfers|, None)
    else if pass.calls == 0 then Outcome(pass, 0, Some(Interrupted))
    else
      var next := Min(at + BATCH, |transfers|);
      Persist(pass.(log := pass.log + transfers[at..next], calls := pass.calls - 1), transfers, next)
  }

  /** The transfers strictly before a block in feed order. */
  function KeepBefore(descending: bool, transfers: seq<Transfer>, block: nat): seq<Transfer> {
    if transfers == [] then []
    else
      var rest := KeepBefore(descending, transfers[1..], block);
      var before := if descending then transfers[0].block > block else transfers[0].block < block;
      if before then [transfers[0]] + rest else rest
  }

  /** The fetch of start..end: list the range, persist what is complete, and split at a page limit. */
  function FetchRange(line: Line, start: nat, end: nat, limit: nat, pass: Pass): (outcome: Outcome)
    requires Valid(line) && !line.descending && start <= end && |pass.saved| > 0
    ensures |outcome.pass.saved| > 0
    decreases end - start, 1
  {
    ListRangeSound(line, start, end, limit, pass.calls);
    CellsInRange(line, start, end);
    var (listing, calls) := ListRange(line, start, end, limit, pass.calls);
    var listed := pass.(calls := calls);
    match listing
    case Failed(error) => Outcome(listed, 0, Some(error))
    case RecordLimit(transfers) => Persist(listed.(limited := true), transfers, 0)
    case Complete(transfers) =>
      var cut := limit > 0 && |transfers| > limit;
      var kept := Persist(listed.(limited := pass.limited || cut), if cut then transfers[..limit] else transfers, 0);
      if kept.error.Some? then kept else kept.(pass := Save(kept.pass, line.action, end))
    case PageLimit(transfers, lastBlock) =>
      if start == end then Outcome(listed, 0, Some(PageLimitExceeded))
      else if transfers == [] then FetchHalves(line, start, end, limit, listed)
      else
        var kept := Persist(listed, KeepBefore(false, transfers, lastBlock), 0);
        if kept.error.Some? then kept.(written := 0)
        else if lastBlock > start then FetchAfter(line, start, end, limit, kept, lastBlock)
        else FetchBlock(line, start, end, limit, kept)
  }

  /** Nothing usable in the window: halve the range. */
  function FetchHalves(line: Line, start: nat, end: nat, limit: nat, pass: Pass): (outcome: Outcome)
    requires Valid(line) && !line.descending && start < end && |pass.saved| > 0
    ensures |outcome.pass.saved| > 0
    decreases end - start, 0
  {
    var middle := start + (end - start) / 2;
    var left := FetchRange(line, start, middle, limit, pass);
    if left.error.Some? then left.(written := 0)
    else
      var right := FetchRange(line, middle + 1, end, limit, left.pass);
      right.(written := left.written + right.written)
  }

  /** Whole blocks persisted: save their checkpoint and go on from the page boundary. */
  function FetchAfter(line: Line, start: nat, end: nat, limit: nat, kept: Outcome, lastBlock: nat): (outcome: Outcome)
    requires Valid(line) && !line.descending && start < lastBlock <= end && |kept.pass.saved| > 0
    ensures |outcome.pass.saved| > 0
    decreases end - start, 0
  {
    var rest := FetchRange(line, lastBlock, end, limit, Save(kept.pass, line.action, lastBlock - 1));
    rest.(written := kept.written + rest.written)
  }

  /** The window is one block: fetch that block by itself, then the rest. */
  function FetchBlock(line: Line, start: nat, end: nat, limit: nat, kept: Outcome): (outcome: Outcome)
    requires Valid(line) && !line.descending && start < end && |kept.pass.saved| > 0
    ensures |outcome.pass.saved| > 0
    decreases end - start, 0
  {
    var block := FetchRange(line, start, start, limit, kept.pass);
    if block.error.Some? then block.(written := kept.written + block.written)
    else
      var rest := FetchRange(line, start + 1, end, limit, block.pass);
      rest.(written := kept.written + block.written + rest.written)
  }

  // ---------- adjacent ranges ----------

  lemma RangeSplit(line: Line, start: nat, middle: nat, end: nat)
    requires Valid(line) && !line.descending && start <= middle < end
    ensures RangeTransfers(line, start, middle) + RangeTransfers(line, middle + 1, end) ==
      RangeTransfers(line, start, end)
    ensures First(line, start, end) == First(line, start, middle) <= Last(line, start, middle)
         == First(line, middle + 1, end) <= Last(line, middle + 1, end) == Last(line, start, end)
  {
    CellsInRange(line, start, middle);
    CellsInRange(line, middle + 1, end);
    TransfersSplit(line, First(line, start, end), Last(line, start, middle), Last(line, start, end));
  }

  lemma {:induction false} KeepBeforeCut(line: Line, i: nat, k: nat, j: nat, block: nat)
    requires Valid(line) && i <= k <= j <= |line.cells|
    requires forall r :: i <= r < k ==> Position(line, line.cells[r].block) < Position(line, block)
    requires forall r :: k <= r < j ==> Position(line, block) <= Position(line, line.cells[r].block)
    ensures KeepBefore(line.descending, Transfers(line, i, j), block) == Transfers(line, i, k)
    decreases j - i
  {
    if i < j {
      var rest := Transfers(line, i + 1, j);
      KeepBeforeCut(line, i + 1, if i < k then k else k + 1, j, block);
      assert line.cells[i] in line.cells;
      if line.cells[i].transfer.Some? {
        assert Transfers(line, i, j)[1..] == rest;
      } else {
        assert Transfers(line, i, j) == rest;
      }
    }
  }

  /** Some block of the range alone fills the window of one listing. */
  ghost predicate Overfull(line: Line, start: nat, end: nat) {
    exists block {:trigger First(line, block, block)} ::
      start <= block <= end && Last(line, block, block) - First(line, block, block) >= Window(line)
  }

  ghost predicate Readable(line: Line, start: nat, end: nat) {
    First(line, start, end) <= Last(line, start, end) &&
        !HasUnreadable(line, First(line, start, end), Last(line, start, end))
  }

  // ---------- what a fetch achieves ----------

  /** A checkpoint map saved on the way names a block up to which the range is in the log. */
  ghost predicate SavedSoundly(line: Line, start: nat, end: nat, pass: Pass, log: seq<Transfer>, map': Checkpoints)
    requires |pass.saved| > 0
  {
    exists c: nat {:trigger RangeTransfers(line, start, c)} ::
      start <= c <= end && map' == Current(pass)[line.action := c] && pass.log + RangeTransfers(line, start, c) <= log
  }

  /** The fetch appends a prefix of the range, and the log backs every checkpoint it saves. */
  ghost predicate Backed(line: Line, start: nat, end: nat, pass: Pass, outcome: Outcome)
    requires |pass.saved| > 0
  {
    var pass' := outcome.pass;
    && pass.log <= pass'.log && pass'.log <= pass.log + RangeTransfers(line, start, end)
    && pass.saved <= pass'.saved
    && (forall k :: |pass.saved| <= k < |pass'.saved| ==>
          SavedSoundly(line, start, end, pass, pass'.log, pass'.saved[k]))
  }

  /** The whole range is in the log. */
  predicate Whole(line: Line, start: nat, end: nat, pass: Pass, outcome: Outcome) {
    outcome.pass.log == pass.log + RangeTransfers(line, start, end)
  }

  ghost predicate Sound(line: Line, start: nat, end: nat, pass: Pass, outcome: Outcome)
    requires |pass.saved| > 0
  {
    var pass' := outcome.pass;
    && Backed(line, start, end, pass, outcome)
    && (outcome.error.None? ==>
        && Whole(line, start, end, pass, outcome) && outcome.written == |RangeTransfers(line, start, end)|
        && |pass.saved| < |pass'.saved| && Current(pass') == Current(pass)[line.action := end]
        && Readable(line, start, end) && !Overfull(line, start, end))
    && (outcome.error == Some(MalformedResponse) ==> !Readable(line, start, end))
    && (outcome.error == Some(PageLimitExceeded) ==> Overfull(line, start, end))
    && (outcome.error == Some(Interrupted) ==> pass'.calls == 0)
  }

  lemma {:induction false} PersistSound(pass: Pass, transfers: seq<Transfer>, at: nat)
    requires at <= |transfers|
    ensures var outcome := Persist(pass, transfers, at);
      && pass.log <= outcome.pass.log && outcome.pass.log <= pass.log + transfers[at..]
      && (outcome.error.None? ==> outcome.pass.log == pass.log + transfers[at..] && outcome.written == |transfers|)
      && (outcome.error.Some? ==> outcome.error == Some(Interrupted) && outcome.written == 0 && outcome.pass.calls == 0)
    decreases |transfers| - at
  {
    if at < |transfers| && pass.calls > 0 {
      var next := Min(at + BATCH, |transfers|);
      assert transfers[at..] == transfers[at..next] + transfers[next..];
      PersistSound(pass.(log := pass.log + transfers[at..next], calls := pass.calls - 1), transfers, next);
    }
  }

  lemma SavedSoundlyEarlier(
      line: Line, start: nat, middle: nat, end: nat, pass: Pass, log: seq<Transfer>, log': seq<Transfer>,
      map': Checkpoints)
    requires |pass.saved| > 0 && start <= middle <= end && log <= log'
    requires SavedSoundly(line, start, middle, pass, log, map')
    ensures SavedSoundly(line, start, end, pass, log', map')
  {
    var c: nat :| start <= c <= middle && map' == Current(pass)[line.action := c] &&
        pass.log + RangeTransfers(line, start, c) <= log;
    assert pass.log + RangeTransfers(line, start, c) <= log';
  }

  lemma SavedSoundlyLater(
      line: Line, start: nat, middle: nat, end: nat, pass: Pass, pass1: Pass, log: seq<Transfer>, map': Checkpoints)
    requires Valid(line) && !line.descending && start <= middle < end
    requires |pass.saved| > 0 && |pass1.saved| > 0
    requires pass1.log == pass.log + RangeTransfers(line, start, middle)
    requires SameOthers(line.action, Current(pass1), Current(pass))
    requires SavedSoundly(line, middle + 1, end, pass1, log, map')
    ensures SavedSoundly(line, start, end, pass, log, map')
  {
    var c: nat :| middle + 1 <= c <= end && map' == Current(pass1)[line.action := c]
                  && pass1.log + RangeTransfers(line, middle + 1, c) <= log;
    RangeSplit(line, start, middle, c);
    assert pass.log + RangeTransfers(line, start, c) == pass1.log + RangeTransfers(line, middle + 1, c);
    SameUpdated(line.action, Current(pass1), Current(pass), c);
  }

  /** The checkpoints of the other actions agree. */
  predicate SameOthers(action: Action, a: Checkpoints, b: Checkpoints) {
    a[action := 0] == b[action := 0]
  }

  lemma SameUpdated(action: Action, a: Checkpoints, b: Checkpoints, c: int)
    requires SameOthers(action, a, b)
    ensures a[action := c] == b[action := c]
  {
    assert a[action := c] == a[action := 0][action := c];
    assert b[action := c] == b[action := 0][action := c];
  }

  /** A fetch touches the checkpoint of its own action only. */
  lemma OwnCheckpoint(line: Line, start: nat, end: nat, pass: Pass, outcome: Outcome)
    requires |pass.saved| > 0 && Backed(line, start, end, pass, outcome)
    ensures |outcome.pass.saved| > 0
    ensures SameOthers(line.action, Current(outcome.pass), Current(pass))
  {
    var n := |outcome.pass.saved| - 1;
    if n >= |pass.saved| {
      assert SavedSoundly(line, start, end, pass, outcome.pass.log, outcome.pass.saved[n]);
    }
  }

  lemma HealthSplit(line: Line, start: nat, middle: nat, end: nat)
    requires Valid(line) && !line.descending && start <= middle < end
    ensures Readable(line, start, end) <==> Readable(line, start, middle) && Readable(line, middle + 1, end)
    ensures Overfull(line, start, end) <==> Overfull(line, start, middle) || Overfull(line, middle + 1, end)
  {
    RangeSplit(line, start, middle, end);
    if Overfull(line, start, end) {
      var block :| start <= block <= end && Last(line, block, block) - First(line, block, block) >= Window(line);
      assert block <= middle || middle + 1 <= block;
    }
  }

  lemma SavedSoundlyCompose(
      line: Line, start: nat, middle: nat, end: nat, pass: Pass, left: Outcome, right: Outcome)
    requires Valid(line) && !line.descending && start <= middle < end && |pass.saved| > 0
    requires Backed(line, start, middle, pass, left) && Whole(line, start, middle, pass, left)
    requires |left.pass.saved| > 0 && Backed(line, middle + 1, end, left.pass, right)
    ensures forall k :: |pass.saved| <= k < |right.pass.saved| ==>
      SavedSoundly(line, start, end, pass, right.pass.log, right.pass.saved[k])
  {
    OwnCheckpoint(line, start, middle, pass, left);
    forall k | |pass.saved| <= k < |right.pass.saved|
      ensures SavedSoundly(line, start, end, pass, right.pass.log, right.pass.saved[k])
    {
      if k < |left.pass.saved| {
        assert right.pass.saved[k] == left.pass.saved[k];
        SavedSoundlyEarlier(line, start, middle, end, pass, left.pass.log, right.pass.log, left.pass.saved[k]);
      } else {
        SavedSoundlyLater(line, start, middle, end, pass, left.pass, right.pass.log, right.pass.saved[k]);
      }
    }
  }

  /** After all of start..middle, a backed fetch of middle+1..end is one of start..end. */
  lemma BackedCompose(
      line: Line, start: nat, middle: nat, end: nat, pass: Pass, left: Outcome, right: Outcome, written: nat)
    requires Valid(line) && !line.descending && start <= middle < end && |pass.saved| > 0
    requires Backed(line, start, middle, pass, left) && Whole(line, start, middle, pass, left)
    requires |left.pass.saved| > 0 && Backed(line, middle + 1, end, left.pass, right)
    ensures Backed(line, start, end, pass, right.(written := written))
    ensures Whole(line, middle + 1, end, left.pass, right) ==> Whole(line, start, end, pass, right.(written := written))
  {
    RangeSplit(line, start, middle, end);
    SavedSoundlyCompose(line, start, middle, end, pass, left, right);
    hide SavedSoundly, RangeTransfers;
    LogsCompose(pass.log, RangeTransfers(line, start, middle), RangeTransfers(line, middle + 1, end),
                left.pass.log, right.pass.log);
    PrefixTransitive(pass.saved, left.pass.saved, right.pass.saved);
  }

  /** A finished fetch of start..middle followed by a fetch of middle+1..end is a fetch of start..end. */
  lemma SoundCompose(line: Line, start: nat, middle: nat, end: nat, pass: Pass, left: Outcome, right: Outcome)
    requires Valid(line) && !line.descending && start <= middle < end && |pass.saved| > 0
    requires Sound(line, start, middle, pass, left) && left.error.None?
    requires Sound(line, middle + 1, end, left.pass, right)
    ensures Sound(line, start, end, pass, right.(written := left.written + right.written))
  {
    RangeSplit(line, start, middle, end);
    HealthSplit(line, start, middle, end);
    BackedCompose(line, start, middle, end, pass, left, right, left.written + right.written);
    hide Backed, Overfull, Readable, RangeTransfers;
    if right.error.None? {
      assert Current(right.pass) == Current(pass)[line.action := end];
      SavesGrow(line, start, middle, end, pass, left, right);
    }
  }

  lemma SavesGrow(line: Line, start: nat, middle: nat, end: nat, pass: Pass, left: Outcome, right: Outcome)
    requires |pass.saved| > 0 && Backed(line, start, middle, pass, left)
    requires |left.pass.saved| > 0 && Backed(line, middle + 1, end, left.pass, right)
    ensures |pass.saved| <= |left.pass.saved| <= |right.pass.saved|
  {
  }

  lemma LogsCompose(
      log: seq<Transfer>, first: seq<Transfer>, second: seq<Transfer>, log1: seq<Transfer>, log2: seq<Transfer>)
    requires log1 == log + first && log1 <= log2 && log2 <= log1 + second
    ensures log <= log2 && log2 <= log + (first + second)
    ensures log2 == log1 + second ==> log2 == log + (first + second)
  {
    assert log1 + second == log + (first + second);
  }

  lemma PrefixTransitive<T>(a: seq<T>, b: seq<T>, c: seq<T>)
    requires a <= b && b <= c
    ensures a <= c
  {
  }

  /** A fetch never takes back what was done before it, and a limited one reports at least `limit` transfers. */
  ghost predicate Grows(pass: Pass, limit: nat, outcome: Outcome) {
    && pass.log <= outcome.pass.log && pass.saved <= outcome.pass.saved && (pass.limited ==> outcome.pass.limited)
    && outcome.pass.calls <= pass.calls
    && (outcome.error.None? ==> |outcome.pass.log| == |pass.log| + outcome.written)
    && (outcome.error.None? && outcome.pass.limited && !pass.limited ==> 0 < limit <= outcome.written)
  }

  lemma GrowsCompose(pass: Pass, limit: nat, left: Outcome, right: Outcome)
    requires Grows(pass, limit, left) && left.error.None? && Grows(left.pass, limit, right)
    ensures Grows(pass, limit, right.(written := left.written + right.written))
  {
    PrefixTransitive(pass.log, left.pass.log, right.pass.log);
    PrefixTransitive(pass.saved, left.pass.saved, right.pass.saved);
  }

  lemma {:induction false} PersistGrows(pass: Pass, transfers: seq<Transfer>, at: nat)
    requires at <= |transfers|
    ensures var outcome := Persist(pass, transfers, at);
      && pass.log <= outcome.pass.log && outcome.pass.calls <= pass.calls
      && (outcome.error.None? ==> |outcome.pass.log| == |pass.log| + |transfers| - at && outcome.written == |transfers|)
    decreases |transfers| - at
  {
    if at < |transfers| && pass.calls > 0 {
      var next := Min(at + BATCH, |transfers|);
      PersistGrows(pass.(log := pass.log + transfers[at..next], calls := pass.calls - 1), transfers, next);
    }
  }

  lemma {:induction false} FetchRangeGrows(line: Line, start: nat, end: nat, limit: nat, pass: Pass)
    requires Valid(line) && !line.descending && start <= end && |pass.saved| > 0
    ensures Grows(pass, limit, FetchRange(line, start, end, limit, pass))
    decreases end - start, 1
  {
    ListRangeSound(line, start, end, limit, pass.calls);
    CellsInRange(line, start, end);
    var (listing, calls) := ListRange(line, start, end, limit, pass.calls);
    var listed := Outcome(pass.(calls := calls), 0, None);
    match listing
    case Failed(error) =>
    case RecordLimit(transfers) =>
      PersistGrows(listed.pass.(limited := true), transfers, 0);
    case Complete(transfers) =>
      var cut := limit > 0 && |transfers| > limit;
      PersistGrows(listed.pass.(limited := pass.limited || cut), if cut then transfers[..limit] else transfers, 0);
    case PageLimit(transfers, lastBlock) =>
      if start == end {
      } else if transfers == [] {
        FetchHalvesGrows(line, start, end, limit, listed.pass);
        GrowsCompose(pass, limit, listed, FetchHalves(line, start, end, limit, listed.pass));
      } else {
        PersistGrows(listed.pass, KeepBefore(false, transfers, lastBlock), 0);
        var kept := Persist(listed.pass, KeepBefore(false, transfers, lastBlock), 0);
        if kept.error.None? {
          if lastBlock > start {
            FetchAfterGrows(line, start, end, limit, pass, kept, lastBlock);
          } else {
            FetchBlockGrows(line, start, end, limit, pass, kept);
          }
        }
      }
  }

  lemma {:induction false} FetchHalvesGrows(line: Line, start: nat, end: nat, limit: nat, pass: Pass)
    requires Valid(line) && !line.descending && start < end && |pass.saved| > 0
    ensures Grows(pass, limit, FetchHalves(line, start, end, limit, pass))
    decreases end - start, 0
  {
    hide FetchRange;
    var middle := start + (end - start) / 2;
    FetchRangeGrows(line, start, middle, limit, pass);
    var left := FetchRange(line, start, middle, limit, pass);
    if left.error.None? {
      FetchRangeGrows(line, middle + 1, end, limit, left.pass);
      GrowsCompose(pass, limit, left, FetchRange(line, middle + 1, end, limit, left.pass));
    }
  }

  lemma {:induction false} FetchAfterGrows(
      line: Line, start: nat, end: nat, limit: nat, pass: Pass, kept: Outcome, lastBlock: nat)
    requires Valid(line) && !line.descending && start < lastBlock <= end && |pass.saved| > 0
    requires Grows(pass, limit, kept) && kept.error.None? && kept.pass.saved == pass.saved
    ensures Grows(pass, limit, FetchAfter(line, start, end, limit, kept, lastBlock))
    decreases end - start, 0
  {
    hide FetchRange;
    var saved := kept.(pass := Save(kept.pass, line.action, lastBlock - 1));
    FetchRangeGrows(line, lastBlock, end, limit, saved.pass);
    GrowsCompose(pass, limit, saved, FetchRange(line, lastBlock, end, limit, saved.pass));
  }

  lemma {:induction false} FetchBlockGrows(line: Line, start: nat, end: nat, limit: nat, pass: Pass, kept: Outcome)
    requires Valid(line) && !line.descending && start < end && |pass.saved| > 0
    requires Grows(pass, limit, kept) && kept.error.None? && kept.pass.saved == pass.saved
    ensures Grows(pass, limit, FetchBlock(line, start, end, limit, kept))
    decreases end - start, 0
  {
    hide FetchRange;
    FetchRangeGrows(line, start, start, limit, kept.pass);
    var block := FetchRange(line, start, start, limit, kept.pass);
    GrowsCompose(pass, limit, kept, block);
    if block.error.None? {
      FetchRangeGrows(line, start + 1, end, limit, block.pass);
      GrowsCompose(pass, limit, block.(written := kept.written + block.written),
          FetchRange(line, start + 1, end, limit, block.pass));
    }
  }

  /** A listing stopped by the page limit: the window is full and ends in block `last`. */
  ghost predicate FullWindow(line: Line, start: nat, end: nat, last: nat) {
    var first, window := First(line, start, end), Window(line);
    && 0 < window <= Last(line, start, end) - first
    && last == line.cells[first + window - 1].block
    && !HasUnreadable(line, first, first + window)
  }

  /** Where the last block of a full window begins. */
  lemma WindowCut(line: Line, start: nat, end: nat, last: nat)
    requires Valid(line) && !line.descending && start <= end && FullWindow(line, start, end, last)
    ensures
      var first, cut := First(line, start, end), First(line, last, end);
      var stop := first + Window(line);
      && start <= last <= end && first <= cut < stop <= |line.cells|
      && (forall r :: first <= r < cut ==> line.cells[r].block < last)
      && (forall r :: cut <= r < stop ==> last <= line.cells[r].block)
  {
    var stop := First(line, start, end) + Window(line);
    CellsInRange(line, start, end);
    assert start <= line.cells[stop - 1].block <= end;
    CellsInRange(line, last, end);
    var cut := First(line, last, end);
    assert cut <= stop - 1 < Last(line, last, end);
    assert last <= line.cells[cut].block <= end;
  }

  /** Cut before its last block, the window holds exactly the earlier blocks. */
  lemma WindowHoldsWholeBlocks(line: Line, start: nat, end: nat, last: nat)
    requires Valid(line) && !line.descending && start <= end && FullWindow(line, start, end, last)
    ensures start <= last <= end
    ensures var seen := Transfers(line, First(line, start, end), First(line, start, end) + Window(line));
      KeepBefore(false, seen, last) == if last > start then RangeTransfers(line, start, last - 1) else []
    ensures First(line, last, end) < First(line, start, end) + Window(line)
  {
    var first, cut := First(line, start, end), First(line, last, end);
    assert Transfers(line, first, first) == [];
    hide First, FullWindow, Transfers, KeepBefore, Sorted;
    WindowCut(line, start, end, last);
    KeepBeforeCut(line, first, cut, first + Window(line), last);
    if last > start {
      RangeSplit(line, start, last - 1, end);
      assert Transfers(line, first, cut) == RangeTransfers(line, start, last - 1);
    }
  }

  /** No block before the last one of the window is overfull; a window of a single block is. */
  lemma WindowHealth(line: Line, start: nat, end: nat, last: nat)
    requires Valid(line) && !line.descending && start <= end && FullWindow(line, start, end, last)
    ensures start <= last <= end
    ensures last == start ==> Overfull(line, start, start)
    ensures last > start ==> Readable(line, start, last - 1) && !Overfull(line, start, last - 1)
  {
    var first := First(line, start, end);
    var stop := first + Window(line);
    WindowHoldsWholeBlocks(line, start, end, last);
    if last > start {
      RangeSplit(line, start, last - 1, end);
      forall block | start <= block <= last - 1
        ensures Last(line, block, block) - First(line, block, block) < Window(line)
      {
        BlockInsideWindow(line, start, end, last, block);
      }
    } else {
      CellsInRange(line, start, start);
      CellsInRange(line, start, end);
      assert Last(line, start, start) >= stop;
    }
  }

  lemma BlockInsideWindow(line: Line, start: nat, end: nat, last: nat, block: nat)
    requires Valid(line) && !line.descending && start <= block < last <= end && FullWindow(line, start, end, last)
    ensures Last(line, block, block) - First(line, block, block) < Window(line)
  {
    CellsInRange(line, start, end);
    CellsInRange(line, block, block);
    var i, j := First(line, block, block), Last(line, block, block);
    if i < j {
      assert line.cells[i].block == block && line.cells[j - 1].block == block;
      assert First(line, start, end) <= i && j - 1 < First(line, start, end) + Window(line) - 1;
    }
  }

  /** Nothing saved yet is a fetch of the blocks before the page boundary once their checkpoint is saved. */
  lemma WindowPersisted(line: Line, start: nat, end: nat, last: nat, pass: Pass, kept: Outcome)
    requires Valid(line) && !line.descending && start < last <= end && |pass.saved| > 0
    requires Readable(line, start, last - 1) && !Overfull(line, start, last - 1)
    requires kept.error.None? && kept.pass.log == pass.log + RangeTransfers(line, start, last - 1)
    requires kept.written == |RangeTransfers(line, start, last - 1)| && kept.pass.saved == pass.saved
    ensures Sound(line, start, last - 1, pass, kept.(pass := Save(kept.pass, line.action, last - 1)))
  {
    var pass' := Save(kept.pass, line.action, last - 1);
    assert SavedSoundly(line, start, last - 1, pass, pass'.log, pass'.saved[|pass.saved|]);
  }

  /** A fetch that saved nothing and stopped on an error. */
  lemma NothingSaved(line: Line, start: nat, end: nat, pass: Pass, outcome: Outcome, part: seq<Transfer>)
    requires |pass.saved| > 0 && outcome.pass.saved == pass.saved
    requires part <= RangeTransfers(line, start, end)
    requires pass.log <= outcome.pass.log && outcome.pass.log <= pass.log + part
    requires outcome.error.Some?
    requires outcome.error.value == MalformedResponse ==> !Readable(line, start, end)
    requires outcome.error.value == PageLimitExceeded ==> Overfull(line, start, end)
    requires outcome.error.value == Interrupted ==> outcome.pass.calls == 0
    ensures Sound(line, start, end, pass, outcome)
  {
  }

  /** Whatever fails on the way, a fetch below the record limit appends a prefix of the range's
      transfers, in order and once each, and saves only checkpoints that the log backs.  When it
      succeeds the whole range is in the log and the last checkpoint is its end.  It can fail only
      on an interruption, on an unreadable row, or on a block that alone fills the window. */
  lemma {:induction false} FetchRangeSound(line: Line, start: nat, end: nat, limit: nat, pass: Pass)
    requires Valid(line) && !line.descending && start <= end && |pass.saved| > 0
    requires !FetchRange(line, start, end, limit, pass).pass.limited
    ensures Sound(line, start, end, pass, FetchRange(line, start, end, limit, pass))
    decreases end - start, 1
  {
    ListRangeSound(line, start, end, limit, pass.calls);
    CellsInRange(line, start, end);
    var (listing, calls) := ListRange(line, start, end, limit, pass.calls);
    var listed := pass.(calls := calls);
    hide Sound, Transfers, KeepBefore, CountBelow, ListFrom, Persist;
    match listing
    case Failed(error) =>
      NothingSaved(line, start, end, pass, Outcome(listed, 0, Some(error)), []);
    case RecordLimit(transfers) =>
    case Complete(transfers) =>
      CompleteSound(line, start, end, pass, listed, transfers);
    case PageLimit(transfers, lastBlock) =>
      WindowHoldsWholeBlocks(line, start, end, lastBlock);
      WindowHealth(line, start, end, lastBlock);
      if start == end {
        NothingSaved(line, start, end, pass, Outcome(listed, 0, Some(PageLimitExceeded)), []);
      } else if transfers == [] {
        FetchHalvesSound(line, start, end, limit, pass, listed);
      } else {
        var whole := KeepBefore(false, transfers, lastBlock);
        PersistSound(listed, whole, 0);
        assert whole[0..] == whole;
        var kept := Persist(listed, whole, 0);
        if kept.error.Some? {
          NothingSavedInWindow(line, start, end, pass, kept, whole, lastBlock);
        } else if lastBlock > start {
          FetchAfterSound(line, start, end, limit, pass, kept, lastBlock);
        } else {
          FetchBlockSound(line, start, end, limit, pass, kept);
        }
      }
  }

  lemma NothingSavedInWindow(
      line: Line, start: nat, end: nat, pass: Pass, kept: Outcome, whole: seq<Transfer>, last: nat)
    requires Valid(line) && !line.descending && start <= last <= end && |pass.saved| > 0 &&
      kept.pass.saved == pass.saved
    requires whole == if last > start then RangeTransfers(line, start, last - 1) else []
    requires pass.log <= kept.pass.log && kept.pass.log <= pass.log + whole
    requires kept.error == Some(Interrupted) && kept.pass.calls == 0
    ensures Sound(line, start, end, pass, kept.(written := 0))
  {
    if last > start {
      RangeSplit(line, start, last - 1, end);
    }
    NothingSaved(line, start, end, pass, kept.(written := 0), whole);
  }

  lemma CompleteSound(line: Line, start: nat, end: nat, pass: Pass, listed: Pass, transfers: seq<Transfer>)
    requires Valid(line) && !line.descending && start <= end && |pass.saved| > 0
    requires First(line, start, end) <= Last(line, start, end) && transfers == RangeTransfers(line, start, end)
    requires listed == pass.(calls := listed.calls)
    requires Last(line, start, end) - First(line, start, end) < Window(line) && Readable(line, start, end)
    ensures var kept := Persist(listed, transfers, 0);
      Sound(line, start, end, pass, if kept.error.Some? then kept else kept.(pass := Save(kept.pass, line.action, end)))
  {
    PersistSound(listed, transfers, 0);
    var kept := Persist(listed, transfers, 0);
    assert transfers[0..] == transfers;
    if kept.error.Some? {
      NothingSaved(line, start, end, pass, kept, transfers);
    } else {
      var pass' := Save(kept.pass, line.action, end);
      assert SavedSoundly(line, start, end, pass, pass'.log, pass'.saved[|pass.saved|]);
      forall block | start <= block <= end
        ensures Last(line, block, block) - First(line, block, block) < Window(line)
      {
        CellsInRange(line, start, end);
        CellsInRange(line, block, block);
        var i, j := First(line, block, block), Last(line, block, block);
        if i < j {
          assert line.cells[i].block == block && line.cells[j - 1].block == block;
          assert First(line, start, end) <= i && j - 1 < Last(line, start, end);
        }
      }
    }
  }

  lemma {:induction false} FetchHalvesSound(line: Line, start: nat, end: nat, limit: nat, pass: Pass, listed: Pass)
    requires Valid(line) && !line.descending && start < end && |pass.saved| > 0
    requires listed == pass.(calls := listed.calls)
    requires !FetchHalves(line, start, end, limit, listed).pass.limited
    ensures Sound(line, start, end, pass, FetchHalves(line, start, end, limit, listed))
    decreases end - start, 0
  {
    hide FetchRange, Sound;
    var middle := start + (end - start) / 2;
    var left := FetchRange(line, start, middle, limit, listed);
    if left.error.Some? {
      FetchRangeSound(line, start, middle, limit, listed);
      SoundWiden(line, start, middle, end, pass, listed, left, 0);
    } else {
      var right := FetchRange(line, middle + 1, end, limit, left.pass);
      FetchRangeGrows(line, middle + 1, end, limit, left.pass);
      FetchRangeSound(line, start, middle, limit, listed);
      FetchRangeSound(line, middle + 1, end, limit, left.pass);
      SoundFrom(line, start, middle, pass, listed, left);
      SoundCompose(line, start, middle, end, pass, left, right);
    }
  }

  lemma SoundFrom(line: Line, start: nat, end: nat, pass: Pass, listed: Pass, outcome: Outcome)
    requires |pass.saved| > 0 && listed == pass.(calls := listed.calls)
    requires Sound(line, start, end, listed, outcome)
    ensures Sound(line, start, end, pass, outcome)
  {
    BackedFrom(line, start, end, pass, listed, outcome);
  }

  /** A failed fetch of the front of a range is a failed fetch of the range. */
  lemma SoundWiden(
      line: Line, start: nat, middle: nat, end: nat, pass: Pass, listed: Pass, left: Outcome, written: nat)
    requires Valid(line) && !line.descending && start <= middle < end && |pass.saved| > 0
    requires listed == pass.(calls := listed.calls)
    requires Sound(line, start, middle, listed, left) && left.error.Some?
    ensures Sound(line, start, end, pass, left.(written := written))
  {
    HealthSplit(line, start, middle, end);
    BackedFrom(line, start, middle, pass, listed, left);
    BackedWiden(line, start, middle, end, pass, left, written);
    hide Backed, Overfull, Readable;
  }

  /** What backs a fetch of the front of a range backs a fetch of the range. */
  lemma BackedWiden(line: Line, start: nat, middle: nat, end: nat, pass: Pass, left: Outcome, written: nat)
    requires Valid(line) && !line.descending && start <= middle < end && |pass.saved| > 0
    requires Backed(line, start, middle, pass, left)
    ensures Backed(line, start, end, pass, left.(written := written))
  {
    RangeSplit(line, start, middle, end);
    var front, all := RangeTransfers(line, start, middle), RangeTransfers(line, start, end);
    assert pass.log + front <= pass.log + all;
    PrefixTransitive(left.pass.log, pass.log + front, pass.log + all);
    forall k | |pass.saved| <= k < |left.pass.saved|
      ensures SavedSoundly(line, start, end, pass, left.pass.log, left.pass.saved[k])
    {
      SavedSoundlyEarlier(line, start, middle, end, pass, left.pass.log, left.pass.log, left.pass.saved[k]);
    }
  }

  /** The number of calls left at the beginning does not matter. */
  lemma BackedFrom(line: Line, start: nat, end: nat, pass: Pass, listed: Pass, outcome: Outcome)
    requires |pass.saved| > 0 && listed == pass.(calls := listed.calls)
    requires Backed(line, start, end, listed, outcome)
    ensures Backed(line, start, end, pass, outcome)
  {
    forall k | |pass.saved| <= k < |outcome.pass.saved|
      ensures SavedSoundly(line, start, end, pass, outcome.pass.log, outcome.pass.saved[k])
    {
      assert SavedSoundly(line, start, end, listed, outcome.pass.log, outcome.pass.saved[k]);
    }
  }

  lemma {:induction false} FetchAfterSound(
      line: Line, start: nat, end: nat, limit: nat, pass: Pass, kept: Outcome, last: nat)
    requires Valid(line) && !line.descending && start < last <= end && |pass.saved| > 0
    requires Readable(line, start, last - 1) && !Overfull(line, start, last - 1)
    requires kept.error.None? && kept.pass.log == pass.log + RangeTransfers(line, start, last - 1)
    requires kept.written == |RangeTransfers(line, start, last - 1)| && kept.pass.saved == pass.saved
    requires !FetchAfter(line, start, end, limit, kept, last).pass.limited
    ensures Sound(line, start, end, pass, FetchAfter(line, start, end, limit, kept, last))
    decreases end - start, 0
  {
    hide FetchRange, Sound;
    var saved := kept.(pass := Save(kept.pass, line.action, last - 1));
    WindowPersisted(line, start, end, last, pass, kept);
    FetchRangeSound(line, last, end, limit, saved.pass);
    SoundCompose(line, start, last - 1, end, pass, saved, FetchRange(line, last, end, limit, saved.pass));
  }

  lemma {:induction false} FetchBlockSound(line: Line, start: nat, end: nat, limit: nat, pass: Pass, kept: Outcome)
    requires Valid(line) && !line.descending && start < end && |pass.saved| > 0
    requires kept.pass.log == pass.log && kept.pass == pass.(calls := kept.pass.calls) && kept.written == 0
    requires !FetchBlock(line, start, end, limit, kept).pass.limited
    ensures Sound(line, start, end, pass, FetchBlock(line, start, end, limit, kept))
    decreases end - start, 0
  {
    hide FetchRange, Sound;
    var block := FetchRange(line, start, start, limit, kept.pass);
    if block.error.Some? {
      FetchRangeSound(line, start, start, limit, kept.pass);
      SoundWiden(line, start, start, end, pass, kept.pass, block, kept.written + block.written);
    } else {
      FetchRangeGrows(line, start + 1, end, limit, block.pass);
      FetchRangeSound(line, start, start, limit, kept.pass);
      FetchRangeSound(line, start + 1, end, limit, block.pass);
      SoundFrom(line, start, start, pass, kept.pass, block);
      SoundCompose(line, start, start, end, pass, block, FetchRange(line, start + 1, end, limit, block.pass));
    }
  }

  // ---------- the record limit ----------

  ghost predicate Below(line: Line, start: nat, end: nat, limit: nat) {
    limit > 0 ==> |RangeTransfers(line, start, end)| < limit
  }

  /** A range with fewer transfers than the limit is never cut short. */
  lemma {:induction false} BelowRecordLimit(line: Line, start: nat, end: nat, limit: nat, pass: Pass)
    requires Valid(line) && !line.descending && start <= end && |pass.saved| > 0 && !pass.limited
    requires Below(line, start, end, limit)
    ensures !FetchRange(line, start, end, limit, pass).pass.limited
    decreases end - start, 1
  {
    ListRangeSound(line, start, end, limit, pass.calls);
    CellsInRange(line, start, end);
    var (listing, calls) := ListRange(line, start, end, limit, pass.calls);
    var listed := pass.(calls := calls);
    hide Transfers, KeepBefore, CountBelow, ListFrom, FetchAfter, FetchBlock, FetchHalves;
    if listing.PageLimit? && start < end {
      WindowHoldsWholeBlocks(line, start, end, listing.lastBlock);
      HalvesBelowRecordLimit(line, start, end, limit, listed);
      var kept := Persist(listed, KeepBefore(false, listing.transfers, listing.lastBlock), 0);
      if listing.lastBlock > start {
        AfterBelowRecordLimit(line, start, end, limit, kept, listing.lastBlock);
      } else {
        BlockBelowRecordLimit(line, start, end, limit, kept);
      }
    }
  }

  lemma {:induction false} AfterBelowRecordLimit(
      line: Line, start: nat, end: nat, limit: nat, kept: Outcome, resumeBlock: nat)
    requires Valid(line) && !line.descending && start < resumeBlock <= end && |kept.pass.saved| > 0 &&
      !kept.pass.limited
    requires Below(line, start, end, limit)
    ensures !FetchAfter(line, start, end, limit, kept, resumeBlock).pass.limited
    decreases end - start, 0
  {
    hide FetchRange, RangeTransfers;
    RangeSplit(line, start, resumeBlock - 1, end);
    BelowRecordLimit(line, resumeBlock, end, limit, Save(kept.pass, line.action, resumeBlock - 1));
  }

  lemma {:induction false} HalvesBelowRecordLimit(line: Line, start: nat, end: nat, limit: nat, pass: Pass)
    requires Valid(line) && !line.descending && start < end && |pass.saved| > 0 && !pass.limited
    requires Below(line, start, end, limit)
    ensures !FetchHalves(line, start, end, limit, pass).pass.limited
    decreases end - start, 0
  {
    hide FetchRange, RangeTransfers;
    var middle := start + (end - start) / 2;
    RangeSplit(line, start, middle, end);
    BelowRecordLimit(line, start, middle, limit, pass);
    var left := FetchRange(line, start, middle, limit, pass);
    if left.error.None? {
      BelowRecordLimit(line, middle + 1, end, limit, left.pass);
    }
  }

  lemma {:induction false} BlockBelowRecordLimit(line: Line, start: nat, end: nat, limit: nat, kept: Outcome)
    requires Valid(line) && !line.descending && start < end && |kept.pass.saved| > 0 && !kept.pass.limited
    requires Below(line, start, end, limit)
    ensures !FetchBlock(line, start, end, limit, kept).pass.limited
    decreases end - start, 0
  {
    hide FetchRange, RangeTransfers;
    RangeSplit(line, start, start, end);
    BelowRecordLimit(line, start, start, limit, kept.pass);
    var block := FetchRange(line, start, start, limit, kept.pass);
    if block.error.None? {
      BelowRecordLimit(line, start + 1, end, limit, block.pass);
    }
  }
}
