/** The sync manager's work on one address: the loops over actions and intervals, and the updates of
    the address and job documents (internal/syncer/manager.go, syncAddress and process). */
module AddressSync {
  import opened Normalize
  import opened Wrappers
  import opened Timeline
  import Paging
  import RF = RangeFetch
  import opened SyncRuns
  import SJ = SyncJobs
  import C = Coverage
  import Fetcher

  datatype Feeds = Feeds(normal: Paging.Feed, internal: Paging.Feed, token: Paging.Feed) {
    function Of(action: Action): Paging.Feed {
      match action case Normal => normal case Internal => internal case Token => token
    }
  }

  function HistoryOf(feeds: Feeds): History {
    History(Paging.LineOf(feeds.normal), Paging.LineOf(feeds.internal), Paging.LineOf(feeds.token))
  }

  ghost predicate ValidFeeds(feeds: Feeds) {
    forall action ::
        Paging.ValidFeed(feeds.Of(action)) && !feeds.Of(action).descending && feeds.Of(action).action == action
  }

  lemma ValidFeedsGiveHistory(feeds: Feeds)
    requires ValidFeeds(feeds)
    ensures ValidHistory(HistoryOf(feeds))
    ensures forall action :: HistoryOf(feeds).Of(action) == Paging.LineOf(feeds.Of(action))
  {
    forall action
      ensures Valid(HistoryOf(feeds).Of(action)) && !HistoryOf(feeds).Of(action).descending &&
        HistoryOf(feeds).Of(action).action == action
    {
      Paging.LineOfValidFeed(feeds.Of(action));
    }
  }

  function Also(progress: Progress, truncated: bool): Progress {
    progress.(truncated := progress.truncated || truncated)
  }

  /** The inner loop: one action, interval by interval. */
  method RunIntervals(run: Fetcher.SyncRun, feed: Paging.Feed, spans: seq<C.Span>, cap: nat, already: nat)
    returns (fetched: nat, truncated: bool, error: Option<Error>)
    requires Paging.ValidFeed(feed) && Valid(Paging.LineOf(feed)) && !feed.descending && |run.saved| > 0
    modifies run
    ensures Progress(run.View(), fetched, truncated, error) ==
      SyncIntervals(Paging.LineOf(feed), spans, cap, already, old(run.View()))
  {
    hide RF.FetchRange;
    ghost var line := Paging.LineOf(feed);
    ghost var goal := SyncIntervals(line, spans, cap, already, run.View());
    fetched, truncated := already, false;
    for i := 0 to |spans|
      invariant |run.saved| > 0 && (truncated ==> fetched >= cap)
      invariant goal == Also(SyncIntervals(line, spans[i..], cap, fetched, run.View()), truncated)
    {
      if fetched >= cap {
        return fetched, true, None;
      }
      assert spans[i..][0] == spans[i] && spans[i..][1..] == spans[i + 1..];
      var start := spans[i].lo;
      var checkpoints := run.saved[|run.saved| - 1];
      if feed.action in checkpoints && checkpoints[feed.action] >= start {
        start := checkpoints[feed.action] + 1;
      }
      if start > spans[i].hi {
        continue;
      }
      var count;
      count, error := run.FetchRange(feed, start, spans[i].hi, cap - fetched);
      if error.Some? {
        return fetched, false, error;
      }
      fetched := fetched + count;
      if fetched >= cap {
        truncated := true;
      }
    }
    error := None;
  }

  /** The outer loop over the three actions. */
  method RunActions(run: Fetcher.SyncRun, feeds: Feeds, have: Covered, want: C.Span, cap: nat)
    returns (fetched: nat, truncated: bool, error: Option<Error>)
    requires ValidFeeds(feeds) && |run.saved| > 0
    modifies run
    ensures ValidHistory(HistoryOf(feeds))
    ensures var progress := SyncActions(HistoryOf(feeds), have, want, ACTIONS, cap, 0, old(run.View()));
      && run.View() == progress.pass && error == progress.error
      && (error.None? ==> fetched == progress.fetched && truncated == progress.truncated)
  {
    ValidFeedsGiveHistory(feeds);
    hide SyncIntervals;
    ghost var history := HistoryOf(feeds);
    ghost var goal := SyncActions(history, have, want, ACTIONS, cap, 0, run.View());
    fetched, truncated := 0, false;
    for a := 0 to |ACTIONS|
      invariant |run.saved| > 0
      invariant goal == Also(SyncActions(history, have, want, ACTIONS[a..], cap, fetched, run.View()), truncated)
    {
      if fetched >= cap {
        return fetched, true, None;
      }
      assert ACTIONS[a..][0] == ACTIONS[a] && ACTIONS[a..][1..] == ACTIONS[a + 1..];
      var action := ACTIONS[a];
      var spans := C.CoverageIntervals(want, have.Of(action));
      var cut;
      fetched, cut, error := RunIntervals(run, feeds.Of(action), spans, cap, fetched);
      if error.Some? {
        return;
      }
      truncated := truncated || cut;
    }
    error := None;
  }

  /** A processed job spelled out: stopped, answered from what is stored, or run. */
  lemma ProcessStep(history: History, cap: nat, w: SJ.World, e: SJ.Event)
    requires ValidHistory(history) && e.Process?
    ensures
      var u := SJ.Step(history, cap, w, e);
      if e.start !in w.jobs || w.jobs[e.start].status == SJ.Stopped then u == w
      else
        var want := SJ.Wanted(e.start, e.end, e.head);
        var checkpoints := w.jobs[e.start].checkpoints;
        if SJ.Cached(w.address, e.start, e.end, e.recent) || want.lo > want.hi then
          u == w.(jobs := SJ.FinishDocument(w.jobs, e, [checkpoints]))
        else
          var p := SyncPass(history, w.address.have, want, cap, checkpoints, e.calls);
          var done := p.error.None? && !p.truncated && e.closes;
          var have := if done then Merge(want, w.address.have) else w.address.have;
          && u.address == Address(done, have, Upserted(w.address.stored, p.pass.log))
          && u.jobs == SJ.FinishDocument(w.jobs, e, p.pass.saved)
  {
    hide SyncActions, Merge, Upserted, SJ.Cached;
  }

  /** The stored state of one address. */
  class AddressRecord {
    var address: Address
    var jobs: map<nat, SJ.Document>

    ghost function View(): SJ.World
      reads this
    {
      SJ.World(address, jobs)
    }

    constructor ()
      ensures View() == SJ.UNSEEN
    {
      address := Address(false, Covered(C.Span(0, 0), C.Span(0, 0), C.Span(0, 0)), {});
      jobs := map[];
    }

    method Enqueue(feeds: Feeds, cap: nat, start: nat)
      requires ValidFeeds(feeds)
      modifies this
      ensures ValidHistory(HistoryOf(feeds)) && View() == SJ.Step(HistoryOf(feeds), cap, old(View()), SJ.Enqueue(start))
      ensures address == old(address) && jobs.Keys == old(jobs).Keys + {start} && jobs[start].status == SJ.Queued
      ensures
        var resumes := start in old(jobs) && old(jobs)[start].status in {SJ.FailedJob, SJ.Stopped};
        jobs[start].checkpoints == if resumes then old(jobs)[start].checkpoints else map[]
      ensures forall other :: other in old(jobs) && other != start ==> jobs[other] == old(jobs)[other]
    {
      ValidFeedsGiveHistory(feeds);
      var checkpoints := SJ.FindCheckpoints(jobs, start);
      jobs := jobs[start := SJ.Document(SJ.Queued, checkpoints)];
    }

    /** One pass for one job; its document saves are returned.  Coverage is written last, if the last
        writes succeed. */
    method Sync(feeds: Feeds, cap: nat, want: C.Span, checkpoints: RF.Checkpoints, calls: nat, closes: bool)
      returns (saved: seq<RF.Checkpoints>)
      requires ValidFeeds(feeds)
      modifies this`address
      ensures ValidHistory(HistoryOf(feeds))
      ensures
        var p := SyncPass(HistoryOf(feeds), old(address).have, want, cap, checkpoints, calls);
        var done := p.error.None? && !p.truncated && closes;
        var have := if done then Merge(want, old(address).have) else old(address).have;
        saved == p.pass.saved && address == Address(done, have, Upserted(old(address).stored, p.pass.log))
    {
      hide SyncActions, Merge, Upserted;
      ValidFeedsGiveHistory(feeds);
      var run := new Fetcher.SyncRun(checkpoints, calls);
      var fetched, truncated, error := RunActions(run, feeds, address.have, want, cap);
      var have := address.have;
      var done := error.None? && !truncated && closes;
      if done {
        have := Merge(want, have);
      }
      address := Address(done, have, Upserted(address.stored, run.log));
      saved := run.saved;
    }

    /** One job from the queue.  `calls`, `closes`, `snapshot` and `fate` stand for what fails while
        it runs. */
    method Process(
        feeds: Feeds, cap: nat, start: nat, end: nat, head: nat, recent: bool,
        calls: nat, closes: bool, snapshot: nat, fate: SJ.Status)
      requires ValidFeeds(feeds)
      modifies this
      ensures ValidHistory(HistoryOf(feeds))
      ensures View() ==
        SJ.Step(HistoryOf(feeds), cap, old(View()), SJ.Process(start, end, head, recent, calls, closes, snapshot, fate))
    {
      hide SyncPass, Merge, Upserted, SJ.Cached, SJ.Wanted, ValidHistory, HistoryOf, ValidFeeds, SJ.Step;
      ValidFeedsGiveHistory(feeds);
      ProcessStep(HistoryOf(feeds), cap, View(), SJ.Process(start, end, head, recent, calls, closes, snapshot, fate));
      if start !in jobs || jobs[start].status == SJ.Stopped {
        return;
      }
      var saved := [jobs[start].checkpoints];
      var want := SJ.Wanted(start, end, head);
      if !SJ.Cached(address, start, end, recent) && want.lo <= want.hi {
        saved := Sync(feeds, cap, want, jobs[start].checkpoints, calls, closes);
      }
      jobs := jobs[start := SJ.Document(fate, saved[if snapshot < |saved| then snapshot else |saved| - 1])];
    }
  }
}
