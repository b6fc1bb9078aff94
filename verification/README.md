# Verified model of the fund tracer

A Dafny model of five parts of the Ethereum fund tracer, with proofs about all inputs, all runs or
all reachable states of each. `dafny verify dfyconfig.toml` checks everything.

**1. Range synchronisation** (`Normalize`, `Timeline`, `Paging`, `RangeFetch`, `LimitedFetch`,
`RecordLimit`, `FetchCalls`, `RecentFetch`, `Fetcher`, `Coverage`, `SyncRuns`, `SyncJobs`,
`SyncResume`, `SyncCache`, `AddressSync`, `LimitedRun`). An explorer serves a block-sorted history
in pages behind a result window. `Paging` shows that a listing, read page by page with running
occurrence counts, gives the transfers and synthetic log indices of one unsplit pass. `RangeFetch`
splits ranges recursively when the window is full; `SyncRuns` runs the three actions over the gaps
of an address; `SyncJobs` is the state machine of enqueue, process, stop, crash and restart. The
failures are a number of calls after which every request or write fails, last writes that fail, and
a job document that may be an older save than the last. In every reachable state claimed coverage
and saved checkpoints speak only of stored blocks, for every history that keeps track of cuts,
whatever its size, and for every history below the record limit. A job runs no pass exactly when the
address vouches for what it wants, block by block, and one that completes has covered and stored
that.

A history *keeps track* when no full window of rows without a single transfer, beginning at a block
s, is followed by two transfers in blocks u <= v with v - s < 2 (u - s). `RecordLimit` and
`LimitedRun` show that this is exact: it is what it takes for every fetch, and for every run under
every cap, to save only true checkpoints and to claim only stored blocks.

**2. Job protocols** (`JobQueue`, `Retry`, `TraceRetry`, `ExtensionRetry`). The queue is a set of
interleaved atomic steps of enqueuers and one worker. The retry loop around an extension ends
whatever is stored and answered; for the loop around a root trace the one case in which it does not
end is characterised.

**3. Tracing and reconciliation** (`Trace`, `TraceSound`, `TraceSteps`, `TraceRun`, `TraceFlow`,
`TraceOnce`, `TraceComplete`, `TraceReady`, `TraceFollow`, `TraceReasons`, `TraceOrder`,
`TraceMoney`, `Tracer`, `Fifo`, `Ledgers`, `LedgerTime`, `Extension`, `ExtensionComplete`, `Merge`,
`MergeResult`, `MergeTrace`, `Rematch`). The level-by-level worklist with its budgets, node limit
and stop reasons: where its edges come from, that it reports what is missing, follows every edge and
closes nodes for true reasons; the FIFO matching of outflows against earlier inflows, by position
and by block; extensions of a finished trace with all they record, their merge into it, and the
second matching of money states that every merge brings.

**4. Fast forms against simple ones** (`Decimal`, `BoundedHeap`, `Counterparties`, `Pages`,
`Sorting`). Streaming group-by with a bounded heap, decimal text comparison, keyset pages.

**5. Transactions and the displayed graph** (`OutputRoute`, `Conversion`, `RouterCall`,
`GraphEdges`). Output routes of pool swaps, router calldata, grouped edges and combined swap legs.

Where the source updates state in loops, a method does so here, and its `ensures` ties it to a
function about which the theorems are proved (`Fetcher.SyncRun`, `AddressSync.AddressRecord`,
`Tracer`, `JobQueue.Manager`, `Conversion.Analysis`, the heap, the matcher).

What the proofs show about the code:

- A record limit met inside a halved range lets a later part save a checkpoint over blocks that were
  cut off. Whenever the job then fails, at a later request, at its last writes or because its final
  save is lost, the next run resumes behind those blocks and claims them. This happens for every
  cap, and, of the histories that can be fetched at all, to exactly those that do not keep track.
- A root trace whose seed never becomes ready is retried for ever once its synchronisation
  succeeded.
- A job asks for no range twice, except for the one it began with: the loop does not know about that
  request.
- A merge matches money states that are matched already: outflows ask for their full amount again,
  inflows offer what they have left. The ledger of an account that gets no new states survives that
  exactly when its leftovers could, at every moment, pay all its outflows once more; otherwise
  explained outflows turn unexplained. The states themselves survive only if nothing was explained.
- A branch state does not name the sender: of several transfers of one asset that reach one address
  in one transaction, from different senders even, one is recorded, and for the seed it is the first
  stored one.
- A node closed at the end of one level, because nothing it was asked for matched, is skipped when a
  later level reaches it again with another asset or block.
- The page-size clamp keeps the explorer's window only for page sizes up to that window.

Where documentation and code differ, the model follows the code:
`internal/etherscan/normalize.go:62-64` says that skipped rows are retried by the next scan, while
coverage is claimed for their blocks; `docs/10-资金链路追踪设计.md:102` and `docs/02-项目难点与解决方案.md:13` say
that no amount is filtered and every positive transfer is kept, while
`internal/tracer/amount.go:47-66` filters small amounts and repeated branch states are skipped.

## Model

| member | source | states |
|---|---|---|
| Normalize.NormalizeWithState | internal/etherscan/normalize.go:40-71 | One page fails exactly when some row is broken, has an unreadable block number or is otherwise unreadable; else it yields the accepted rows in order, and the shared occurrence counts continue |
| Normalize.NormalizedSnoc | internal/etherscan/normalize.go:40-71 | Normalizing a longer page is normalizing its beginning and then the next row with the counts left by it |
| Normalize.ReadingSpelled | internal/etherscan/normalize.go:74-151 | A row is passed over exactly for a failed transaction or a missing hash, party or value; an accepted transfer has the parties, amount, asset, kind and log index of its row |
| Normalize.PageMoves | internal/etherscan/normalize.go:40-71 | The transfers of a readable page are those of its acceptable rows, each once and in order |
| Timeline.ListRangeSound | internal/etherscan/client.go:281-328 | Whatever requests fail, a listing is the whole range, a full window of it with its last block, a part cut by the record limit, or an error for a stated reason |
| Timeline.ListFromSound | internal/etherscan/client.go:289-327 | The same from any page on, given what the earlier pages read |
| Timeline.FullPagesIsProduct | internal/etherscan/client.go:289-327 | Pages read so far cover exactly page count times page size rows |
| Timeline.ListRangeLimit | internal/etherscan/client.go:281-328 | A listing that the record limit does not cut stays below it, and a cut one is what the window begins with |
| Paging.RankFromBoundary | internal/etherscan/normalize.go:153-168 | An occurrence number counted from a block boundary is the one counted from the start of the history |
| Paging.ListingIsUnsplitPass | internal/etherscan/normalize.go:40-71 | Pages of a range that starts at a block boundary give the transfers, synthetic log indices included, of one pass over the whole history |
| Paging.SyntheticApart | internal/etherscan/normalize.go:153-168 | Two token rows without a log index never share key and occurrence number: their synthetic indices agree only where the digest collides |
| Paging.UnreadablePage | internal/etherscan/normalize.go:59-67 | A page is refused exactly when one of its rows is unreadable |
| Paging.ReadPage | internal/etherscan/client.go:289-327 | One iteration reads the next page-size rows and continues the counts |
| Paging.ListRows | internal/etherscan/client.go:289-327 | The page loop computes the specified listing, call for call |
| Paging.List | internal/etherscan/client.go:281-328 | The same for a block range, with the refusal of an inverted range |
| Paging.ClampKeepsWindow | internal/etherscan/client.go:160-175 | Pages times page size stay within the result window if and only if the configured page size does |
| RangeFetch.PersistSound | internal/syncer/manager.go:738-773 | Batches append a prefix of the transfers in order; without an error all of them; the only error is an interruption |
| RangeFetch.WindowHoldsWholeBlocks | internal/syncer/manager.go:603-630 | Cut before its last block, a full window holds exactly the transfers of the earlier blocks |
| RangeFetch.WindowHealth | internal/syncer/manager.go:603-655 | A window of one block means that this block alone overflows it; otherwise no earlier block does |
| RangeFetch.FetchRangeGrows | internal/syncer/manager.go:598-669 | Every outcome, limited ones included, only appends to the log and to the saves |
| RangeFetch.FetchRangeSound | internal/syncer/manager.go:598-669 | A fetch that the record limit does not cut appends a prefix of the range's transfers in order and once each and saves only backed checkpoints; success means the whole range and a checkpoint at its end; errors have three causes only |
| RangeFetch.BelowRecordLimit | internal/syncer/manager.go:600-615 | A range with fewer transfers than the limit is never cut by it |
| LimitedFetch.HalfHoldsOne | internal/syncer/manager.go:607-617 | Behind a blank window, the upper half of a range of a history that keeps track holds at most one transfer |
| LimitedFetch.FullBlockFails | internal/syncer/manager.go:604-606 | A block that fills the window alone makes every fetch of it fail, so nothing is saved behind it |
| LimitedFetch.FetchRangeTracked | internal/syncer/manager.go:598-669 | In a history that keeps track, every fetch, cut or not, appends a prefix of the range and saves only backed checkpoints; the whole range if the limit leaves room for it |
| RecordLimit.FetchOneByOne | internal/syncer/manager.go:598-669 | With one record left and enough calls, a fetch succeeds, keeps at most one transfer of every part, and saves the end of the range if the last part is empty |
| RecordLimit.RecordLimitOutrunsLog | internal/syncer/manager.go:598-669 | A history that does not keep track has ends behind every block such that a fetch up to there succeeds and saves a checkpoint that the log does not back |
| RecordLimit.KeepsTrackIsExact | internal/syncer/manager.go:598-669 | For a readable history without overfull blocks: all fetches save only backed checkpoints if and only if it keeps track |
| FetchCalls.FetchSpends | internal/syncer/manager.go:598-669 | A fetch spends a bounded number of requests and writes |
| FetchCalls.HealthyFetchSucceeds | internal/syncer/manager.go:598-669 | A readable history without overfull blocks is fetched completely once enough requests and writes succeed and the limit leaves room |
| RecentFetch.FetchRecentSound | internal/syncer/manager.go:671-736 | A newest-first fetch persists a newest-first prefix of at most the limit, all of the range when it reports neither an error nor a cut, and ends for every window; without room it does nothing and reports no cut |
| RecentFetch.FetchRecentCuts | internal/syncer/manager.go:671-736 | Without an error it reports a cut whenever the range holds as many transfers as the limit, and else only if some window is cut inside a block; an uncut fetch last saves the block before the range; a save always vouches for logged blocks, from the newest on |
| Fetcher.SyncRun.PersistTransfers | internal/syncer/manager.go:738-773 | The batch loop has the specified effect on log and calls |
| Fetcher.SyncRun.KeepBefore | internal/syncer/manager.go:622-628 | The in-place filter keeps the transfers strictly before a block in feed order |
| Fetcher.SyncRun.FetchRange | internal/syncer/manager.go:598-669 | The recursive splitter has exactly the specified effect on log, saves and calls |
| Fetcher.SyncRun.FetchRecentRange | internal/syncer/manager.go:671-736 | The newest-first fetch has exactly the specified effect |
| Coverage.IntervalsCover | internal/syncer/manager.go:539-551 | At most two ordered intervals, disjoint from the cover, that with it contain every wanted block |
| Coverage.IntervalsExact | internal/syncer/manager.go:539-551 | They are wanted minus held if and only if the held range starts no later than one past the wanted end |
| Coverage.MergeIsUnion | internal/syncer/manager.go:561-570 | A merge contains the wanted range, unless that is block 0 alone, which reads as never covered; it vouches for nothing else, and keeps the old cover if and only if both touch |
| SyncRuns.SyncIntervalsTrue | internal/syncer/manager.go:434-491 | One action over its gaps, resumed from checkpoints, keeps checkpoints true, if its history keeps track or was not cut, and stores every gap unless truncated |
| SyncRuns.SyncActionsTrue | internal/syncer/manager.go:397-537 | The three actions together do |
| SyncRuns.MergeTrue | internal/store/store.go:196-217 | Merged coverage stays true when the wanted range is stored |
| SyncRuns.MergeHasCommonRange | internal/store/store.go:196-217 | Merged coverage always has a range common to the three actions |
| SyncRuns.SyncPassTrue | internal/syncer/manager.go:397-537 | From true checkpoints: coverage is claimed only for stored blocks and never when a listing was cut by the record limit; saved checkpoints are true if the histories keep track or no listing was cut |
| SyncResume.PassFetchesMissing | internal/syncer/manager.go:434-491 | A pass logs only transfers of blocks that their action has not covered, not before the wanted range, and behind the checkpoint the job resumes from |
| SyncJobs.StepTrue | internal/syncer/manager.go:110-160 | No step of enqueue, process, stop or restart, with whatever fails in it, makes a claim false or loses a stored transfer; nor a checkpoint, if the histories keep track or no listing was cut |
| SyncJobs.InterruptedResumes | internal/syncer/manager.go:169-195 | A stop ends a job in progress and a restart all of them; the next job of that start resumes from their checkpoints; the address stays as it is |
| SyncJobs.JobsSpelled | internal/syncer/manager.go:110-334 | A queued job begins with the checkpoints of a failed or stopped one; a processed one is left alone if stopped, and else ends with its fate and the save that reached its document; other jobs stay as they are |
| SyncJobs.RunTrue | internal/syncer/manager.go:228-334 | Neither does any run of such histories |
| SyncJobs.CachedTrue | internal/syncer/manager.go:361-387 | When claims are true, the cache conditions are backed by stored blocks for the requested snapshot or up to the common coverage |
| SyncCache.CachedInBlocks | internal/syncer/manager.go:361-387 | An answer comes from the cache if and only if a synced address covers, with all actions, each block of the requested snapshot, or lately each block from the start through the last one they all cover |
| SyncCache.AnsweredFromStore | internal/syncer/manager.go:361-397 | A job with blocks to fetch runs no pass if and only if that is so; then the store holds those blocks |
| SyncCache.JobCovers | internal/syncer/manager.go:388-537 | A job that completes has covered and stored exactly what it wanted beside what was covered before, for all actions; one that does not claims nothing new; covered blocks are stored |
| SyncJobs.SmallHistoryNeverLimited | internal/syncer/manager.go:600-615 | A history smaller than the cap never meets the record limit in any run |
| SyncJobs.ReachableTrue | internal/store/store.go:330-356 | In every reachable state all coverage claims and all checkpoints are true, for histories that keep track, under any cap, and for histories below the cap |
| LimitedRun.LimitedRunLies | internal/syncer/manager.go:397-537 | For every cap, a token history that does not keep track has a run of two jobs, the first failing at its last write, that ends in a false coverage claim |
| LimitedRun.ClaimsExact | internal/store/store.go:330-356 | For every cap: claims stay true in all runs if and only if the token history keeps track, the others doing so |
| LimitedRun.ExampleLosesTrack | internal/syncer/manager.go:607-617 | Two empty rows and two payments, with windows of two rows, are such a history |
| AddressSync.RunIntervals | internal/syncer/manager.go:434-491 | The interval loop computes the specified progress |
| AddressSync.RunActions | internal/syncer/manager.go:402-498 | The loop over the actions computes the specified progress |
| AddressSync.AddressRecord.Sync | internal/syncer/manager.go:337-537 | One pass stores its transfers and claims coverage only when it was neither cut nor failed and its last writes succeed |
| AddressSync.AddressRecord.Enqueue | internal/syncer/manager.go:110-146 | A new job starts from the checkpoints of a failed or stopped job of the same start, and from none otherwise; other jobs stay as they are |
| AddressSync.AddressRecord.Process | internal/syncer/manager.go:228-334 | A processed job takes exactly the specified step |
| JobQueue.EveryInterleaving | internal/syncer/manager.go:124-159 | Under every interleaving active keys are exactly the keys of live jobs with their ids, a job is in one place, the queue fits, jobs are taken in push order, and every admitted job is live or was released once |
| JobQueue.ReleaseOwnEntry | internal/syncer/manager.go:816-820 | A release by key removes the releasing job's own entry and no other |
| JobQueue.OneJobPerKey | internal/syncer/manager.go:124-129 | Two live jobs never share a key, and a live key is not admitted again |
| JobQueue.NeverStranded | internal/syncer/manager.go:148-216 | From every reachable state every live job can still be released |
| JobQueue.Manager.Admit | internal/syncer/manager.go:124-146 | An active key answers with the id of its job, another one gets a fresh id |
| JobQueue.Manager.Push | internal/syncer/manager.go:148-158 | The job enters the channel exactly when there is room |
| JobQueue.Manager.Take | internal/syncer/manager.go:205-216 | The oldest queued job is processed |
| JobQueue.Manager.Release | internal/syncer/manager.go:816-820 | The entry of the job's key goes, and the job is accounted as released |
| Retry.RequestedOnce | internal/tracer/manager.go:242-330 | However the repository answers, a job requests each range once, but for the one it began with, which is requested again exactly when a trace reports it; an address is given up only after a request for it in the loop |
| Retry.JobHistory | internal/tracer/manager.go:242-330 | A job has failed exactly when a synchronisation it asked for failed; it has given up exactly the addresses of ranges reported once more after they were asked for, and is partial exactly then |
| Retry.GuardedHalts | internal/tracer/manager.go:396-435 | Where given-up addresses are not reported again, the loop ends within as many rounds as there are dependencies and addresses |
| Retry.RootHaltsUnlessStuck | internal/tracer/manager.go:281-330 | The loop of a root trace ends if and only if it does not reach a point from which a seed asked for once is never ready again |
| Retry.FixedSeedHalts | internal/tracer/manager.go:242-330 | While the seed's state does not change: the job ends if and only if the seed is ready or a synchronisation of it fails |
| Retry.Resolve | internal/tracer/manager.go:396-435 | The loop with its two maps runs those rounds to an end |
| TraceRetry.TraceReports | internal/tracer/tracer.go:462-470 | A trace reports its seed exactly when the seed is not ready, otherwise an address neither given up nor ready, and it ends only when every far end of an edge is one or the other |
| TraceRetry.TraceJobEnds | internal/tracer/manager.go:281-330 | The job around a trace of a changing repository ends under the same two conditions |
| TraceRetry.SeedRequestedTwice | internal/tracer/manager.go:242-330 | Of all ranges only the open range of the seed is requested twice, exactly when a trace that runs finds the seed not ready; for a seed that stays ready once it is: when the first trace does |
| TraceRetry.ResolveTrace | internal/tracer/manager.go:281-330 | The loop around a trace whose seed is ready runs to its end |
| ExtensionRetry.ExtensionReports | internal/tracer/extension.go:85-140 | An extension never reports a given-up address; what it reports is the far end of a stored transfer, in the block of that transfer |
| ExtensionRetry.ExtensionAsks | internal/tracer/extension.go:108-123 | An extension is retried exactly when it misses an address: for blocks from that of a stored transfer on when it looks outwards, up to it when inwards |
| ExtensionRetry.BoundsOfAnchors | internal/tracer/manager.go:469-482 | The first range is that of all anchors: from the least first block there is, up to the greatest last block |
| ExtensionRetry.ExtensionJobEnds | internal/tracer/manager.go:368-435 | Whatever is stored and answered, an extension job ends, within a number of rounds given by the stored transfers, and requests each range once but for the first |
| ExtensionRetry.ResolveExtension | internal/tracer/manager.go:396-435 | Its loop, with the two maps, runs to that end |
| TraceSound.TrailShape | internal/tracer/tracer.go:378-386 | The path of a trail visits its far ends in order, each step a recorded edge in the traced direction, with blocks going one way |
| TraceSound.EdgeLinked | internal/tracer/tracer.go:378-386 | A recorded edge continues the trail of the branch that records it |
| TraceSteps.VisitKeeps | internal/tracer/tracer.go:342-509 | A visited candidate keeps nodes, edges, trails, keys and money states sound, loses nothing, and queues a branch only with a branch state not met before |
| TraceSteps.VisitLoose | internal/tracer/tracer.go:342-509 | It leaves no open node without an edge from it or a branch still to be looked at |
| TraceRun.LevelKeeps | internal/tracer/tracer.go:323-619 | A level keeps all that, and meets a new branch state if it queues any branch |
| TraceRun.TraceSettles | internal/tracer/tracer.go:323-626 | Every trace ends, without a bound on depth; then nodes are distinct and at most 5000, both ends of every edge are nodes, every node is closed with a reason or has an edge from it, and there is one pair of money states for each edge |
| TraceRun.PathsAreRecorded | internal/tracer/tracer.go:378-386 | The path of every edge starts at the seed, ends at its far end, has depth plus one addresses, consists of recorded steps, and keeps time |
| TraceFlow.VisitPays | internal/tracer/tracer.go:365-377 | A recorded transfer is paid from the amount left of the branch, and a queued branch carries no more than its edge |
| TraceFlow.FlowNeverGrows | internal/tracer/tracer.go:337-384 | Per direction and asset, the transfers recorded at depth k+1 carry no more than all edges at depth k, for every k from 1 on |
| TraceOnce.EdgesAreDistinct | internal/tracer/tracer.go:893-895 | Below the node limit no two edges to a nonzero address share far end, direction, asset, block and transaction |
| TraceComplete.ExpandMeets | internal/tracer/tracer.go:342-389 | Expanding a branch passes over an eligible transfer only if its branch state is met, the node limit is reached, or less money than it moves was left and that was nothing or below the threshold |
| TraceComplete.SeedTransfersTraced | internal/tracer/tracer.go:514-612 | For every eligible transfer of an open seed the finished trace has an edge from the seed at depth 1, in full amount, of the first stored transfer with the same far end, asset, block and transaction, unless the node limit was reached |
| TraceComplete.FirstRivalSorted | internal/tracer/tracer.go:342-384 | Sorting by block keeps the first of several transfers of one branch state the first |
| TraceReady.TraceIsSourced | internal/tracer/tracer.go:342-470 | In a finished trace every edge is a stored transfer, or the output of a conversion, of a supported asset and an amount above the threshold, in full or in part, and its far end needs no further synchronisation |
| TraceReady.ExpandStops | internal/tracer/tracer.go:462-470 | An expansion ends in a missing address if and only if a candidate has its turn, is worth an edge with the money left, and its far end is not ready; that one is reported, with its direction and block |
| TraceFollow.TraceFollows | internal/tracer/tracer.go:323-619 | Below the node limit every edge to an address that is not terminal was followed: its node is closed, or every transfer that continues it is met, or its amount has gone on but for a rest too small to trace; a contract was analysed |
| TraceFollow.ShownIsSkipped | internal/tracer/tracer.go:539-545 | A branch at a contract whose swap has both legs recorded, or brings out too little, adds no edge, money, node or branch |
| TraceReasons.ReasonsHold | internal/tracer/tracer.go:288-626 | In a finished trace every stop reason is true of its node, and a cap, the node limit or an address with missing data marks the trace as partial |
| TraceReasons.LevelCloses | internal/tracer/tracer.go:614-618 | A level closes for want of transfers exactly open nodes where a branch was expanded and no edge of the level leaves; a reason given by a branch of the level stands |
| TraceReasons.ClosedIsSkipped | internal/tracer/tracer.go:518-520 | A branch that comes to a closed node is dropped, whatever closed it and whatever it asks for |
| TraceOrder.BranchInLine | internal/tracer/tracer.go:330-385 | A branch spends its money on transfers in the order of blocks: the earliest first outwards, the latest inwards |
| TraceOrder.LevelIgnoresQueue | internal/tracer/tracer.go:323-326 | The order in which branches were queued is of no consequence to a level, where their keys tell them apart |
| TraceMoney.MoneyOfEdges | internal/tracer/tracer.go:389-393 | The money states of a finished trace are two for each edge: the sender's account gives the amount out and the recipient's takes it in, in block, transaction and path of the edge |
| TraceMoney.TraceBalances | internal/tracer/tracer.go:389-393 | Over a whole trace the ledgers of an asset take in what they give out, and money states are undrawn before matching |
| TraceMoney.BookedIsTotal | internal/tracer/tracer.go:647-680 | Ledgers book every money state once, on the ledger of its account |
| Tracer.Expand | internal/tracer/tracer.go:330-512 | The expansion loop visits the candidates in block order with the specified outcome |
| Tracer.ExpandBranch | internal/tracer/tracer.go:514-612 | One frontier branch: skipped, converted, capped or expanded as specified |
| Tracer.TraceLevel | internal/tracer/tracer.go:323-619 | One level over the sorted frontier computes the specified level |
| Tracer.TraceLevels | internal/tracer/tracer.go:255-625 | The level loop terminates and computes the specified trace |
| Tracer.TraceSameChain | internal/tracer/tracer.go:255-638 | Then the money states are matched and one ledger is made for each account, with the least opening balance that covers its outflows in the order of blocks; the trace is reconciled if and only if none is needed |
| Fifo.StableSortSound | internal/tracer/tracer.go:683-688 | Sorting brings the states of an account together in ascending order of blocks, loses none, keeps those of one block in place |
| Fifo.DrawFromHead | internal/tracer/tracer.go:701-717 | Drawing from the oldest inflow is taking from the account's inflows in order |
| Fifo.OutflowMatched | internal/tracer/tracer.go:700-718 | What one outflow leaves unmatched is the growth of the running deficit |
| Fifo.MatchOutflow | internal/tracer/tracer.go:700-718 | The inner loop over the queue matches one outflow in place |
| Fifo.ConsumeMoneyStates | internal/tracer/tracer.go:682-721 | In place, the states come into the order of accounts and blocks, matched in closed form |
| Ledgers.LeastOpening | internal/tracer/tracer.go:660-668 | An opening balance keeps the account from going negative if and only if it is at least the largest prefix deficit |
| Ledgers.FifoIsOptimal | internal/tracer/tracer.go:682-721 | No matching that draws on earlier inflows only, within their capacity, leaves less unexplained |
| Ledgers.FifoIsMatching | internal/tracer/tracer.go:682-721 | FIFO is such a matching: no outflow draws on a later inflow, each takes and gives exactly what the matched amounts say, and none explains more |
| Ledgers.Conservation | internal/tracer/tracer.go:682-721 | Per account, what is drawn from inflows is what outflows receive |
| Ledgers.OldestFirst | internal/tracer/tracer.go:701-717 | Inflows end as an exhausted prefix, at most one partly used, and an untouched suffix |
| Ledgers.OutflowBounds | internal/tracer/tracer.go:718-719 | An outflow's remaining amount lies between zero and its amount |
| Ledgers.BuildLedgers | internal/tracer/tracer.go:647-680 | The loop over the states builds one ledger for each account that occurs |
| Ledgers.LedgerLaw | internal/tracer/tracer.go:660-671 | Opening and unexplained amounts are the largest deficit, outgoing is explained plus unexplained, and a ledger is complete exactly without a deficit |
| Ledgers.ReconciledIsSolvent | internal/tracer/tracer.go:629-636 | All ledgers are complete if and only if every account is solvent without an opening balance |
| Ledgers.FreshInflow | internal/tracer/tracer.go:671-673 | For undrawn states the capacity that comes in is the incoming amount |
| LedgerTime.LeastOpeningInTime | internal/tracer/tracer.go:647-721 | Over the states in any order: a balance covers what an account gives out at every moment, by block and by order within the block, if and only if it reaches the opening amount of its ledger; the ledger is complete if none is needed |
| LedgerTime.DrawsInTime | internal/tracer/tracer.go:682-721 | No outflow draws on an inflow of a later block, and an inflow is touched only when those of earlier blocks are exhausted |
| Extension.AnchorSums | internal/tracer/extension.go:220-255 | There is an anchor exactly for each entering asset, with the sum of the entering amounts and the path of an entering edge |
| Extension.AnchorExtremes | internal/tracer/extension.go:226-246 | Its path is that of the first shortest entering edge, and its bound the earliest entering block outwards, the latest inwards |
| Extension.ExtendBranch | internal/tracer/extension.go:45-167 | The search for the node and the loops over anchors and transfers compute the specified extension or refusal |
| Extension.ExtensionSound | internal/tracer/extension.go:45-167 | It is refused exactly for a missing or closed node or one that no edge enters. Otherwise in each asset it carries no more than the edges entering the node brought; its edges leave the node and continue an entering path, their ends are distinct nodes, and a node that stays open has an edge |
| ExtensionComplete.ExtensionRecords | internal/tracer/extension.go:63-162 | An extension is done if and only if no transfer that counts has a far end that is not ready, and records exactly the edges of those that count, each with its share of the amount that entered; else the first one missed is reported |
| ExtensionComplete.TransfersExtended | internal/tracer/extension.go:85-140 | Every eligible transfer an anchor asks for has its edge, in its amount or in what the ones before it left of the amount that entered, unless that is nothing or below the threshold |
| ExtensionComplete.AsksSpelled | internal/tracer/extension.go:66-84 | An anchor asks for the stored transfers of its asset on its side of the node, from its first block on or up to its last, in that order |
| ExtensionComplete.EntersTraced | internal/tracer/extension.go:222-226 | An edge of a trace enters the node if and only if it was traced to it in the direction of the request, or is a transfer to itself |
| ExtensionComplete.ExtensionMarks | internal/tracer/extension.go:75-162 | An extension is partial exactly when an anchor asks for too many transfers or an edge leads to a given-up address; new nodes are closed exactly where the address is terminal |
| Merge.AppendUniqueLoop | internal/tracer/extension.go:360-386 | The loop with a set of keys appends what is new |
| Merge.AppendUniqueSound | internal/tracer/extension.go:300-321 | Current elements stay in front, new keys follow once each in order, every key is there in the end |
| Merge.NewInOrder | internal/tracer/extension.go:300-321 | New elements come in the order of their first appearance |
| Merge.AppendNodeLoop | internal/tracer/extension.go:273-294 | The search finds the node and updates it in place, or appends it |
| Merge.MergeNodesClosed | internal/tracer/extension.go:273-300 | Merged nodes in closed form: the root's in place, the others in order of appearance, each with the latest of every kind of knowledge and all roles |
| Merge.MergeNodesKeeps | internal/tracer/extension.go:298-300 | Root nodes keep place and depth, stay closed, and only gain roles |
| Merge.MergeNodesTwice | internal/tracer/extension.go:273-300 | Merging the same nodes again changes nothing, whatever the lists repeat |
| MergeResult.MergeInto | internal/tracer/extension.go:296-339 | The whole merge: nodes, edges, paths, money transfers, labels, and the money states sorted, matched and reconciled |
| MergeResult.MergeKeepsRoot | internal/tracer/extension.go:296-339 | The root is the beginning of the result, every extension edge is there by its key, and merging the same extension again changes only the matching of the money states |
| MergeResult.MergeJoins | internal/tracer/extension.go:296-394 | Spelled out: edges are joined by all but depth and direction, transfers and money states by all but amounts, labels by all but text; the joined states are sorted and matched; partial if one of both was; reconciled if no account needs an opening balance |
| MergeResult.MoneyMergedTwice | internal/tracer/extension.go:326-330 | A second merge appends no money state; it matches them once more |
| MergeTrace.TraceIsSound | internal/tracer/tracer.go:323-626 | A finished trace has distinct nodes, both ends of every edge among them, and paths of recorded edges from the seed |
| MergeTrace.ExtendAndMerge | internal/tracer/extension.go:45-339 | Extending and merging keeps that, any number of times |
| Rematch.RematchLedger | internal/tracer/extension.go:326-338 | A ledger survives a second matching if and only if the leftovers of its inflows could at every moment pay all its outflows again; otherwise more is unexplained |
| Rematch.MergedLedger | internal/tracer/extension.go:326-338 | After a merge a ledger is that of one matching of all states if and only if what the inflows still offer covers it; otherwise explained outflows turn unexplained |
| Rematch.UntouchedLedger | internal/tracer/extension.go:326-338 | An account that gets no new states has its states matched once more |
| Rematch.RematchKeeps | internal/tracer/extension.go:326-330 | All states keep their remaining amounts in a second matching if and only if nothing had been explained |
| Rematch.PaymentAgain | internal/tracer/extension.go:326-338 | One inflow and one outflow: the ledger survives if and only if the inflow is at least twice the outflow, or nothing |
| Decimal.CompareIsNumeric | internal/store/store.go:865-881 | On all digit strings, leading zeros or none, the comparison is that of the numbers |
| Decimal.TextIsLexicographic | internal/store/store.go:880-880 | The order of texts is that of a dictionary |
| Decimal.SameLength | internal/store/store.go:880-880 | Digit strings of one length compare as text like numbers |
| Decimal.TextValue | internal/store/store.go:657-657 | The printed total of a group reads back as its value |
| BoundedHeap.RootIsWorst | internal/store/store.go:804-815 | The root of the heap is its worst element |
| BoundedHeap.PushUp | internal/store/store.go:658-661 | Pushing keeps the heap and its elements |
| BoundedHeap.ReplaceDown | internal/store/store.go:662-665 | Replacing and fixing the root does too |
| BoundedHeap.Offer | internal/store/store.go:653-666 | The heap holds the n best of the stream so far |
| BoundedHeap.SortedUnique | internal/store/store.go:707-707 | Sorted sequences of the same elements are equal when the order tells them apart |
| BoundedHeap.HeldIsBest | internal/store/store.go:704-708 | What the heap holds, sorted, are the n best of the stream: nothing left out is better |
| BoundedHeap.HeldIsFirst | internal/store/store.go:704-708 | Where the order tells elements apart, they are the first n of everything sorted |
| BoundedHeap.SelectBest | internal/store/store.go:722-746 | Streaming through the heap selects the n best, and is sorting and taking the first n where elements are told apart |
| Counterparties.SummaryOrder | internal/store/store.go:828-835 | The order of summaries is strict and weak, and tells different counterparties apart |
| Counterparties.TransferOrder | internal/store/store.go:849-863 | The order of transfers is strict and weak |
| Counterparties.BetterInNumbers | internal/store/store.go:849-863 | One transfer is listed before another exactly if its number is larger, or equal and its identity smaller |
| Counterparties.IdentityTellsApart | internal/store/store.go:849-863 | Rows that differ in transaction, source, trace or log index are told apart |
| Counterparties.RunsGroup | internal/store/store.go:680-685 | Over rows in index order there is one run for each counterparty, with all its rows in order |
| Counterparties.FoldSums | internal/store/store.go:686-700 | A summary has the exact total and count, the block span, a row of the latest block, a representative that no row beats, and the display data of the last row that has them complete |
| Counterparties.TopCounterparties | internal/store/store.go:637-709 | One pass gives the first n of the sorted summaries: each describes all rows of its counterparty, who pays whom, sum, number, blocks, latest and largest row and display data; none twice; descending; and none left out has a larger sum. It fails exactly on an unreadable amount or n of zero |
| Counterparties.TopRelationshipTransfers | internal/store/store.go:711-747 | One pass gives the n largest transfers, in descending order of their numbers, the first n of all sorted where rows are told apart |
| Counterparties.TopMeansLargest | internal/store/store.go:828-835 | Listed totals are at least the totals further down, as numbers |
| Pages.ConditionIsOrder | internal/store/store.go:938-960 | The six clauses hold exactly for the rows that come after the cursor in the sort order |
| Pages.SortIsNewest | internal/store/store.go:919-919 | One row is shown before another exactly if its block is later, or the same and its identity larger |
| Pages.CursorLeavesRest | internal/store/store.go:914-918 | Selecting after the k-th row leaves exactly the rows behind it |
| Pages.Edges | internal/fundgraph/graph.go:82-107 | A page shows up to its size of the rows asked for and has a next cursor exactly when one more came back; a cursor without transaction, source or asset is refused |
| Pages.PageAt | internal/fundgraph/graph.go:87-106 | From the k-th row on, a page is the next stretch of the sorted list and its cursor the last row shown |
| Pages.PagesAreComplete | internal/fundgraph/graph.go:82-107 | For every page size and unique identities, following the cursor gives every row once, newer ones first, if and only if no page ends with a row whose cursor is refused; rows with transaction, source and asset never do |
| OutputRoute.ChainUnique | internal/transactionanalysis/service.go:849-870 | A chain of hops that ends is determined by its start |
| OutputRoute.NoReturn | internal/transactionanalysis/service.go:848-857 | It never returns to where it was |
| OutputRoute.ResolveIsChain | internal/transactionanalysis/service.go:835-872 | An address is resolved if and only if a chain of single hops leads to it from the pool's only recipient and ends there, and there is one such chain |
| OutputRoute.ResolveSpelled | internal/transactionanalysis/service.go:835-872 | In transfers: there is no output exactly when the pool pays it to nobody, and an address is the output exactly when the pool pays one address, each passes the token on to one next, and the address keeps it |
| OutputRoute.ResolveOutput | internal/transactionanalysis/service.go:835-872 | The loop terminates, with an answer that depends on the set of transfers only |
| OutputRoute.SameSetSameRoute | internal/transactionanalysis/service.go:835-872 | Every permutation of the transfers gives the same route |
| Conversion.RouteDecides | internal/transactionanalysis/service.go:797-833 | The checks of the route together are the condition for a conversion |
| Conversion.Analysis.ResolveSwaps | internal/transactionanalysis/service.go:798-807 | Verified swaps get their resolved output in place, and an ambiguous one is noted |
| Conversion.Analysis.FinalizeRoute | internal/transactionanalysis/service.go:797-833 | The analysis stays complete exactly when the route is convertible, and then names its end |
| Conversion.Analysis.AppendUniswapConversion | internal/transactionanalysis/service.go:647-653 | A complete analysis with swaps gets one conversion from first to last token |
| Conversion.Analysis.Interpret | internal/transactionanalysis/service.go:306-307 | A conversion is emitted exactly when all swaps are verified and unambiguous, tokens join, and the end is no known contract; its recipient is the end of the chain of hops |
| RouterCall.HexRoundTrip | internal/transactionanalysis/service.go:375-375 | Decoding hexadecimal text undoes encoding it |
| RouterCall.HexInAnyCase | internal/transactionanalysis/service.go:375-375 | Capital digits are decoded as well |
| RouterCall.ArgumentsRoundTrip | internal/transactionanalysis/service.go:379-399 | The decoders find the words and the dynamic string where the standard encoding puts them |
| RouterCall.TransferOutRoundTrip | internal/transactionanalysis/service.go:455-510 | Decoding an encoded transferOut gives back destination, asset, amount and memo for every memo length |
| RouterCall.DepositRoundTrip | internal/transactionanalysis/service.go:371-419 | Decoding an encoded depositWithExpiry gives back vault, amount and memo exactly when the asset is the zero address and the memo names a bitcoin address |
| RouterCall.MemoNamesAction | internal/transactionanalysis/service.go:495-508 | The word before the first colon of an outbound memo, in any case, says which action the call is |
| RouterCall.MemoNamesDestination | internal/transactionanalysis/service.go:401-411 | An inbound memo names a bitcoin address exactly by its first three parts |
| RouterCall.TrimSpelled | internal/transactionanalysis/service.go:402-408 | Blanks around a part are cut off, and nothing else |
| RouterCall.CaseSpelled | internal/transactionanalysis/service.go:402-408 | A letter and its capital are one letter, nothing else becomes one |
| RouterCall.ArgumentsSpelled | internal/transactionanalysis/service.go:372-375 | The data of a call are hexadecimal behind the selector, with or without another 0x |
| RouterCall.CallsAreSelected | internal/transactionanalysis/service.go:371-411 | A call is read exactly if it succeeded, was made to the router, begins with its selector, and its data hold the words and a string that lies within them; a deposit needs a destination and the zero address besides |
| GraphEdges.GroupEdges | web/src/graph/model.ts:184-251 | One group for every key, with ends, chain, kind, transaction and evidence of its first edge, amount, count and hashes of all of them, their exact block span if all have blocks, and the last time that any has |
| GraphEdges.CombineSwapEdges | web/src/graph/model.ts:266-314 | In every order each grouped edge is shown exactly once, as itself or as one leg of one swap; a combined swap is verified and its legs join; a swap that one edge alone may feed is combined with it unless that edge feeds another, which then takes it; a combined swap leaves no other free input |

## Left out

- SyncJobs.ReachableTrue: covers unlimited mode and single-address jobs; neighbour synchronisation writes into the checkpoint map of the job's own address and does not keep the invariant.
- RecentFetch.FetchRecentSound: newest-first mode is proved by itself; a saved checkpoint caps every later gap there, so a resumed newest-first run can skip blocks.
- SyncJobs.StepTrue: the fallback that guesses checkpoints for job documents without any is not modelled; the guess is sound only for addresses whose three actions are covered alike.
- RangeFetch.FetchRangeSound: a batch is written whole or not at all; the history does not change while it is read, so chain reorganisations are outside.
- Paging.SyntheticApart: the hash behind a synthetic log index is an arbitrary function; that it never collides is not claimed.
- RecordLimit.KeepsTrackIsExact: speaks of histories that can be fetched at all; an unreadable row or an overfull block ends every fetch that meets it with an error, which may hide a cut before it.
- LimitedRun.ClaimsExact: varies the token history, the last action, with rows of different identities; the earlier actions use up the cap.
- JobQueue.EveryInterleaving: states safety, and NeverStranded that a job can be released; that a fair schedule does so is not claimed. The sticky status "stopped" and the release of a root trace stopped while queued are not kept by the code.
- ExtensionRetry.ExtensionJobEnds: the transfers that the repository holds during the job are finitely many.
- Retry.RequestedOnce: saving the job document between rounds is not modelled; a failing save ends the loop like a failing synchronisation.
- TraceRun.TraceSettles: cross-chain edges, router-call annotation and the marking of vaults are outside; what a contract converts is an oracle with finitely many outcomes, each touching the contract and lying in its transaction's block.
- TraceFlow.FlowNeverGrows: conversions bring new money into an asset and are counted on the larger side only.
- TraceComplete.SeedTransfersTraced: for deeper branches the budgets decide; ExpandMeets states what they may pass over.
- Ledgers.FreshInflow: holds for undrawn states only; merged results carry drawn ones, see Rematch.RematchLedger.
- Fifo.ConsumeMoneyStates: an account is an address and asset pair numbered in the order of their joined text; two pairs with the same joined text are not distinguished by the sort.
- Extension.ExtendBranch: the separate path through the THORChain router is not modelled.
- Extension.ExtensionSound: the depth of an extension's edges is that of the node plus one, which need not be the length of their paths; nothing is claimed about it.
- MergeResult.MergeKeepsRoot: keys joined with separators are taken as tuples, on one chain.
- Counterparties.TopCounterparties: amounts are digit strings; the library also reads a leading sign.
- Pages.Edges: the text form of a cursor, base64 over JSON, is not part of this model.
- RouterCall.DepositRoundTrip: upper and lower case and white space are those of ASCII.
- GraphEdges.CombineSwapEdges: hops, flow directions, asset names and display decimals of the graph are outside; the identifier of a combined edge never equals that of a grouped one.
- Thresholds, supported assets, labels, known addresses, coverage of other addresses and analyzer answers are parameters of the trace's world.
- HTTP handlers, JSON-RPC, MongoDB calls, rate limits, retries with backoff, clocks, cache lifetimes, progress counters and layout: no deep invariant.
- THORChain, MAYAChain and Relay verifiers, BitTorrent bridge and RFQ parsing: comparisons of remote fields that one branch settles.
- Profile and risk scoring, label validation: finite tables.
- Signed words and log parsing of swaps: single conversions without a property across functions.
