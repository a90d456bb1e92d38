# cfwdon in Dafny

A model of the parts of cfwdon, a Mastodon-compatible server on Cloudflare Workers, whose correctness is an argument and
not a lookup, with proofs. The repository explores small finite instances of some of these protocols (two delivery slots,
eight pool cells, two outcomes); here they are proved for any number of rows, slots, runs and steps. The rest are the
real algorithms of its workers and scripts. Check everything with `dafny verify dfyconfig.toml`.

| file | what it models |
|---|---|
| `DeliveryRules`, `DeliveryPool` | retry rules of one delivery, many deliveries in any order, and the histogram that stands for them |
| `OutboxTargets`, `OutboxQueue` | the inboxes an activity fans out to; the outbox table and its self-continuing drain |
| `BackgroundJobs`, `BackgroundJobTable` | the job queue as a concurrent protocol of atomic statements; the worker's functions as runs of it |
| `AppCache`, `AppCacheRaces` | capability bits cached over the database and the queries they guard; the same with overlapping operations |
| `FollowPaging` | cursor paging over two merged lists |
| `SqlWith`, `SqlFamily` | naming a query after its outer statement, with its literals erased |
| `HtmlText`, `Entities`, `StatusHtml`, `Mentions` | taking tags out of HTML, HTML entities, making untrusted markup safe, hashtags and account handles |
| `ModuleLayers` | the largest strongly connected component of the import graph, and the layer check |
| `DumpSplitter` | foreign-key order of a dump and its parts |
| `RouteParser` | the frame-stack reader of the Rails routes |
| `UsePrefixes`, `UseLines`, `UseTrees`, `MergeUses`, `MergeImports`, `MergeKeys`, `MergeTrees` | reading, merging and writing `use` lines; what they import, nested lists included, and the prefixes they are read under afterwards |
| `Graphs`, `Sequences`, `Text`, `Wrappers` | reachability, first occurrences, character classes, optional values |

Code that changes things step by step is a class with methods or a method with a loop, proved against functions or
relations on values; what the source promises is then proved about those.

## What turned out not to hold

- **A cached bit can outlive the rows it reports.** Deleting a status drops other accounts' bookmarks and thread mutes by
  `ON DELETE CASCADE` (migrations/016_bookmarks.sql:10-11, migrations/039_thread_mutes.sql:7;
  crates/cfwdon-worker/src/statuses/status_delete.rs:94, crates/cfwdon-worker/src/store/statuses/remote_mutations.rs:36,
  crates/cfwdon-worker/src/relays.rs:313) and invalidates nothing. `DeletedBookmarkIsStillReported` is such a run,
  `BitsRightIff` the exact condition for each bit, in any run. No query is skipped wrongly for it: these bits never deny
  rows there are, and the other three are exact (`RunsKeepKvSound`, `RoutedRunsReadTrue`).
- **Queue and cron runs can read a stale first-level cache.** Only the router clears it
  (crates/cfwdon-worker/src/router.rs:21; not crates/cfwdon-worker/src/delivery.rs:209-215 nor
  crates/cfwdon-worker/src/lib.rs:157-162), so an isolate that consumes queue batches can keep missing a new domain block.
  `GuardedListRightIff` says when, over all histories; `QueueRunMissesBlock` is one.
- **A failed delivery has not always used five attempts.** A permanent rejection ends it at once
  (`RejectedRowSpentOneAttempt`); `FailedRowsSpentAllAttempts` gives the exact condition.
  (crates/cfwdon-domain/src/delivery.rs:81-92; the property at crates/cfwdon-models/src/concurrent_delivery.rs:91-118 is
  explored with success and transient failure only.)
- **An administrator's retry can put two live job rows under one key.** It revives a failed row without looking for
  another live one; `StepKeepsUniqueIff` says it breaks uniqueness exactly then, `RetryCanDuplicate` is a run. Retried
  jobs also pass five attempts, by one per retry (`ClaimsAreBounded`).
  (crates/cfwdon-worker/src/admin_api/jobs.rs:119-131)
- **A job run that outlives its reclaim can do the same**, since its finishing UPDATE names only the id.
  `LateWriteKeepsUniqueIff` gives the condition, `LateWriteCanDuplicate` a run that loses its row to a reclaim and then
  writes. (crates/cfwdon-worker/src/background_jobs.rs:228-231, 258-265)
- **A first table expression called `recursive` is taken for the keyword.** `WithListSkippedIff` gives the exact condition,
  `RecursiveIsMisread` a family of such queries.
- **Of two pending requests with one cursor, paging loses the second when a page ends between them**, and only then
  (`WalkVisitsAllIff`, per page size). Cursors are distinct for distinct (second, rowid) only while rowids stay below a
  million (`CursorOrderIff`), and a local and a remote row of the same second can share a rowid: with two of them pending,
  a page size of one shows the first only, any other both (`CollidingRequestIsSkipped`).
- **The dump splitter reports one data part too many** exactly when nothing is left over behind the last full part
  (`SplitData`), as without any data (`ReportIsOneTooMany`). And its file names sort like its parts only below a hundred
  parts (`NamesInOrderIff`), while docs/operations/cloudflare-deploy.md:160 runs them in order.
- **Merging `use` lines changes what is imported** when a group of several items holds one that is blank or has a comma,
  or a lone item has blanks behind its segments or is blank behind a single one (`GroupKeepsPathsIff`; for a whole run
  `RunKeepsPathsIff`). Lines as rustfmt writes them are not like that (`TidyRunKeepsPaths`), and files of
  well-formed use trees keep all they import (`MergedFileKeepsImports`).
- **Merged `use` lines can share a prefix.** An item alone under its key that is blank or begins with `ident::` is read
  again under another prefix. The lines are read under the keys they were written for if and only if no group is like that
  (`KeysReadBackIff`), and there is one line per key if and only if no two groups are read under one (`OneLinePerKeyIff`).
  `use a::{b::c};` and `use a::b::d;` become two lines under `a::b::` (`SegmentsCollide`, `TwoLinesForOneKey`).
- **Merging can move a `use` line away from its attribute.** Only an attribute's first line, right in front, is seen
  (`GuardSeenIff`); behind a comment, or behind an attribute of several lines as at
  crates/cfwdon-worker/src/timelines/request_parsing.rs:46, the guarded line joins a run (`GuardMissed`).

## Model

| member | source | states |
|---|---|---|
| DeliveryRules.ReplayIsVerdict | crates/cfwdon-domain/src/delivery.rs:110-174 | after any sequence of outcomes a row is what its leading transient failures and the one outcome behind them decide: failed at five, else queued, delivered or rejected early with exactly that many attempts |
| DeliveryRules.ReplayBounds | crates/cfwdon-domain/src/delivery.rs:110-174 | no row passes five attempts, and it is queued if and only if all its fewer than five outcomes were transient failures |
| DeliveryRules.FailedRowsSpentAllAttempts | crates/cfwdon-models/src/concurrent_delivery.rs:91-118 | a failed row has used all five attempts if and only if no permanent rejection ended it earlier |
| DeliveryRules.RejectedRowSpentOneAttempt | crates/cfwdon-domain/src/delivery.rs:85-92 | a row that failed after one attempt |
| DeliveryRules.DeliveredIff | crates/cfwdon-domain/src/delivery.rs:81-92 | by HTTP answers: delivered exactly when one of the first five is in the 200s and all before it ask for a retry |
| DeliveryRules.SlotsAreIndependent | crates/cfwdon-models/src/concurrent_delivery.rs:52-63 | for any number of slots and any interleaving, each slot ends as its own outcomes alone decide |
| DeliveryRules.ApplyAttempt | crates/cfwdon-models/src/concurrent_delivery.rs:52-63 | an attempt is taken exactly when the slot is queued and changes that slot only |
| DeliveryPool.CountAfterUpdate | crates/cfwdon-models/src/outbox_delivery_pool.rs:41-68 | changing one row moves a count by exactly the difference between that row before and after |
| DeliveryPool.BucketsCoverRows | crates/cfwdon-models/src/outbox_delivery_pool.rs:35-39 | every row is in exactly one bucket, so the buckets add up to the number of rows |
| DeliveryPool.RoomForOne | crates/cfwdon-models/src/outbox_delivery_pool.rs:54-66 | moving a row never overflows the counter it moves to |
| DeliveryPool.Pool.constructor | crates/cfwdon-models/src/outbox_delivery_pool.rs:74-82 | the initial pool stands for that many queued rows without attempts |
| DeliveryPool.Pool.TotalSlots | crates/cfwdon-models/src/outbox_delivery_pool.rs:35-39 | the total is the number of rows stood for, in every state of every run |
| DeliveryPool.Pool.ApplyOutcome | crates/cfwdon-models/src/outbox_delivery_pool.rs:41-68 | applies exactly when some queued row has that attempt number, and whichever such row is meant, the pool then stands for the rows with it attempted: the guard on the bucket index drops no row |
| DeliveryPool.RunPool | crates/cfwdon-models/src/outbox_delivery_pool.rs:84-110 | the pool simulates the rows through any run with all three outcomes |
| OutboxTargets.UnblockedMeaning | crates/cfwdon-worker/src/domain_blocks.rs:84-112 | the filter keeps, in order and as often as they were there, exactly the inboxes whose host is neither a blocked domain nor under one |
| OutboxTargets.BlockCovers | crates/cfwdon-worker/src/domain_blocks.rs:84-112 | an inbox is blocked if and only if its host is, but for case, one of the blocked domains or ends in a dot and one of them |
| OutboxTargets.WithRelaysMeaning | crates/cfwdon-worker/src/delivery.rs:306-322 | follower inboxes stay in front, and behind them each relay that is not among them stands once |
| OutboxTargets.WithRelaysTwice | crates/cfwdon-worker/src/delivery.rs:306-322 | a second relay candidate of the account adds nothing |
| OutboxTargets.AddMissingRelays | crates/cfwdon-worker/src/delivery.rs:317-321 | the loop over relays adds exactly the missing ones |
| OutboxTargets.PlanTargets | crates/cfwdon-worker/src/delivery.rs:290-323 | an account is planned its unblocked follower inboxes, with the relays if and only if the batch holds a relay candidate of that account, and is absent when that leaves nothing |
| OutboxTargets.PartitionByTargets | crates/cfwdon-worker/src/delivery.rs:381-396 | the loop yields the deliveries with targets and those without |
| OutboxTargets.PartitionMeaning | crates/cfwdon-worker/src/delivery.rs:381-396 | every claimed parent is on exactly one side, the right one |
| OutboxTargets.SelectedOfConcat | crates/cfwdon-worker/src/delivery.rs:381-396 | each side keeps the order of the batch |
| OutboxQueue.SendFollowsRules | crates/cfwdon-worker/src/delivery/process_batch.rs:150-250 | the worker's bookkeeping of a send is the domain's retry rule, for every outcome and attempt count |
| OutboxQueue.RequeueMeasure | crates/cfwdon-worker/src/delivery/store_state.rs:149-172 | requeueing stale rows raises neither the open parents nor the attempts left, and revives nothing closed |
| OutboxQueue.ClaimMeasure | crates/cfwdon-worker/src/delivery/store.rs:74-130 | claiming changes neither |
| OutboxQueue.ExpandMeasure | crates/cfwdon-worker/src/delivery.rs:343-379 | a fan-out lowers the open parents although it adds rows |
| OutboxQueue.SendMeasure | crates/cfwdon-worker/src/delivery/process_batch.rs:92-256 | sending lowers the attempts left and leaves parents alone |
| OutboxQueue.AppendKeepsRows | migrations/100_outbox_deliveries_nullable_status_id.sql:63 | an insert of an inbox the activity does not have keeps one row per activity and inbox |
| OutboxQueue.OldRowAfterBatch | crates/cfwdon-worker/src/delivery/process_batch.rs:22-74 | what one batch makes of any row: it is left alone, or taken back from a lost worker, or, due and queued or taken back, sent with the result of the remote server, or fanned out; with its exact state and attempts |
| OutboxQueue.OldRowClosed | crates/cfwdon-worker/src/delivery/process_batch.rs:22-74 | a row is delivered only if it was due and the server accepted it, or if it is a parent all of whose followers are blocked and that has no relays to go to; expanded only if every follower not blocked and every relay it may use has a row; failed only after five attempts or for a missing account, a blocked domain or a permanent rejection |
| OutboxQueue.NewRowAfterBatch | crates/cfwdon-worker/src/delivery.rs:326-379 | a new row is for a relay or a follower that is not blocked, and if it is closed in the same batch, then rightly |
| OutboxQueue.DrainObeysLaws | crates/cfwdon-worker/src/delivery.rs:209-272 | over a whole drain each batch is like that, and every row closed at the end but not at the start was closed by some batch for one of these reasons |
| OutboxQueue.OutboxTable.RequeueStale | crates/cfwdon-worker/src/delivery/store_state.rs:149-172 | a stale row in flight counts an attempt and is queued again, or failed if that was its fifth; every other row stays |
| OutboxQueue.OutboxTable.Claim | crates/cfwdon-worker/src/delivery/store.rs:74-130 | the oldest due rows of the kind go in flight, as many as the limit allows, and nothing else changes |
| OutboxQueue.OutboxTable.MarkCompleted | crates/cfwdon-worker/src/delivery/store_state.rs:44-68 | exactly the listed rows are delivered |
| OutboxQueue.OutboxTable.MarkExpanded | crates/cfwdon-worker/src/delivery/store_state.rs:19-42 | exactly the listed rows that are in flight are expanded |
| OutboxQueue.OutboxTable.InsertTargets | crates/cfwdon-worker/src/delivery/store.rs:214-293 | afterwards the activity has one row per target and no other was added; the count is the number of distinct targets |
| OutboxQueue.OutboxTable.InsertAll | crates/cfwdon-worker/src/delivery/store.rs:214-293 | the same over all deliveries with targets; the count is the sum of their distinct targets |
| OutboxQueue.OutboxTable.ExpandParents | crates/cfwdon-worker/src/delivery.rs:326-379 | every claimed parent is closed, as expanded or as delivered without targets; every planned inbox has its row; no row was added that no parent asked for; both counts are exact |
| OutboxQueue.OutboxTable.MarkInFlight | crates/cfwdon-worker/src/delivery/store_state.rs:70-147 | a row changes, and is reported as changed, exactly when it is in flight |
| OutboxQueue.OutboxTable.SendOne | crates/cfwdon-worker/src/delivery/process_batch.rs:107-256 | a row in flight gets its result; one that is not is left alone and, but for a missing account, not counted |
| OutboxQueue.OutboxTable.SendClaimed | crates/cfwdon-worker/src/delivery/process_batch.rs:92-256 | each claimed row gets its own result, no other row changes, and delivered plus failed is the number claimed |
| OutboxQueue.OutboxTable.ProcessGeneric | crates/cfwdon-worker/src/delivery.rs:280-379 | fans out up to 16 due parents to their planned inboxes; with no parent due nothing changes |
| OutboxQueue.OutboxTable.ProcessTargets | crates/cfwdon-worker/src/delivery/process_batch.rs:31-64 | tries up to 32 due target rows once; with none due nothing changes |
| OutboxQueue.OutboxTable.ProcessBatch | crates/cfwdon-worker/src/delivery/process_batch.rs:22-74 | requeue, fan-out and send in this order, each row closed for its reason; counts as progress only when (open parents, attempts left) fell lexicographically, and when it does not, no due row is queued |
| OutboxQueue.OutboxTable.Drain | crates/cfwdon-worker/src/delivery.rs:209-272 | without new enqueues the self-continuation stops, for any table and whatever clock, followers, blocks and servers do between batches; no due row is then queued, closed rows stayed as they were, every row that was closed was so for its reason, and the table went through exactly one batch per step |
| BackgroundJobs.StepKeepsHeldOnce | crates/cfwdon-worker/src/background_jobs.rs:165-273 | after any statement every live run still holds a running row with the attempts it remembers, and no row is held twice |
| BackgroundJobs.StepKeepsAccounted | crates/cfwdon-worker/src/background_jobs.rs:81-273 | after any statement attempts equal errored plus reclaimed runs, open rows have at most four, failed ones exactly five, plus one per retry |
| BackgroundJobs.RunsAreSound | crates/cfwdon-worker/src/background_jobs.rs:38-341 | both hold in every interleaving of enqueue, both claims, finish, cancellation, reclaim and retry |
| BackgroundJobs.ClaimsAreBounded | crates/cfwdon-worker/src/background_jobs.rs:233-273 | from an empty table on, a handler starts at most five times plus once per administrator retry |
| BackgroundJobs.ReclaimWaits | crates/cfwdon-worker/src/background_jobs.rs:81-165 | in every run, the row of a live run can be reclaimed at second t if and only if it was claimed at least 900 seconds before |
| BackgroundJobs.RetryWaits | crates/cfwdon-worker/src/background_jobs.rs:233-256 | in every run, a job that failed can be claimed again from 2, 4, 8 and 16 minutes after its first four tries on, and not after the fifth |
| BackgroundJobs.ReadyFrom | crates/cfwdon-worker/src/background_jobs.rs:38-165 | in every run, a new row can be claimed from its time on, a reclaimed or revived one at once |
| BackgroundJobs.CompletedStays | crates/cfwdon-worker/src/background_jobs.rs:220-232 | in every run, a job that succeeded is never claimed, reclaimed or revived again |
| BackgroundJobs.StepKeepsUniqueIff | crates/cfwdon-worker/src/admin_api/jobs.rs:119-131 | a statement keeps at most one live row per type and payload if and only if it is not a retry of a job whose key is live |
| BackgroundJobs.RetryCanDuplicate | crates/cfwdon-worker/src/admin_api/jobs.rs:119-131 | a run from the empty table, without earlier retries, that ends in such a retry |
| BackgroundJobs.RunsKeepUnique | crates/cfwdon-worker/src/background_jobs.rs:38-69 | so does every run whose retries respect that |
| BackgroundJobs.LateWriteKeepsUniqueIff | crates/cfwdon-worker/src/background_jobs.rs:224-268 | a write by a reclaimed run keeps live rows unique unless it reopens a closed row whose key is live elsewhere |
| BackgroundJobs.LateWriteCanDuplicate | crates/cfwdon-worker/src/background_jobs.rs:224-268 | a legal run in which a live run loses its row to a reclaim, and whose late write then leaves two live rows |
| BackgroundJobTable.JobTable.SoftEnqueue | crates/cfwdon-worker/src/background_jobs.rs:38-69 | is one enqueue step; afterwards the key is live unless the id was taken, and live rows stay unique |
| BackgroundJobTable.JobTable.ClaimRows | crates/cfwdon-worker/src/background_jobs.rs:170-205 | the claim is a legal run, every picked row is held by its own run, and no other row changes |
| BackgroundJobTable.JobTable.RunClaimed | crates/cfwdon-worker/src/background_jobs.rs:214-273 | writes the outcome of one claimed job, backoff included, to its own row and gives up the hold |
| BackgroundJobTable.JobTable.RunAll | crates/cfwdon-worker/src/background_jobs.rs:205-212 | the loop ends every claimed job and counts the successes |
| BackgroundJobTable.JobTable.ProcessDue | crates/cfwdon-worker/src/background_jobs.rs:165-212 | exactly the picked due rows change, none is left running, no more than the limit are processed, and live rows stay unique |
| BackgroundJobTable.JobTable.RunPendingNow | crates/cfwdon-worker/src/background_jobs.rs:304-341 | runs at most one due row of the key; while live rows are unique they stay so, and nothing of that key is due afterwards |
| BackgroundJobTable.NotDueAfterRun | crates/cfwdon-worker/src/background_jobs.rs:238-265 | backoff puts the next attempt strictly ahead |
| BackgroundJobTable.JobTable.ReclaimRows | crates/cfwdon-worker/src/background_jobs.rs:99-160 | one reclaim statement touches exactly the rows it picked, as a legal run |
| BackgroundJobTable.JobTable.ReclaimStale | crates/cfwdon-worker/src/background_jobs.rs:81-163 | the two statements touch disjoint rows, at most the limit in all, the report counts them, within the limit no stale row is left, and live rows stay unique |
| BackgroundJobTable.ReclaimCounts | crates/cfwdon-worker/src/background_jobs.rs:125-140 | the second statement's picks are disjoint from the first's and still stale after it |
| AppCache.StepKeepsKvSound | crates/cfwdon-worker/src/app_cache.rs:51-189 | loads, guarded lists, changes, status deletions and expiries keep three bits of the shared cache exact and the other two from denying rows there are |
| AppCache.StepKeepsL1Sound | crates/cfwdon-worker/src/app_cache.rs:51-189 | so does each for an isolate's own bits, except a change of the account's rows elsewhere |
| AppCache.RunsKeepKvSound | crates/cfwdon-worker/src/app_cache.rs:167-189 | the shared cache is like that after any history |
| AppCache.ColdLoad | crates/cfwdon-worker/src/app_cache.rs:101-165 | with nothing cached each of the five bits is set if and only if the account has rows in that table |
| AppCache.RoutedRunsReadTrue | crates/cfwdon-worker/src/router.rs:19-21 | in a run through the router, while no other isolate changes the account's rows, no bit denies rows there are, three bits are set exactly if there are rows, and the guarded block list equals the plain query |
| AppCache.L1History | crates/cfwdon-worker/src/app_cache.rs:51-65 | an isolate holds what its first load since it last cleared the account returned |
| AppCache.KvHistory | crates/cfwdon-worker/src/app_cache.rs:67-99 | the shared cache holds the probe of the first load since the entry was last deleted |
| AppCache.GuardedListRightIff | crates/cfwdon-worker/src/domain_blocks.rs:166-197 | after any history the guarded list is right if and only if it is not so that the isolate has held the bits since a load at which there were no blocks, and another one has written some since |
| AppCache.QueueRunMissesBlock | crates/cfwdon-worker/src/delivery.rs:209-215 | a run of queue batches in which a block added elsewhere is not seen |
| AppCache.RowsSince | migrations/016_bookmarks.sql:1-12 | while nobody changes an account's rows, exactly those of deleted statuses go |
| AppCache.AnswerIsProbe | crates/cfwdon-worker/src/app_cache.rs:167-184 | after any history an isolate is answered with the account's rows as they were when the shared entry was filled that it asked for at its own first load |
| AppCache.RowsNow | migrations/039_thread_mutes.sql:1-8 | in any history the account's rows are those it was given last, but for bookmarks and mutes of statuses deleted since |
| AppCache.BitsRightIff | crates/cfwdon-worker/src/app_cache.rs:167-184 | after any history, for any isolate and each of the five bits: it is right if and only if there were such rows at that filling exactly when the rows given last, without those of deleted statuses, leave some |
| AppCache.DeletedBookmarkIsStillReported | crates/cfwdon-worker/src/statuses/status_delete.rs:92-98 | a history after which a fresh run through the router is told of bookmarks there are not |
| AppCache.Cache.ResetRequestState | crates/cfwdon-worker/src/app_cache.rs:39-41 | empties the first-level cache of this isolate only |
| AppCache.Cache.LoadAccountCapabilities | crates/cfwdon-worker/src/app_cache.rs:167-184 | answer and both caches afterwards are those of the load step; with sound caches the answer tells the truth about the account's rows, with cold ones for all five tables |
| AppCache.Cache.InvalidateAccountCapabilities | crates/cfwdon-worker/src/app_cache.rs:186-189 | removes the account from both caches, nothing else |
| AppCache.Cache.ListAllAccountDomainBlocks | crates/cfwdon-worker/src/domain_blocks.rs:166-197 | with sound own bits the answer is the database's, and soundness is kept |
| AppCache.Cache.InsertAccountDomainBlock | crates/cfwdon-worker/src/domain_blocks.rs:148-164 | the account blocks exactly one domain more if it was new, nothing else changes, and caches stay sound |
| AppCache.Cache.DeleteAccountDomainBlock | crates/cfwdon-worker/src/domain_blocks.rs:199-215 | the account blocks exactly the other domains, nothing else changes, and caches stay sound |
| AppCacheRaces.MovesKeepTraced | crates/cfwdon-worker/src/app_cache.rs:77-189 | with probe, put, write, delete and status deletion taken apart, in every interleaving each held or cached answer is right, older than the last write, or outdated by status deletions only; and each write is cleared or about to be |
| AppCacheRaces.WrongEntryWasRaced | crates/cfwdon-worker/src/app_cache.rs:77-189 | from any database on: an answer that is wrong and that no pending delete will remove was put less than 3600 seconds ago, and was probed before the last write and put after the last delete, or merely reports rows of statuses deleted since |
| AppCacheRaces.RaceLeavesWrongEntry | crates/cfwdon-worker/src/app_cache.rs:167-189 | such a race, for any account without blocks; the wrong answer lasts exactly 3600 seconds |
| FollowPaging.CursorOrderIff | crates/cfwdon-worker/src/follow_requests.rs:260-282 | seconds times a million plus rowid orders as (second, rowid) exactly while rowids stay below a million |
| FollowPaging.SortedMeaning | crates/cfwdon-worker/src/follow_requests.rs:306-313 | the listing is a permutation of both tables' rows, newest cursor first |
| FollowPaging.SortedTies | crates/cfwdon-worker/src/follow_requests.rs:306-313 | where cursors tie, the later second comes first |
| FollowPaging.Retain | crates/cfwdon-worker/src/follow_requests.rs:815-817 | the in-place filter keeps exactly the entries inside the window, in order |
| FollowPaging.FollowRequestsPage | crates/cfwdon-worker/src/follow_requests.rs:806-822 | the page holds requests whose cursors lie between both bounds, newest first and at most 1 to 80 of them; one that is left out is not newer, and then the page is full; the reported cursors are those of its first and last entry |
| FollowPaging.WalkFromIff | crates/cfwdon-worker/src/follow_requests.rs:814-822 | from any cursor on, the pages together are the rest of the listing if and only if none of them ends between two entries with one cursor |
| FollowPaging.WalkVisitsAllIff | crates/cfwdon-worker/src/follow_requests.rs:814-822 | for a given limit, walking by the last cursor lists every request once if and only if no two entries with one cursor stand on two sides of a multiple of the page size |
| FollowPaging.WalkVisitsAllForEveryLimitIff | crates/cfwdon-worker/src/follow_requests.rs:814-822 | for every limit if and only if cursors are distinct |
| FollowPaging.WalkListsEveryRequestOnce | crates/cfwdon-worker/src/follow_requests.rs:253-314 | in terms of the two tables: every pending local and remote request once, in descending order |
| FollowPaging.CollidingRequestIsSkipped | crates/cfwdon-worker/src/follow_requests.rs:260-282 | a local and a remote request with one cursor: a walk shows both for any limit above one, and only the first otherwise |
| SqlWith.SkipSqlWhitespace | crates/cfwdon-worker/src/d1_metrics.rs:231-237 | stops at the first character that is no white space |
| SqlWith.SkipSqlIdent | crates/cfwdon-worker/src/d1_metrics.rs:239-251 | stops behind the longest run of word characters |
| SqlWith.SkipBalancedParens | crates/cfwdon-worker/src/d1_metrics.rs:253-272 | stops behind the parenthesis that closes the first one, if there is one |
| SqlWith.SkipCte | crates/cfwdon-worker/src/d1_metrics.rs:194-221 | one pass of the loop leaves what the grammar of a table expression leaves |
| SqlWith.SkipCtes | crates/cfwdon-worker/src/d1_metrics.rs:192-228 | the loop ends on any text |
| SqlWith.SqlAfterWithClause | crates/cfwdon-worker/src/d1_metrics.rs:185-229 | the scanner computes the outer statement |
| SqlWith.OuterStatementIsTail | crates/cfwdon-worker/src/d1_metrics.rs:185-229 | on any text the result is the text or a trimmed shorter tail of it |
| SqlWith.BodyDropped | crates/cfwdon-worker/src/d1_metrics.rs:253-272 | any balanced text is skipped to its own closing parenthesis |
| SqlWith.CteDropped | crates/cfwdon-worker/src/d1_metrics.rs:194-221 | skipping a rendered table expression leaves exactly what was written behind it |
| SqlWith.CtesDropped | crates/cfwdon-worker/src/d1_metrics.rs:192-228 | the same for a whole list |
| SqlWith.KeywordIffNamed | crates/cfwdon-worker/src/d1_metrics.rs:189-190 | the keyword is seen exactly when the first name is `recursive` and a blank follows |
| SqlWith.WithListSkippedIff | crates/cfwdon-worker/src/d1_metrics.rs:183-229 | a rendered list with balanced columns and bodies is skipped to exactly the outer statement if and only if its first name is not taken for the keyword |
| SqlWith.RecursiveIsMisread | crates/cfwdon-worker/src/d1_metrics.rs:186-190 | a family of queries that are not named after their outer statement |
| SqlFamily.SkipLiteralAt | crates/cfwdon-worker/src/d1_metrics.rs:316-329 | stops behind the quote that closes the literal; a doubled one does not |
| SqlFamily.ReplaceSqlStringLiterals | crates/cfwdon-worker/src/d1_metrics.rs:311-332 | the scanner erases literals |
| SqlFamily.ErasedHasNoQuote | crates/cfwdon-worker/src/d1_metrics.rs:311-332 | no quote is left in any text, terminated or not |
| SqlFamily.ErasedRender | crates/cfwdon-worker/src/d1_metrics.rs:311-332 | of a rendered skeleton exactly the plain text is left, with one mark per literal, adjacent ones read as one |
| SqlFamily.CollapseSqlWhitespaceLower | crates/cfwdon-worker/src/d1_metrics.rs:154-169 | the scanner collapses space |
| SqlFamily.CollapseMeaning | crates/cfwdon-worker/src/d1_metrics.rs:154-169 | the visible characters stay, in order and in lower case, with single blanks between them and none around |
| SqlFamily.D1StatementFamily | crates/cfwdon-worker/src/d1_metrics.rs:148-181 | the pipeline computes the family |
| SqlFamily.FamilyIgnoresLiterals | crates/cfwdon-worker/src/d1_metrics.rs:148-181 | queries rendered from one skeleton with any literals, doubled quotes included, have one family |
| SqlFamily.FamilyIsFront | crates/cfwdon-worker/src/d1_metrics.rs:171-181 | a family is the whole outer statement up to 160 bytes, and of a longer one the nonempty front up to the character that reaches byte 160 |
| SqlFamily.FamilyHasNoQuote | crates/cfwdon-worker/src/d1_metrics.rs:148-181 | no family holds a quote |
| HtmlText.StripHtmlTags | crates/cfwdon-worker/src/content_helpers.rs:143-155 | the loop computes the stripped text |
| HtmlText.TagsStripped | crates/cfwdon-worker/src/content_helpers.rs:143-155 | of well-formed markup exactly the text between the tags remains |
| HtmlText.NoBracketLeft | crates/cfwdon-worker/src/content_helpers.rs:143-155 | no angle bracket remains of any text |
| Entities.OneMoreReplacement | crates/cfwdon-worker/src/content_helpers.rs:181-190 | one more `replace` behind a single pass is the single pass that also knows that entity |
| Entities.ChainIsOnePass | crates/cfwdon-worker/src/content_helpers.rs:181-190 | for any entities of which only the last decodes to a character of names, chained replacements are one pass |
| Entities.DecodeIsOnePass | crates/cfwdon-worker/src/content_helpers.rs:181-190 | the seven replacements decode each entity once and never look at their own output |
| Entities.DecodedEntities | crates/cfwdon-worker/src/content_helpers.rs:181-190 | what each of the seven entities in front of any text decodes to; any other character but an ampersand stays |
| Entities.EscapeOne | crates/cfwdon-worker/src/time_html.rs:120-127 | the chained escapes escape each character on its own |
| Entities.EscapedCharacters | crates/cfwdon-worker/src/time_html.rs:120-127 | what each of the five characters in front of any text is escaped to; any other stays |
| Entities.EscapedHasNoMarkup | crates/cfwdon-worker/src/time_html.rs:120-127 | escaped text holds no angle bracket and no quote |
| Entities.DecodeUndoesEscape | crates/cfwdon-worker/src/content_helpers.rs:181-190 | decoding gives back any text that was escaped |
| StatusHtml.RenderedIsSafe | crates/cfwdon-worker/src/time_html.rs:105-118 | rendered text, whatever it holds, is made of `<p>`, `</p>`, `<br />` and characters that are neither angle brackets nor quotes |
| StatusHtml.SanitizedIsSafe | crates/cfwdon-worker/src/content_helpers.rs:161-164 | so is sanitized markup, for any input: entities that decode to tags included |
| StatusHtml.RenderedKeepsText | crates/cfwdon-worker/src/time_html.rs:105-118 | stripped and decoded again, rendered text is the trimmed text without its line breaks |
| StatusHtml.RenderedReadsBack | crates/cfwdon-worker/src/time_html.rs:105-118 | read with `<br />` as a line break and paragraphs as separated by a blank line, and decoded, rendered text is the trimmed text |
| StatusHtml.ParagraphsAreSplit | crates/cfwdon-worker/src/time_html.rs:105-118 | no paragraph has a blank line left in it |
| StatusHtml.SanitizedKeepsText | crates/cfwdon-worker/src/content_helpers.rs:161-164 | sanitizing well-formed markup keeps all the text between its tags but for line breaks |
| Mentions.SkipWord | crates/cfwdon-worker/src/content_helpers.rs:36-39 | stops behind the longest run of word characters |
| Mentions.SkipDomain | crates/cfwdon-worker/src/content_helpers.rs:100-106 | stops behind the longest run of domain characters |
| Mentions.ExtractHashtagsFromText | crates/cfwdon-worker/src/content_helpers.rs:17-56 | the scanner that jumps over tags lists the first occurrences of the tags at all places |
| Mentions.HashtagsMeaning | crates/cfwdon-worker/src/content_helpers.rs:17-56 | these are, each once and in order, the tags at every `#` not preceded by a word character and followed by one |
| Mentions.WrittenTagIsFound | crates/cfwdon-worker/src/content_helpers.rs:17-56 | a tag written between any two texts that do not run into it is found, in lower case |
| Mentions.NoHandleInside | crates/cfwdon-worker/src/content_helpers.rs:97-137 | no handle starts inside what the scanner jumps over, domains included |
| Mentions.KeyIdentifies | crates/cfwdon-worker/src/content_helpers.rs:124-136 | two handles under one key are the same handle |
| Mentions.ReadHandle | crates/cfwdon-worker/src/content_helpers.rs:84-123 | name and domain in lower case, this instance's host when no domain follows |
| Mentions.ExtractAccountHandlesFromText | crates/cfwdon-worker/src/content_helpers.rs:65-141 | the scanner lists the first occurrences of the handles at all places |
| Mentions.HandlesMeaning | crates/cfwdon-worker/src/content_helpers.rs:65-141 | these are, each once and in order, the handles at every `@` not preceded by a word character and followed by one |
| Mentions.WrittenNameIsFound | crates/cfwdon-worker/src/content_helpers.rs:65-141 | so is a name without a domain, as one of this instance |
| Mentions.WrittenHandleIsFound | crates/cfwdon-worker/src/content_helpers.rs:65-141 | and a name with a domain, both in lower case |
| ModuleLayers.PushKeepsInv | scripts/check_module_layers.py:127-132 | numbering and pushing a module keeps the search invariant |
| ModuleLayers.SegmentMutual | scripts/check_module_layers.py:141-150 | everything above a module being visited reaches it and is reached |
| ModuleLayers.LowerToStacked | scripts/check_module_layers.py:139-140 | taking an import's number as low-link is sound while it is on the stack |
| ModuleLayers.MergeCovers | scripts/check_module_layers.py:136-138 | the smaller of both low-links covers every edge below the parent |
| ModuleLayers.StayKeepsInv | scripts/check_module_layers.py:141 | a lower low-link leaves the module rightly on the stack |
| ModuleLayers.SegmentIsComponent | scripts/check_module_layers.py:141-150 | an equal low-link makes the popped part one whole component, maximal and mutually reachable |
| ModuleLayers.PopKeepsInv | scripts/check_module_layers.py:141-148 | popping it keeps the search invariant |
| ModuleLayers.BestAfterPop | scripts/check_module_layers.py:149-150 | keeping the larger of two is the largest of all finished components |
| ModuleLayers.CycleFinder.constructor | scripts/check_module_layers.py:118-125 | the empty search satisfies the invariant |
| ModuleLayers.CycleFinder.Enter | scripts/check_module_layers.py:128-132 | numbers and pushes the module, nothing else |
| ModuleLayers.CycleFinder.Follow | scripts/check_module_layers.py:133-140 | one import keeps what holds between imports |
| ModuleLayers.CycleFinder.VisitNew | scripts/check_module_layers.py:136-138 | so does one met for the first time |
| ModuleLayers.CycleFinder.PopDownTo | scripts/check_module_layers.py:142-148 | pops exactly the part from the module on |
| ModuleLayers.CycleFinder.FinishComponent | scripts/check_module_layers.py:141-150 | finishes one component and keeps the best |
| ModuleLayers.CycleFinder.Leave | scripts/check_module_layers.py:141-150 | returning keeps the invariant and a low-link the caller can use |
| ModuleLayers.CycleFinder.Visit | scripts/check_module_layers.py:127-150 | a visit ends, leaves the older stack untouched and returns a covering, attained low-link |
| ModuleLayers.CycleFinder.LargestCycle | scripts/check_module_layers.py:118-155 | for every graph: the result is a strongly connected component of the known modules and none is larger; the popped components partition the modules |
| ModuleLayers.PoppedOnce | scripts/check_module_layers.py:142-148 | every module was popped into exactly one component |
| ModuleLayers.FoundationClosedIff | scripts/check_module_layers.py:166-169 | no foundation module imports a feature module if and only if none reaches one |
| ModuleLayers.CheckFoundation | scripts/check_module_layers.py:163-169 | the loop finds no error exactly when the foundation exists and imports no feature module |
| ModuleLayers.CheckLayers | scripts/check_module_layers.py:158-183 | passes exactly when the foundation exists, depends on no feature module even indirectly, nothing is glob-imported, and no component exceeds 33 modules |
| DumpSplitter.ListKeepsOrdered | scripts/split_d1_export.py:37-38 | listing a table behind its references keeps the order |
| DumpSplitter.Splitter.Visit | scripts/split_d1_export.py:34-38 | ends on any graph, cyclic or not, and extends the order by tables reachable from the start |
| DumpSplitter.Splitter.OrderTables | scripts/split_d1_export.py:33-39 | lists each reachable table once, behind every table it references that does not reference it back |
| DumpSplitter.WithUnlisted | scripts/split_d1_export.py:46 | tables with rows only follow, each once |
| DumpSplitter.AddStatement | scripts/split_d1_export.py:47-50 | closing a part when it passes the limit keeps what was written and makes a full part |
| DumpSplitter.SplitData | scripts/split_d1_export.py:45-53 | the parts in order hold each table's statements in one stretch, in table order with nothing between; each full part passes a million only by its last statement; the reported number is right if and only if something remains of the statements behind the last full part |
| DumpSplitter.ReportIsOneTooMany | scripts/split_d1_export.py:51-53 | dumps for which it is not: no data, and one large row |
| DumpSplitter.NamesInOrderIff | scripts/split_d1_export.py:50 | sorted by name the files are in the order of the parts if and only if there are fewer than a hundred |
| DumpSplitter.DataBetweenTablesAndTail | scripts/split_d1_export.py:41-52 | however many parts there are, their names sort behind the tables' file and before the tail's |
| DumpSplitter.SplitExport | scripts/split_d1_export.py:29-51 | both together: every table with rows is written as a whole, each statement once, referenced tables first wherever cycles allow |
| RouteParser.NormalizedIsNormal | scripts/generate_mastodon_api_compat.py:167-171 | a normalised path is absolute and has no empty segment |
| RouteParser.RunFollowsMeaning | scripts/generate_mastodon_api_compat.py:240-333 | reading the lines of any well-nested forest of blocks adds its routes in order, each under the prefixes of the blocks around it, and restores the frames; an unknown action stops both |
| RouteParser.ParsedFileIsMeaning | scripts/generate_mastodon_api_compat.py:247-333 | in particular a whole file |
| RouteParser.RunFindsNormalPaths | scripts/generate_mastodon_api_compat.py:250-333 | whatever the lines, every path found is absolute without empty segments |
| RouteParser.NormalStays | scripts/generate_mastodon_api_compat.py:167-171 | normalising changes no path that is normal already |
| RouteParser.PluralRoutes | scripts/generate_mastodon_api_compat.py:226-234 | the seven actions of plural resources by verb and path, with any parameter |
| RouteParser.NestedParamNames | scripts/generate_mastodon_api_compat.py:204-216 | how the parameter of nested paths is named, for every stem and ending |
| RouteParser.BlockFrames | scripts/generate_mastodon_api_compat.py:271-329 | under which paths the body of each kind of block is read, whatever stands around it; module scopes and other blocks change nothing |
| RouteParser.NestedResourceRoutes | scripts/generate_mastodon_api_compat.py:240-333 | for all names, the nine routes of a namespace with resources, a member route, a collection route and nested resources |
| RouteParser.MovedPaths | scripts/generate_mastodon_api_compat.py:182-187 | exactly `/oembed` and what lies below `/v1`, `/v2`, `/web` and `/v1_alpha` moves below `/api` |
| RouteParser.ParseUpstreamApiRoutes | scripts/generate_mastodon_api_compat.py:240-344 | the loop is that reading, behind the discovery routes and deduplicated |
| RouteParser.Dedupe | scripts/generate_mastodon_api_compat.py:335-344 | keeps the first of each method and upstream path |
| Sequences.FirstOccurrencesMeaning | scripts/generate_mastodon_api_compat.py:335-344 | first occurrences are the same elements, each once, ordered by where they first stood |
| UsePrefixes.PrefixOfConcat | scripts/refactor/merge_uses.py:8 | the prefix is the longest run of `ident::` with something behind it: behind such a run, a text keeps its own prefix and tail |
| UseLines.JoinedReadsAs | scripts/refactor/merge_uses.py:35-41 | items joined by commas are read as the pieces of each, in order |
| UseLines.MergedReadsAs | scripts/refactor/merge_uses.py:35-87 | how the text written for any group is read again: under which prefix, whether as a simple line, and with which items |
| UseLines.KeyKeptIff | scripts/refactor/merge_uses.py:83-87 | that is the prefix it was written for if and only if its only item, if it has just one, is not blank and does not begin with `ident::` |
| UseLines.BraceListIsListable | scripts/refactor/merge_uses.py:35-41 | whatever stands in a brace list, its items are given back by one |
| UseLines.NestedIsNotSimple | scripts/refactor/merge_uses.py:38-73 | a line with two opening braces, whatever it looks like, is never merged |
| UseTrees.TextImportsTree | scripts/refactor/merge_uses.py:35-41 | what a use line imports is read from its text: for every use tree, lists in lists included, exactly the paths of the tree |
| MergeUses.AddItems | scripts/refactor/merge_uses.py:80-82 | adds exactly the missing items of a line to its group, each once |
| MergeUses.GroupRun | scripts/refactor/merge_uses.py:67-82 | the groups hold the items of the run's simple lines by key, keys and items each once in order of first standing; other lines are put aside in order |
| MergeUses.MergeRun | scripts/refactor/merge_uses.py:67-88 | a run becomes one line per group in that order, then the other lines |
| MergeUses.TakeRun | scripts/refactor/merge_uses.py:55-66 | a run is the use lines up to the next other line or the end |
| MergeUses.Merge | scripts/refactor/merge_uses.py:44-89 | ends on any file and, read again, the file has the same blocks: other lines and use lines right behind an attribute verbatim and in place, and every run merged; every line that is no use line or has a list in a list stands in it as often as before |
| MergeUses.UntouchedIff | scripts/refactor/merge_uses.py:50-54 | exactly the lines that are no use lines or stand right behind the start of an attribute are left alone |
| MergeUses.GuardSeenIff | scripts/refactor/merge_uses.py:50-54 | a use line guarded by an attribute, over however many lines and comments, is left alone if and only if the line right in front of it starts the attribute |
| MergeUses.GuardMissed | scripts/refactor/merge_uses.py:50-66 | two guarded lines that are merged, behind a comment and behind an attribute of two lines |
| MergeImports.GroupKeepsPathsIff | scripts/refactor/merge_uses.py:83-87 | read again, the line of a group imports exactly the group's paths if and only if several items are neither blank nor hold commas, and a lone one has no blanks behind its segments and is not blank behind a single one |
| MergeImports.RunKeepsPaths | scripts/refactor/merge_uses.py:67-88 | a run all of whose groups are like that imports the same set of whole paths, with indentation and visibility, after merging |
| MergeImports.RunKeepsPathsIff | scripts/refactor/merge_uses.py:67-88 | a run of regular items does so if and only if each of its groups is one item or free of commas |
| MergeImports.CommaPathLost | scripts/refactor/merge_uses.py:83-87 | otherwise each path with such a comma is gone |
| MergeImports.TidyRunKeepsPaths | scripts/refactor/merge_uses.py:35-88 | a run of lines without blanks behind segments and commas outside braces keeps its paths |
| MergeTrees.SimpleLineReadRight | scripts/refactor/merge_uses.py:35-82 | from a use tree it merges the script reads exactly what the tree imports |
| MergeTrees.WrittenImports | scripts/refactor/merge_uses.py:83-87 | the line of a group is a use tree again and imports exactly the group's paths |
| MergeTrees.RunKeepsImports | scripts/refactor/merge_uses.py:67-88 | a run of use trees, those the script leaves alone included, imports after merging what it did before |
| MergeTrees.MergedFileKeepsImports | scripts/refactor/merge_uses.py:44-89 | in a file of use trees every run imports what it did and consists of use trees again, and every other line stays in place |
| MergeKeys.KeysReadBackIff | scripts/refactor/merge_uses.py:72-87 | the written lines are read under the keys of the run, in order, if and only if no lone item is blank or begins with `ident::` |
| MergeKeys.OneLinePerKeyIff | scripts/refactor/merge_uses.py:72-87 | read again there is one line per key if and only if no two groups are read under one key, as when no lone item is like that |
| MergeKeys.NoItemTwice | scripts/refactor/merge_uses.py:80-87 | the line of a group that keeps its paths lists no item twice |
| MergeKeys.SegmentsCollide | scripts/refactor/merge_uses.py:8 | a family of runs that leave two lines under one key |
| MergeKeys.TwoLinesForOneKey | scripts/refactor/merge_uses.py:83-87 | one of them in full: `use a::{b::c};` and `use a::b::d;`, for any four letters |

## Left out

- Concurrent queue consumers: one drain runs at a time, as batches of one queue do.
- OutboxQueue.OutboxTable.ProcessBatch: rows of `outbound_activities`, which the same batch claims beside the target rows
  and treats alike, are not a table of their own.
- OutboxQueue.OutboxTable.Drain: likewise; and a batch that ends in an error and is retried by the queue
  (crates/cfwdon-worker/src/delivery.rs:185-192) has no counterpart, so every batch runs to its end.
- Clocks: whether an outbox row is due or stale in a batch is a parameter of the batch, so retry delays
  (crates/cfwdon-domain/src/delivery.rs:101-108) do not appear; job times are whole seconds.
- New activities, an administrator's retries and cancellations for an inbox during a drain.
- BackgroundJobs.RunsAreSound: assumes that a reclaimed run was cancelled and never writes, as
  crates/cfwdon-worker/src/background_jobs.rs:79-80 says; the two late-write lemmas show what happens otherwise.
- BackgroundJobTable.JobTable.ProcessDue: which rows an `ORDER BY ... LIMIT` picks among equals is left open, and the
  handlers are a parameter that says which jobs fail; other workers do not step in between one job and the next.
- BackgroundJobTable.JobTable.RunPendingNow: likewise, no other worker steps in between its claim and its write.
- AppCache.RunsKeepKvSound: operations are atomic (AppCacheRaces takes those on the shared cache apart; an isolate's
  first level is not among its moves), key-value deletes always succeed, reads
  see the last write, and cached JSON parses. Accounts are never deleted.
- Host parsing of inbox addresses is a function parameter; so is which payloads are relay candidates.
- SqlWith and SqlFamily work on characters where the scanners index bytes; the two agree because every character they
  look for is ASCII. Reading verb and table from the family is a lookup and not modelled.
- RouteParser and MergeUses: lines come classified by the regular expressions, use lines with indentation, visibility and
  the rest apart, and lines that continue an attribute as such; joining `use` lists that span lines before merging is not
  modelled. UseLines trims Unicode white space; Python's `strip` also drops four ASCII separators.
- MergeImports.RunKeepsPathsIff: with irregular items (blank ones, or lone tails that begin with a blank) one group can
  write a path that another loses; for such runs only the groups have an exact condition, and the run one that suffices.
- DumpSplitter: reading statements and foreign keys from SQLite and writing the files; sets of references are visited in
  any order, so the result is stated for every order. ModuleLayers likewise visits modules and imports in any order.
- ModuleLayers.CheckLayers: imports and glob imports are given; finding them in source text is not modelled.
- FollowPaging: rendering accounts, which may drop entries that no longer resolve, and the `Link` header.
- DeliveryPool.Pool.ApplyOutcome: the pool is proved up to 255 rows, the width of its counters.
- The finite state tables of quotes, follows, drafts, visibility and federation policy: already explored in full.
- HTTP handlers, bindings, Auth0, cryptography, logging and JSON.
